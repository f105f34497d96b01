/**
 * The contracts facade: deploying (upload and instantiate at once), instantiating uploaded code by
 * its hash, uploading code and calling a contract, each as one closure run inside `execute_with`
 * with debug output and event collection switched on; and `decode_debug_buffer`, which turns a
 * contract's debug buffer into its non-empty lines.
 */
module ContractsApi {
  import opened Wrappers
  import opened Chain
  import opened Runtime
  import Sandbox

  /** What a wrapper that may abort produces: its value, or the panic message. */
  datatype Outcome<T> = Returned(value: T) | Panicked(message: string)

  /** The request `deploy_contract` makes: instantiate freshly uploaded code. */
  function DeployRequest(contractBytes: seq<bv8>, value: Balance, data: seq<bv8>, salt: seq<bv8>, origin: AccountId,
                         gasLimit: Weight, storageDepositLimit: Option<Balance>): (req: InstantiateRequest)
  {
    InstantiateRequest(origin, value, gasLimit, storageDepositLimit, Upload(contractBytes), data, salt, UnsafeDebug, UnsafeCollect)
  }

  /** `deploy_contract`. */
  method DeployContract(sandbox: Sandbox.Sandbox, contractBytes: seq<bv8>, value: Balance, data: seq<bv8>,
                        salt: seq<bv8>, origin: AccountId, gasLimit: Weight, storageDepositLimit: Option<Balance>)
    returns (result: ContractInstantiateResult)
    modifies sandbox.ext`overlay
    ensures var req := DeployRequest(contractBytes, value, data, salt, origin, gasLimit, storageDepositLimit);
      && req.code == Upload(contractBytes) && req.debug == UnsafeDebug && req.collect == UnsafeCollect
      && (sandbox.View(), result) == sandbox.config.runtime.bareInstantiate(req, old(sandbox.View()))
  {
    var rt := sandbox.config.runtime;
    var req := DeployRequest(contractBytes, value, data, salt, origin, gasLimit, storageDepositLimit);
    result := sandbox.ExecuteWith(v => rt.bareInstantiate(req, v));
  }

  /** The closure `instantiate_contract` runs: decode the code hash, aborting with "Invalid code hash"
      when the bytes are too short, then instantiate the code stored under that hash. */
  function InstantiateOf(rt: Runtime, codeHash: seq<bv8>, value: Balance, data: seq<bv8>, salt: seq<bv8>,
                         origin: AccountId, gasLimit: Weight, storageDepositLimit: Option<Balance>, v: ChainView)
    : (r: (ChainView, Outcome<ContractInstantiateResult>))
    ensures |codeHash| < 32 <==> r.1.Panicked?
    ensures r.1.Panicked? ==> r == (v, Panicked("Invalid code hash"))
    ensures r.1.Returned? ==>
      var req := InstantiateRequest(origin, value, gasLimit, storageDepositLimit, Existing(codeHash[..32]), data, salt,
                                    UnsafeDebug, UnsafeCollect);
      r == (rt.bareInstantiate(req, v).0, Returned(rt.bareInstantiate(req, v).1))
  {
    match DecodeHash(codeHash)
    case None => (v, Panicked("Invalid code hash"))
    case Some(hash) =>
      var req := InstantiateRequest(origin, value, gasLimit, storageDepositLimit, Existing(hash), data, salt,
                                    UnsafeDebug, UnsafeCollect);
      var (w, result) := rt.bareInstantiate(req, v);
      (w, Returned(result))
  }

  /** `instantiate_contract`: aborts, changing nothing, when the code hash does not decode. */
  method InstantiateContract(sandbox: Sandbox.Sandbox, codeHash: seq<bv8>, value: Balance, data: seq<bv8>,
                             salt: seq<bv8>, origin: AccountId, gasLimit: Weight, storageDepositLimit: Option<Balance>)
    returns (outcome: Outcome<ContractInstantiateResult>)
    modifies sandbox.ext`overlay
    ensures (sandbox.View(), outcome)
      == InstantiateOf(sandbox.config.runtime, codeHash, value, data, salt, origin, gasLimit, storageDepositLimit,
                       old(sandbox.View()))
  {
    var rt := sandbox.config.runtime;
    outcome := sandbox.ExecuteWith(v => InstantiateOf(rt, codeHash, value, data, salt, origin, gasLimit, storageDepositLimit, v));
  }

  /** `upload_contract`: with a runtime whose uploads report the code's hash, a successful upload
      returns the runtime hash of the uploaded bytes. */
  method UploadContract(sandbox: Sandbox.Sandbox, contractBytes: seq<bv8>, origin: AccountId,
                        storageDepositLimit: Option<Balance>, determinism: Determinism)
    returns (result: CodeUploadResult)
    modifies sandbox.ext`overlay
    ensures var req := UploadRequest(origin, contractBytes, storageDepositLimit, determinism);
      (sandbox.View(), result) == sandbox.config.runtime.bareUploadCode(req, old(sandbox.View()))
    ensures UploadLaw(sandbox.config.runtime) && result.Ok? ==>
      result.value.codeHash == sandbox.config.runtime.hashing(contractBytes)
  {
    var rt := sandbox.config.runtime;
    var req := UploadRequest(origin, contractBytes, storageDepositLimit, determinism);
    result := sandbox.ExecuteWith(v => rt.bareUploadCode(req, v));
  }

  /** The request `call_contract` makes. */
  function CallRequestOf(address: AccountId, value: Balance, data: seq<bv8>, origin: AccountId, gasLimit: Weight,
                         storageDepositLimit: Option<Balance>, determinism: Determinism): (req: CallRequest)
  {
    CallRequest(origin, address, value, gasLimit, storageDepositLimit, data, UnsafeDebug, UnsafeCollect, determinism)
  }

  /** `call_contract`. */
  method CallContract(sandbox: Sandbox.Sandbox, address: AccountId, value: Balance, data: seq<bv8>, origin: AccountId,
                      gasLimit: Weight, storageDepositLimit: Option<Balance>, determinism: Determinism)
    returns (result: ContractExecResult)
    modifies sandbox.ext`overlay
    ensures var req := CallRequestOf(address, value, data, origin, gasLimit, storageDepositLimit, determinism);
      && req.dest == address && req.origin == origin && req.debug == UnsafeDebug && req.collect == UnsafeCollect
      && (sandbox.View(), result) == sandbox.config.runtime.bareCall(req, old(sandbox.View()))
  {
    var rt := sandbox.config.runtime;
    var req := CallRequestOf(address, value, data, origin, gasLimit, storageDepositLimit, determinism);
    result := sandbox.ExecuteWith(v => rt.bareCall(req, v));
  }

  /** `b as char`: the character whose code is the byte's value. */
  function ByteToChar(b: bv8): (c: char)
  {
    (b as int) as char
  }

  /** The byte of the line separator, a newline. */
  const NEWLINE: bv8 := 10

  /** The buffer read as text, one character per byte. */
  function Decode(buffer: seq<bv8>): (text: string)
    ensures |text| == |buffer|
    ensures forall i :: 0 <= i < |buffer| ==> text[i] == ByteToChar(buffer[i])
  {
    seq(|buffer|, i requires 0 <= i < |buffer| => ByteToChar(buffer[i]))
  }

  /** `str::split`: the pieces between occurrences of `sep`, in order; always at least one. */
  function Split(s: string, sep: char): (pieces: seq<string>)
    ensures |pieces| >= 1
    ensures forall i :: 0 <= i < |pieces| ==> sep !in pieces[i]
  {
    if s == [] then [[]]
    else
      var rest := Split(s[1..], sep);
      if s[0] == sep then [[]] + rest else [[s[0]] + rest[0]] + rest[1..]
  }

  /** The pieces rejoined with `sep` between consecutive ones. */
  function Join(pieces: seq<string>, sep: char): (text: string)
  {
    if |pieces| <= 1 then (if pieces == [] then [] else pieces[0])
    else pieces[0] + [sep] + Join(pieces[1..], sep)
  }

  /** Splitting and rejoining gives the text back. */
  lemma {:induction false} JoinSplit(s: string, sep: char)
    ensures Join(Split(s, sep), sep) == s
  {
    if s != [] {
      JoinSplit(s[1..], sep);
      var rest := Split(s[1..], sep);
      if s[0] == sep {
        assert ([[]] + rest)[1..] == rest;
      } else {
        var pieces := [[s[0]] + rest[0]] + rest[1..];
        if |rest| > 1 {
          assert pieces[1..] == rest[1..];
        }
      }
    }
  }

  /** Splitting text that starts with a piece free of `sep`: that piece opens the first result. */
  lemma {:induction false} SplitPrefix(p: string, t: string, sep: char)
    requires sep !in p
    ensures Split(p + t, sep) == [p + Split(t, sep)[0]] + Split(t, sep)[1..]
  {
    var rest := Split(t, sep);
    if p == [] {
      assert p + t == t;
      assert p + rest[0] == rest[0];
      assert [rest[0]] + rest[1..] == rest;
    } else {
      assert (p + t)[0] == p[0] && (p + t)[1..] == p[1..] + t;
      SplitPrefix(p[1..], t, sep);
      var inner := Split(p[1..] + t, sep);
      assert inner == [p[1..] + rest[0]] + rest[1..];
      assert Split(p + t, sep) == [[p[0]] + inner[0]] + inner[1..];
      assert [p[0]] + (p[1..] + rest[0]) == p + rest[0];
    }
  }

  /** Joining pieces free of `sep` and splitting again gives the pieces back. */
  lemma {:induction false} SplitJoin(pieces: seq<string>, sep: char)
    requires |pieces| >= 1
    requires forall i :: 0 <= i < |pieces| ==> sep !in pieces[i]
    ensures Split(Join(pieces, sep), sep) == pieces
  {
    if |pieces| == 1 {
      SplitPrefix(pieces[0], [], sep);
      assert pieces[0] + [] == pieces[0];
    } else {
      var t := Join(pieces[1..], sep);
      SplitJoin(pieces[1..], sep);
      assert Join(pieces, sep) == pieces[0] + ([sep] + t);
      SplitPrefix(pieces[0], [sep] + t, sep);
      assert ([sep] + t)[1..] == t;
      assert Split([sep] + t, sep) == [[]] + pieces[1..];
      assert pieces[0] + [] == pieces[0];
    }
  }

  /** `filter_map(|s| (!s.is_empty()).then_some(s))`: the non-empty pieces, in order. */
  function NonEmpty(pieces: seq<string>): (kept: seq<string>)
    ensures |kept| <= |pieces|
    ensures forall i :: 0 <= i < |kept| ==> kept[i] != [] && kept[i] in pieces
    ensures forall p :: p in kept <==> p in pieces && p != []
  {
    if pieces == [] then []
    else (if pieces[0] == [] then [] else [pieces[0]]) + NonEmpty(pieces[1..])
  }

  /** The pieces laid end to end. */
  function Concat(pieces: seq<string>): (text: string)
  {
    if pieces == [] then [] else pieces[0] + Concat(pieces[1..])
  }

  /** The text with every occurrence of `c` removed. */
  function Without(s: string, c: char): (r: string)
    ensures c !in r
  {
    if s == [] then [] else (if s[0] == c then [] else [s[0]]) + Without(s[1..], c)
  }

  /** The buffer with every newline byte removed. */
  function WithoutNewlines(buffer: seq<bv8>): (kept: seq<bv8>)
  {
    if buffer == [] then [] else (if buffer[0] == NEWLINE then [] else [buffer[0]]) + WithoutNewlines(buffer[1..])
  }

  /** Dropping empty pieces does not change what the pieces spell out. */
  lemma {:induction false} ConcatNonEmpty(pieces: seq<string>)
    ensures Concat(NonEmpty(pieces)) == Concat(pieces)
  {
    if pieces != [] {
      ConcatNonEmpty(pieces[1..]);
      var first := if pieces[0] == [] then [] else [pieces[0]];
      ConcatAppend(first, NonEmpty(pieces[1..]));
    }
  }

  /** Concatenation distributes over appending piece lists. */
  lemma {:induction false} ConcatAppend(a: seq<string>, b: seq<string>)
    ensures Concat(a + b) == Concat(a) + Concat(b)
  {
    if a == [] {
      assert a + b == b;
    } else {
      assert (a + b)[0] == a[0] && (a + b)[1..] == a[1..] + b;
      ConcatAppend(a[1..], b);
    }
  }

  /** The pieces of a split, laid end to end, are the text without its separators. */
  lemma {:induction false} ConcatSplit(s: string, sep: char)
    ensures Concat(Split(s, sep)) == Without(s, sep)
  {
    if s != [] {
      ConcatSplit(s[1..], sep);
      var rest := Split(s[1..], sep);
      if s[0] == sep {
        assert ([[]] + rest)[1..] == rest;
      } else {
        var pieces := [[s[0]] + rest[0]] + rest[1..];
        assert pieces[1..] == rest[1..];
        assert Concat(rest) == rest[0] + Concat(rest[1..]);
      }
    }
  }

  /** Decoding distributes over concatenation. */
  lemma DecodeAppend(a: seq<bv8>, b: seq<bv8>)
    ensures Decode(a + b) == Decode(a) + Decode(b)
  {
  }

  /** Removing newline characters after decoding is removing newline bytes before it. */
  lemma {:induction false} DecodeWithout(buffer: seq<bv8>)
    ensures Without(Decode(buffer), ByteToChar(NEWLINE)) == Decode(WithoutNewlines(buffer))
  {
    if buffer != [] {
      var rest := buffer[1..];
      DecodeWithout(rest);
      var text := Decode(buffer);
      assert text[0] == ByteToChar(buffer[0]) && text[1..] == Decode(rest);
      var first: seq<bv8> := if buffer[0] == NEWLINE then [] else [buffer[0]];
      DecodeAppend(first, WithoutNewlines(rest));
      assert (text[0] == ByteToChar(NEWLINE)) == (buffer[0] == NEWLINE);
      assert Decode(first) == if text[0] == ByteToChar(NEWLINE) then [] else [text[0]];
    }
  }

  /** `decode_debug_buffer`: the buffer read one character per byte, split at newlines, with the
      empty pieces dropped. No line is empty and no line holds a newline. */
  function DecodeDebugBuffer(buffer: seq<bv8>): (lines: seq<string>)
    ensures forall i :: 0 <= i < |lines| ==> lines[i] != [] && '\n' !in lines[i]
  {
    NonEmpty(Split(Decode(buffer), '\n'))
  }

  /** The lines laid end to end are the buffer with its newline bytes removed, read one character
      per byte: nothing but newlines is dropped, and the lines keep the buffer's order. */
  lemma DecodeDebugBufferContent(buffer: seq<bv8>)
    ensures Concat(DecodeDebugBuffer(buffer)) == Decode(WithoutNewlines(buffer))
  {
    ConcatNonEmpty(Split(Decode(buffer), '\n'));
    ConcatSplit(Decode(buffer), '\n');
    DecodeWithout(buffer);
  }

  /** A buffer decodes to no lines exactly when it is empty or holds nothing but newlines. */
  lemma DecodeDebugBufferEmpty(buffer: seq<bv8>)
    ensures DecodeDebugBuffer(buffer) == [] <==> forall i :: 0 <= i < |buffer| ==> buffer[i] == NEWLINE
  {
    var lines := DecodeDebugBuffer(buffer);
    DecodeDebugBufferContent(buffer);
    WithoutNewlinesEmpty(buffer);
    if lines != [] {
      assert Concat(lines) == lines[0] + Concat(lines[1..]);
    }
  }

  /** Filtering distributes over appending: the pieces kept from `a + b` are those kept from `a`
      followed by those kept from `b`, so the filter keeps the pieces' order. */
  lemma {:induction false} NonEmptyAppend(a: seq<string>, b: seq<string>)
    ensures NonEmpty(a + b) == NonEmpty(a) + NonEmpty(b)
  {
    if a != [] {
      assert (a + b)[0] == a[0] && (a + b)[1..] == a[1..] + b;
      NonEmptyAppend(a[1..], b);
    } else {
      assert a + b == b;
    }
  }

  /** A buffer that reads as newline-free pieces joined by newlines, blank pieces included, decodes
      to exactly the non-empty pieces, in order. */
  lemma DecodeDebugBufferPieces(buffer: seq<bv8>, pieces: seq<string>)
    requires |pieces| >= 1
    requires forall i :: 0 <= i < |pieces| ==> '\n' !in pieces[i]
    requires Decode(buffer) == Join(pieces, '\n')
    ensures DecodeDebugBuffer(buffer) == NonEmpty(pieces)
  {
    SplitJoin(pieces, '\n');
  }

  /** The buffer "ab", newline, newline, "a", newline, "b" decodes to the lines "ab", "a", "b":
      the blank line is dropped and the others keep their order. */
  lemma DecodeDebugBufferBlankLine()
    ensures DecodeDebugBuffer([97, 98, 10, 10, 97, 10, 98]) == ["ab", "a", "b"]
  {
    var buffer: seq<bv8> := [97, 98, 10, 10, 97, 10, 98];
    var pieces: seq<string> := ["ab", "", "a", "b"];
    assert Decode(buffer) == "ab\n\na\nb" by {
      assert ByteToChar(97) == 'a' && ByteToChar(98) == 'b' && ByteToChar(10) == '\n';
      var text := Decode(buffer);
      assert forall i :: 0 <= i < 7 ==> text[i] == "ab\n\na\nb"[i];
    }
    assert Join(pieces, '\n') == "ab\n\na\nb" by {
      assert Join(pieces[3..], '\n') == "b";
      assert Join(pieces[2..], '\n') == "a\nb";
      assert Join(pieces[1..], '\n') == "\na\nb";
    }
    assert NonEmpty(pieces) == ["ab", "a", "b"] by {
      assert NonEmpty(pieces[3..]) == ["b"];
      assert NonEmpty(pieces[2..]) == ["a", "b"];
      assert NonEmpty(pieces[1..]) == ["a", "b"];
    }
    DecodeDebugBufferPieces(buffer, pieces);
  }

  /** A buffer that reads as non-empty, newline-free lines joined by newlines decodes to exactly those
      lines, in order. */
  lemma DecodeDebugBufferLines(buffer: seq<bv8>, lines: seq<string>)
    requires forall i :: 0 <= i < |lines| ==> lines[i] != [] && '\n' !in lines[i]
    requires Decode(buffer) == Join(lines, '\n')
    ensures DecodeDebugBuffer(buffer) == lines
  {
    if lines == [] {
      assert Split(Decode(buffer), '\n') == [[]];
      assert NonEmpty([[]]) == NonEmpty([[]][1..]);
    } else {
      DecodeDebugBufferPieces(buffer, lines);
      NonEmptyKeepsNonEmpty(lines);
    }
  }

  /** Nothing is left once the newlines are removed exactly when there was nothing else. */
  lemma {:induction false} WithoutNewlinesEmpty(buffer: seq<bv8>)
    ensures WithoutNewlines(buffer) == [] <==> forall i :: 0 <= i < |buffer| ==> buffer[i] == NEWLINE
  {
    if buffer != [] {
      WithoutNewlinesEmpty(buffer[1..]);
      if buffer[0] == NEWLINE {
        assert forall i :: 1 <= i < |buffer| ==> buffer[i] == buffer[1..][i - 1];
      }
    }
  }

  /** Filtering out empty pieces keeps a list with no empty piece as it is. */
  lemma {:induction false} NonEmptyKeepsNonEmpty(pieces: seq<string>)
    requires forall i :: 0 <= i < |pieces| ==> pieces[i] != []
    ensures NonEmpty(pieces) == pieces
  {
    if pieces != [] {
      NonEmptyKeepsNonEmpty(pieces[1..]);
    }
  }
}
