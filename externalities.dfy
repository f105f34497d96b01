/**
 * The test externalities that every sandbox operation runs against: a committed
 * backend, an overlay of pending changes that reads consult first, and the
 * registry of extensions attached to the execution context.
 */
module Externalities {
  import opened Wrappers

  /** Pending changes: `Some(v)` is a pending write of `v`, `None` a pending deletion. */
  type Changes<K, V> = map<K, Option<V>>

  /** The identifier of an extension's type, by which the registry is keyed. */
  type TypeId = string

  /** A capability object attached to the execution context (for instance a debug-output collector). */
  datatype Extension = Extension(typeId: TypeId, state: seq<bv8>)

  /** What a read of key `k` in storage `m` observes. */
  function Lookup<K, V>(m: map<K, V>, k: K): (r: Option<V>)
  {
    if k in m then Some(m[k]) else None
  }

  /** Two stores that agree on every read are the same store. */
  lemma LookupExtensional<K, V>(m1: map<K, V>, m2: map<K, V>)
    requires forall k :: Lookup(m1, k) == Lookup(m2, k)
    ensures m1 == m2
  {
    assert m1.Keys == m2.Keys by {
      forall k ensures k in m1 <==> k in m2 {
        assert Lookup(m1, k).Some? == Lookup(m2, k).Some?;
      }
    }
    forall k | k in m1 ensures m1[k] == m2[k] {
      assert Lookup(m1, k) == Lookup(m2, k);
    }
  }

  /** The storage a read observes: the overlay's pending change first, the backend otherwise. */
  function Overlaid<K(!new), V>(backend: map<K, V>, overlay: Changes<K, V>): (view: map<K, V>)
    ensures forall k :: Lookup(view, k) == if k in overlay then overlay[k] else Lookup(backend, k)
  {
    map k | k in backend.Keys + overlay.Keys && (k in overlay ==> overlay[k].Some?) ::
      if k in overlay then overlay[k].value else backend[k]
  }

  /** The writes and deletions that turn storage `before` into storage `after`, and no others. */
  function Diff<K(!new), V(==)>(before: map<K, V>, after: map<K, V>): (changes: Changes<K, V>)
    ensures forall k :: k in changes <==> Lookup(before, k) != Lookup(after, k)
    ensures forall k :: k in changes ==> changes[k] == Lookup(after, k)
  {
    map k | k in before.Keys + after.Keys && Lookup(before, k) != Lookup(after, k) :: Lookup(after, k)
  }

  /** Writing the difference to `after` on top of any overlay makes every read observe `after`. */
  lemma OverlayDiff<K(!new), V>(backend: map<K, V>, overlay: Changes<K, V>, after: map<K, V>)
    ensures Overlaid(backend, overlay + Diff(Overlaid(backend, overlay), after)) == after
  {
  }

  /** A storage that did not change produces no pending change. */
  lemma DiffOfSame<K(!new), V>(m: map<K, V>)
    ensures Diff(m, m) == map[]
  {
  }

  /** A pending write that differs from the backup still shadows it after the backup is
      installed as backend: restoring the backend without committing first does not undo it. */
  lemma RestoreWithoutCommitLeaks<K(!new), V>(backup: map<K, V>, overlay: Changes<K, V>, k: K, x: V)
    requires k in overlay && overlay[k] == Some(x)
    requires Lookup(backup, k) != Some(x)
    ensures Overlaid(backup, overlay) != backup
  {
  }

  /** The TestExternalities object of the sandbox: storage backend, pending overlay, extensions. */
  class TestExternalities<K(==,!new), V(==)> {
    var backend: map<K, V>
    var overlay: Changes<K, V>
    var extensions: map<TypeId, Extension>

    /** A fresh externalities object over the given genesis storage, with nothing pending. */
    constructor (storage: map<K, V>)
      ensures backend == storage && overlay == map[] && extensions == map[]
      ensures View() == storage
    {
      backend := storage;
      overlay := map[];
      extensions := map[];
      new;
      LookupExtensional(Overlaid(storage, map[]), storage);
    }

    /** The storage every read observes. */
    function View(): (view: map<K, V>)
      reads this
    {
      Overlaid(backend, overlay)
    }

    /** A storage write, kept pending in the overlay. */
    method Set(k: K, v: V)
      modifies this`overlay
      ensures overlay == old(overlay)[k := Some(v)]
      ensures View() == old(View())[k := v]
    {
      overlay := overlay[k := Some(v)];
      LookupExtensional(View(), old(View())[k := v]);
    }

    /** A storage deletion, kept pending in the overlay. */
    method Kill(k: K)
      modifies this`overlay
      ensures overlay == old(overlay)[k := None]
      ensures View() == old(View()) - {k}
    {
      overlay := overlay[k := None];
      LookupExtensional(View(), old(View()) - {k});
    }

    /** A batch of storage writes and deletions, kept pending in the overlay. */
    method Write(changes: Changes<K, V>)
      modifies this`overlay
      ensures overlay == old(overlay) + changes
      ensures View() == Overlaid(old(View()), changes)
    {
      overlay := overlay + changes;
      LookupExtensional(View(), Overlaid(old(View()), changes));
    }

    /** Runs a closure against the live storage: its writes stay pending in the overlay
        and are visible to every later read; its result is returned. */
    method ExecuteWith<R>(action: map<K, V> -> (map<K, V>, R)) returns (r: R)
      modifies this`overlay
      ensures r == action(old(View())).1
      ensures View() == action(old(View())).0
      ensures overlay == old(overlay) + Diff(old(View()), action(old(View())).0)
    {
      var outcome := action(View());
      OverlayDiff(backend, overlay, outcome.0);
      overlay := overlay + Diff(View(), outcome.0);
      r := outcome.1;
    }

    /** A copy of the backend with every pending change applied. */
    method AsBackend() returns (snapshot: map<K, V>)
      ensures snapshot == View()
    {
      snapshot := Overlaid(backend, overlay);
    }

    /** Flushes the pending changes into the backend. */
    method CommitAll()
      modifies this`backend, this`overlay
      ensures backend == old(View()) && overlay == map[]
      ensures View() == old(View())
    {
      backend := Overlaid(backend, overlay);
      overlay := map[];
      LookupExtensional(View(), old(View()));
    }

    /** Attaches an extension, replacing any earlier one of the same type. */
    method RegisterExtension(ext: Extension)
      modifies this`extensions
      ensures extensions == old(extensions)[ext.typeId := ext]
    {
      extensions := extensions[ext.typeId := ext];
    }
  }
}
