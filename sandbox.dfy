/**
 * `Sandbox`: the facade every API operation goes through. It owns the configuration and the
 * externalities it was built with and forwards closures to them.
 */
module Sandbox {
  import Externalities
  import opened Chain
  import opened SandboxConfig
  import Minimal

  class Sandbox {
    const config: Config
    const ext: Minimal.Ext

    /** `Sandbox::default()`: the sandbox over the externalities genesis builds, at wall clock reading `now`. */
    constructor (config: Config, now: Moment)
      ensures this.config == config && fresh(ext)
      ensures View() == Minimal.GenesisView(config, now)
      ensures ext.extensions == map[]
    {
      var genesis := Minimal.Genesis(config, now);
      this.config := config;
      ext := genesis;
    }

    /** The storage every read observes. */
    function View(): (view: ChainView)
      reads ext
    {
      ext.View()
    }

    /** `execute_with`: runs a closure against the storage and keeps its effects. */
    method ExecuteWith<R>(action: Minimal.Action<R>) returns (r: R)
      modifies ext`overlay
      ensures r == action(old(View())).1
      ensures View() == action(old(View())).0
    {
      r := ext.ExecuteWith(action);
    }

    /** `dry_run`: runs a closure and returns its result, leaving the storage as it was. */
    method DryRun<R>(action: Minimal.Action<R>) returns (r: R)
      modifies ext`backend, ext`overlay
      ensures r == action(old(View())).1
      ensures View() == old(View())
      ensures ext.overlay == map[]
    {
      r := Minimal.DryRun(ext, action);
    }

    /** `register_extension`: attaches an extension and changes nothing else. */
    method RegisterExtension(e: Externalities.Extension)
      modifies ext`extensions
      ensures ext.extensions == old(ext.extensions)[e.typeId := e]
    {
      ext.RegisterExtension(e);
    }
  }
}
