/** The module controller (pkg/controller/controller.go): a pass reconciles the modules it tracks,
    and the loader's table, with the wanted configuration. */
module Controller {
  import opened Basics
  import opened Texts
  import opened Lifecycle

  datatype Version = Version(major: nat, minor: nat, patch: nat)

  datatype ModuleConfig = ModuleConfig(groupId: string, policyId: string, name: string, state: string,
                                       template: string, version: Version,
                                       lastModuleUpdate: string, lastUpdate: string)
  {
    function Id(): string {
      groupId + ":" + policyId + ":" + name
    }
  }

  datatype Module = Module(id: string, config: ModuleConfig)

  function VersionText(v: Version): string {
    Itoa(v.major) + "." + Itoa(v.minor) + "." + Itoa(v.patch)
  }

  predicate SameVersion(a: ModuleConfig, b: ModuleConfig) {
    a.state == b.state && a.template == b.template && VersionText(a.version) == VersionText(b.version)
    && a.lastModuleUpdate == b.lastModuleUpdate
  }

  predicate SameConfig(a: ModuleConfig, b: ModuleConfig) {
    a.lastUpdate == b.lastUpdate
  }

  predicate UpToDate(a: ModuleConfig, b: ModuleConfig) {
    SameVersion(a, b) && SameConfig(a, b)
  }

  // ---- Tracked modules and wanted configurations ----

  ghost predicate UniqueIds(modules: seq<Module>) {
    forall i, j :: 0 <= i < j < |modules| ==> modules[i].id != modules[j].id
  }

  ghost predicate DistinctIds(modules: seq<Module>) {
    UniqueIds(modules) && forall m :: m in modules ==> m.config.Id() == m.id
  }

  ghost predicate DistinctConfigs(config: seq<ModuleConfig>) {
    forall i, j :: 0 <= i < j < |config| ==> config[i].Id() != config[j].Id()
  }

  /** Position of the tracked module with this id, or the number of modules. */
  function IndexOfId(modules: seq<Module>, id: string): (i: nat)
    ensures i <= |modules|
    ensures i < |modules| ==> modules[i].id == id
    ensures forall k :: 0 <= k < i ==> modules[k].id != id
  {
    if modules == [] || modules[0].id == id then 0 else 1 + IndexOfId(modules[1..], id)
  }

  ghost function TrackedIds(modules: seq<Module>): set<string> {
    set m | m in modules :: m.id
  }

  ghost function ConfigIds(config: seq<ModuleConfig>): set<string> {
    set mc | mc in config :: mc.Id()
  }

  /** What a pass wants to do about a configuration. */
  datatype Want = NewVersion | NewConfig | NewModule

  predicate Wants(modules: seq<Module>, mc: ModuleConfig, w: Want) {
    var i := IndexOfId(modules, mc.Id());
    match w
    case NewVersion => i < |modules| && !SameVersion(modules[i].config, mc)
    case NewConfig => i < |modules| && SameVersion(modules[i].config, mc) && !SameConfig(modules[i].config, mc)
    case NewModule => i == |modules|
  }

  function Select(config: seq<ModuleConfig>, modules: seq<Module>, w: Want): (r: seq<ModuleConfig>)
    ensures forall mc :: mc in r <==> mc in config && Wants(modules, mc, w)
  {
    if config == [] then []
    else (if Wants(modules, config[0], w) then [config[0]] else []) + Select(config[1..], modules, w)
  }

  lemma {:induction false} SelectDistinct(config: seq<ModuleConfig>, modules: seq<Module>, w: Want)
    requires DistinctConfigs(config)
    ensures DistinctConfigs(Select(config, modules, w))
  {
    if config != [] {
      SelectDistinct(config[1..], modules, w);
      var rest := Select(config[1..], modules, w);
      forall mc | mc in rest ensures mc.Id() != config[0].Id() {
        assert mc in config[1..];
      }
    }
  }

  /** The tracked module of the configuration's id gets that configuration. */
  function Reconfigured(modules: seq<Module>, mc: ModuleConfig): seq<Module> {
    var i := IndexOfId(modules, mc.Id());
    if i < |modules| then modules[i := Module(mc.Id(), mc)] else modules
  }

  function ReconfiguredAll(modules: seq<Module>, mcs: seq<ModuleConfig>): seq<Module>
    decreases |mcs|
  {
    if mcs == [] then modules else Reconfigured(ReconfiguredAll(modules, mcs[..|mcs| - 1]), mcs[|mcs| - 1])
  }

  ghost predicate SameIds(a: seq<Module>, b: seq<Module>) {
    |a| == |b| && forall i :: 0 <= i < |a| ==> a[i].id == b[i].id
  }

  lemma ReconfiguredIs(modules: seq<Module>, mc: ModuleConfig)
    requires DistinctIds(modules)
    ensures var r := Reconfigured(modules, mc);
            && SameIds(r, modules) && DistinctIds(r)
            && (forall k :: 0 <= k < |r| ==> r[k] == if r[k].id == mc.Id() then Module(mc.Id(), mc) else modules[k])
  {
    var i := IndexOfId(modules, mc.Id());
    assert i < |modules| ==> forall k :: 0 <= k < |modules| && k != i ==> modules[k].id != mc.Id();
  }

  /** The configuration a module ends up with: the one of its id, if there is one. */
  ghost predicate GotConfig(m: Module, was: Module, mcs: seq<ModuleConfig>) {
    && m.id == was.id
    && (m.id !in ConfigIds(mcs) ==> m == was)
    && (forall mc :: mc in mcs && mc.Id() == m.id ==> m.config == mc)
  }

  lemma GotConfigNext(m': Module, m: Module, was: Module, mcs: seq<ModuleConfig>, mc: ModuleConfig)
    requires GotConfig(m, was, mcs) && mc.Id() !in ConfigIds(mcs)
    requires m' == if m.id == mc.Id() then Module(mc.Id(), mc) else m
    ensures GotConfig(m', was, mcs + [mc])
  {
    assert mc in mcs + [mc];
    forall x | x in mcs ensures x.Id() in ConfigIds(mcs + [mc]) {
      assert x in mcs + [mc];
    }
  }

  lemma LastIsNew(mcs: seq<ModuleConfig>)
    requires DistinctConfigs(mcs) && mcs != []
    ensures DistinctConfigs(mcs[..|mcs| - 1]) && mcs[|mcs| - 1].Id() !in ConfigIds(mcs[..|mcs| - 1])
    ensures mcs[..|mcs| - 1] + [mcs[|mcs| - 1]] == mcs
  {
  }

  lemma {:induction false} ReconfiguredAllIs(modules: seq<Module>, mcs: seq<ModuleConfig>)
    requires DistinctIds(modules) && DistinctConfigs(mcs)
    ensures var r := ReconfiguredAll(modules, mcs);
            && SameIds(r, modules) && DistinctIds(r)
            && forall k :: 0 <= k < |r| ==> GotConfig(r[k], modules[k], mcs)
    decreases |mcs|
  {
    if mcs != [] {
      var first, last := mcs[..|mcs| - 1], mcs[|mcs| - 1];
      LastIsNew(mcs);
      ReconfiguredAllIs(modules, first);
      var before := ReconfiguredAll(modules, first);
      ReconfiguredIs(before, last);
      var r := Reconfigured(before, last);
      forall k | 0 <= k < |r| ensures GotConfig(r[k], modules[k], mcs) {
        GotConfigNext(r[k], before[k], modules[k], first, last);
      }
    }
  }

  // ---- The pass as the program makes it ----

  datatype Action = StartedOne(id: string) | StoppedOne(id: string) | Notified(groups: set<string>)

  ghost predicate TrackedRunning(modules: seq<Module>, states: States) {
    forall m :: m in modules ==> m.id in states && states[m.id].status.Running?
  }

  /** Everything wanted is tracked, loaded and running as wanted, and nothing else is. */
  ghost predicate Converged(modules: seq<Module>, states: States, config: seq<ModuleConfig>) {
    && TrackedIds(modules) == ConfigIds(config) == states.Keys
    && TrackedRunning(modules, states)
    && forall m, mc :: m in modules && mc in config && mc.Id() == m.id ==> UpToDate(m.config, mc)
  }

  /** A module that is loaded but not tracked is left alone. */
  ghost predicate KeepsLeftovers(modules: seq<Module>, states: States, modules': seq<Module>, states': States) {
    forall id :: id in states && id !in TrackedIds(modules) ==>
      id in states' && states'[id] == states[id] && id !in TrackedIds(modules')
  }

  /** Of the modules tracked and loaded before exactly those with an id in `done` are gone, and the
      tracked ones run. */
  ghost predicate StoppedSome(before: seq<Module>, loaded: set<string>, done: set<string>,
                              modules: seq<Module>, states: States) {
    && states.Keys == loaded - done && TrackedRunning(modules, states)
    && forall m :: m in modules <==> m in before && m.id !in done
  }

  class SController {
    const loader: Loader
    const works: nat -> bool // the outcomes of storage, Lua and hub operations, in order
    var clock: nat
    var modules: seq<Module>
    var log: seq<Action>

    constructor (works: nat -> bool, modules: seq<Module>)
      ensures this.works == works && this.modules == modules && log == [] && clock == 0
      ensures fresh(loader) && loader.states == map[]
    {
      this.works, this.clock, this.modules, this.log := works, 0, modules, [];
      loader := new Loader();
    }

    /** Holds however many operations fail. No pass crashes the program: a module is only ever
        started with a state of its own, on a router that was never closed. */
    ghost predicate Valid()
      reads this`modules, loader
    {
      DistinctIds(modules) && AllSane(loader.states) && AllFresh(loader.states)
    }

    ghost predicate AllWork() {
      forall i: nat :: works(i)
    }

    method Try() returns (ok: bool)
      modifies this`clock
      ensures ok == works(old(clock)) && clock == old(clock) + 1
    {
      ok := works(clock);
      clock := clock + 1;
    }

    /** A module that is not loaded gets its state and its socket; a state without one stays. */
    method LoadOne(id: string) returns (ok: bool)
      requires id !in loader.states
      modifies this`clock, loader
      ensures loader.states == if works(old(clock)) then old(loader.states)[id := NEW_LIFE] else old(loader.states)
      ensures ok == (works(old(clock)) && works(old(clock) + 1)) && (ok ==> clock == old(clock) + 2)
    {
      ok := Try();
      if ok {
        ok := loader.Add(id, NEW_LIFE);
        ok := Try();
      }
    }

    method StartOne(module': Module) returns (ok: bool)
      requires AllSane(loader.states)
      modifies this`clock, this`log, loader
      ensures AllSane(loader.states)
      ensures module'.id !in old(loader.states) && old(AllFresh(loader.states)) ==> AllFresh(loader.states)
      ensures forall k :: k != module'.id ==> (k in loader.states <==> k in old(loader.states))
                                              && (k in old(loader.states) ==> loader.states[k] == old(loader.states)[k])
      ensures ok ==> module'.id in loader.states && loader.states[module'.id].status.Running?
      ensures module'.id !in old(loader.states) ==>
                ok == (works(old(clock)) && works(old(clock) + 1) && works(old(clock) + 2))
                && (module'.id in loader.states <==> works(old(clock)))
      ensures log == if ok then old(log) + [StartedOne(module'.id)] else old(log)
    {
      var id := module'.id;
      if id !in loader.states {
        ok := LoadOne(id);
        if !ok {
          return;
        }
      }
      var added := Try();
      ok := loader.StartById(id, added);
      if ok {
        log := log + [StartedOne(id)];
      }
    }

    method StopOne(module': Module) returns (ok: bool)
      requires AllSane(loader.states) && AllFresh(loader.states)
      modifies this`clock, this`log, loader
      ensures AllSane(loader.states) && AllFresh(loader.states)
      ensures forall k :: k != module'.id ==> (k in loader.states <==> k in old(loader.states))
                                              && (k in old(loader.states) ==> loader.states[k] == old(loader.states)[k])
      ensures ok ==> module'.id !in loader.states
      ensures AllWork() && module'.id in old(loader.states) && old(loader.states)[module'.id].status.Running? ==> ok
      ensures module'.id !in old(loader.states) ==> ok
      ensures log == if ok && module'.id in old(loader.states) then old(log) + [StoppedOne(module'.id)] else old(log)
    {
      var id := module'.id;
      if id !in loader.states {
        return true;
      }
      var removed := Try();
      ok := loader.StopById(id, removed);
      if !ok {
        return;
      }
      ok := Try();
      if !ok {
        return;
      }
      removed := Try();
      ok := loader.Del(id, removed);
      if ok {
        log := log + [StoppedOne(id)];
      }
    }

    method UpdateOne(module': Module) returns (ok: bool)
      requires AllSane(loader.states) && AllFresh(loader.states)
      modifies this`clock, this`log, loader
      ensures AllSane(loader.states) && AllFresh(loader.states)
      ensures forall k :: k != module'.id ==> (k in loader.states <==> k in old(loader.states))
                                              && (k in old(loader.states) ==> loader.states[k] == old(loader.states)[k])
      ensures AllWork() && module'.id in old(loader.states) && old(loader.states)[module'.id].status.Running? ==>
                ok && module'.id in loader.states && loader.states[module'.id].status.Running?
    {
      ok := StopOne(module');
      if ok {
        ok := StartOne(module');
      }
    }

    method FindTracked(id: string) returns (mdx: nat)
      ensures mdx == IndexOfId(modules, id)
    {
      mdx := 0;
      while mdx < |modules|
        invariant 0 <= mdx <= |modules|
        invariant forall k :: 0 <= k < mdx ==> modules[k].id != id
      {
        if modules[mdx].id == id {
          break;
        }
        mdx := mdx + 1;
      }
      assert mdx == IndexOfId(modules, id);
    }

    /** The configurations of tracked modules that changed: in a version field, or otherwise. */
    method ChangedConfigs(config: seq<ModuleConfig>)
      returns (wantUpdate: seq<ModuleConfig>, wantConfig: seq<ModuleConfig>)
      ensures wantUpdate == Select(config, modules, NewVersion)
      ensures wantConfig == Select(config, modules, NewConfig)
    {
      wantUpdate, wantConfig := [], [];
      var i := 0;
      while i < |config|
        invariant 0 <= i <= |config|
        invariant wantUpdate == Select(config[..i], modules, NewVersion)
        invariant wantConfig == Select(config[..i], modules, NewConfig)
      {
        var mc := config[i];
        SelectNext(config, i, modules, NewVersion);
        SelectNext(config, i, modules, NewConfig);
        var mdx := FindTracked(mc.Id());
        if mdx < |modules| {
          if !SameVersion(modules[mdx].config, mc) {
            wantUpdate := wantUpdate + [mc];
          } else if !SameConfig(modules[mdx].config, mc) {
            wantConfig := wantConfig + [mc];
          }
        }
        i := i + 1;
      }
      assert config[..i] == config;
    }

    /** Configurations of which no module is tracked. */
    method MissingConfigs(config: seq<ModuleConfig>) returns (wantStart: seq<ModuleConfig>)
      ensures wantStart == Select(config, modules, NewModule)
    {
      wantStart := [];
      var i := 0;
      while i < |config|
        invariant 0 <= i <= |config|
        invariant wantStart == Select(config[..i], modules, NewModule)
      {
        SelectNext(config, i, modules, NewModule);
        var mdx := FindTracked(config[i].Id());
        if mdx == |modules| {
          wantStart := wantStart + [config[i]];
        }
        i := i + 1;
      }
      assert config[..i] == config;
    }

    /** Operations that all succeed leave every tracked module running. */
    ghost predicate Steady()
      reads this`modules, loader
    {
      AllWork() && TrackedRunning(modules, loader.states)
    }

    /** Restarts the tracked module of the configuration's id with that configuration. */
    method UpdateVersion(mc: ModuleConfig) returns (ok: bool)
      requires Valid()
      modifies this`clock, this`log, this`modules, loader
      ensures Valid() && modules == Reconfigured(old(modules), mc)
      ensures KeepsLeftovers(old(modules), old(loader.states), modules, loader.states)
      ensures old(Steady()) ==> Steady() && loader.states.Keys == old(loader.states.Keys)
    {
      ok := false;
      var mdx := FindTracked(mc.Id());
      if mdx < |modules| {
        modules := modules[mdx := Module(mc.Id(), mc)];
        ReplacedIsDistinct(old(modules), mdx, mc);
        ok := UpdateOne(modules[mdx]);
      }
    }

    /** Gives the tracked module of the configuration's id that configuration, without a restart.
        A module that is not loaded keeps its own, and a late failure leaves the new one. */
    method UpdateConfig(mc: ModuleConfig) returns (ok: bool)
      requires Valid()
      modifies this`clock, this`modules
      ensures Valid() && (modules == Reconfigured(old(modules), mc) || modules == old(modules))
      ensures KeepsLeftovers(old(modules), old(loader.states), modules, loader.states)
      ensures old(Steady()) ==> Steady() && modules == Reconfigured(old(modules), mc)
    {
      ok := false;
      var mdx := FindTracked(mc.Id());
      if mdx < |modules| {
        if modules[mdx].id !in loader.states {
          return true;
        }
        ok := Try();
        if !ok {
          return;
        }
        modules := modules[mdx := Module(mc.Id(), mc)];
        ReplacedIsDistinct(old(modules), mdx, mc);
        ok := Try();
        if !ok {
          return;
        }
        ok := Try();
      }
    }

    method NotifyGroups(groups: set<string>)
      modifies this`log
      ensures log == if groups == {} then old(log) else old(log) + [Notified(groups)]
    {
      if groups != {} {
        log := log + [Notified(groups)];
      }
    }

    method UpdateVersions(want: seq<ModuleConfig>) returns (groups: set<string>)
      requires Valid()
      modifies this`clock, this`log, this`modules, loader
      ensures Valid() && modules == ReconfiguredAll(old(modules), want)
      ensures KeepsLeftovers(old(modules), old(loader.states), modules, loader.states)
      ensures old(Steady()) ==> Steady() && loader.states.Keys == old(loader.states.Keys)
      ensures want == [] ==> groups == {} && log == old(log) && loader.states == old(loader.states)
    {
      groups := {};
      var idx := 0;
      while idx < |want|
        invariant 0 <= idx <= |want| && Valid()
        invariant KeepsLeftovers(old(modules), old(loader.states), modules, loader.states)
        invariant modules == ReconfiguredAll(old(modules), want[..idx])
        invariant old(Steady()) ==> Steady() && loader.states.Keys == old(loader.states.Keys)
        invariant want == [] ==> groups == {} && log == old(log) && loader.states == old(loader.states)
      {
        var ok := UpdateVersion(want[idx]);
        if ok {
          groups := groups + {want[idx].groupId};
        }
        ReconfiguredNext(old(modules), want, idx);
        idx := idx + 1;
      }
      assert want[..idx] == want;
    }

    method UpdateConfigs(want: seq<ModuleConfig>) returns (groups: set<string>)
      requires Valid()
      modifies this`clock, this`modules
      ensures Valid()
      ensures KeepsLeftovers(old(modules), old(loader.states), modules, loader.states)
      ensures old(Steady()) ==> Steady() && modules == ReconfiguredAll(old(modules), want)
      ensures want == [] ==> groups == {} && modules == old(modules)
    {
      groups := {};
      ghost var before := modules;
      var idx := 0;
      while idx < |want|
        invariant 0 <= idx <= |want| && Valid()
        invariant KeepsLeftovers(before, loader.states, modules, loader.states)
        invariant old(Steady()) ==> Steady() && modules == ReconfiguredAll(before, want[..idx])
        invariant want == [] ==> groups == {} && modules == before
      {
        ReconfiguredNext(before, want, idx);
        ghost var mid := modules;
        var ok := UpdateConfig(want[idx]);
        LeftoversStay(before, mid, modules, loader.states);
        if ok {
          groups := groups + {want[idx].groupId};
        }
        idx := idx + 1;
      }
      assert want[..idx] == want;
    }

    method CheckUpdateModules(config: seq<ModuleConfig>)
      requires Valid()
      modifies this`clock, this`log, this`modules, loader
      ensures Valid()
      ensures KeepsLeftovers(old(modules), old(loader.states), modules, loader.states)
      ensures old(Steady()) && DistinctConfigs(config) ==>
                && Steady() && loader.states.Keys == old(loader.states.Keys)
                && TrackedIds(modules) == TrackedIds(old(modules)) && AllUpToDate(modules, config)
      ensures AllUpToDate(old(modules), config) ==>
                log == old(log) && modules == old(modules) && loader.states == old(loader.states)
    {
      var wantUpdate, wantConfig := ChangedConfigs(config);
      if DistinctConfigs(config) {
        ReconfiguredUpToDate(modules, config);
      }
      if AllUpToDate(modules, config) {
        UpToDateWantsNothing(modules, config);
      }
      var filesOk := Try();
      if filesOk {
        var groups := UpdateVersions(wantUpdate);
        var more := UpdateConfigs(wantConfig);
        NotifyGroups(groups + more);
      }
    }

    /** Configurations of tracked modules that are no longer wanted. */
    method UnwantedConfigs(config: seq<ModuleConfig>) returns (wantStop: seq<ModuleConfig>)
      requires DistinctIds(modules)
      ensures forall mc :: mc in wantStop <==>
                exists m :: m in modules && m.id !in ConfigIds(config) && m.config == mc
    {
      wantStop := [];
      var i := 0;
      while i < |modules|
        invariant 0 <= i <= |modules|
        invariant forall mc :: mc in wantStop <==>
                    exists k :: 0 <= k < i && modules[k].id !in ConfigIds(config) && modules[k].config == mc
      {
        var j := 0;
        while j < |config|
          invariant 0 <= j <= |config|
          invariant forall k :: 0 <= k < j ==> config[k].Id() != modules[i].id
        {
          if config[j].Id() == modules[i].id {
            break;
          }
          j := j + 1;
        }
        if j == |config| {
          assert modules[i].id !in ConfigIds(config);
          wantStop := wantStop + [modules[i].config];
        } else {
          assert config[j] in config;
        }
        i := i + 1;
      }
    }

    /** Stops the tracked module of the configuration's id and stops tracking it. A module that is
        not loaded, or cannot be stopped, stays. */
    method StopTracked(mc: ModuleConfig) returns (ok: bool)
      requires Valid()
      modifies this`clock, this`log, this`modules, loader
      ensures Valid()
      ensures KeepsLeftovers(old(modules), old(loader.states), modules, loader.states)
      ensures forall m :: m in modules <==> m in old(modules) && !(ok && m.id == mc.Id())
      ensures forall k :: k != mc.Id() ==> (k in loader.states <==> k in old(loader.states))
                                           && (k in old(loader.states) ==> loader.states[k] == old(loader.states)[k])
      ensures ok ==> loader.states.Keys == old(loader.states.Keys) - {mc.Id()}
      ensures old(Steady()) && mc.Id() in TrackedIds(old(modules)) ==> ok
      ensures mc.Id() !in TrackedIds(old(modules)) ==> loader.states == old(loader.states)
    {
      var mdx := FindTracked(mc.Id());
      if mdx == |modules| || mc.Id() !in loader.states {
        ok := false;
        TrackedIdsIndex(modules, mc.Id());
        return;
      }
      TrackedIdsIndex(modules, mc.Id());
      ok := StopOne(modules[mdx]);
      if ok {
        SpliceDistinct(modules, mdx);
        modules := RemoveAt(modules, mdx);
      }
    }

    method StopNext(mc: ModuleConfig, ghost before: seq<Module>, ghost loaded: set<string>, ghost done: set<string>)
      returns (ok: bool)
      requires Valid() && (forall m :: m in modules ==> m in before)
      modifies this`clock, this`log, this`modules, loader
      ensures Valid() && forall m :: m in modules ==> m in before
      ensures KeepsLeftovers(old(modules), old(loader.states), modules, loader.states)
      ensures AllWork() && mc.Id() in TrackedIds(before)
              && old(StoppedSome(before, loaded, done, modules, loader.states)) ==>
                StoppedSome(before, loaded, done + {mc.Id()}, modules, loader.states)
    {
      ok := StopTracked(mc);
      if AllWork() && mc.Id() in TrackedIds(before) && old(StoppedSome(before, loaded, done, modules, loader.states)) {
        OneMoreStopped(before, done, old(modules), modules, mc.Id(), ok);
      }
    }

    method StopAll(want: seq<ModuleConfig>) returns (groups: set<string>)
      requires Valid()
      modifies this`clock, this`log, this`modules, loader
      ensures Valid()
      ensures KeepsLeftovers(old(modules), old(loader.states), modules, loader.states)
      ensures forall m :: m in modules ==> m in old(modules)
      ensures old(Steady()) && ConfigIds(want) <= TrackedIds(old(modules)) ==>
                StoppedSome(old(modules), old(loader.states.Keys), ConfigIds(want), modules, loader.states)
      ensures want == [] ==>
                groups == {} && log == old(log) && modules == old(modules) && loader.states == old(loader.states)
    {
      groups := {};
      ghost var before, loaded, done: set<string> := modules, loader.states.Keys, {};
      var idx := 0;
      while idx < |want|
        invariant 0 <= idx <= |want| && Valid() && done == ConfigIds(want[..idx])
        invariant KeepsLeftovers(before, old(loader.states), modules, loader.states)
        invariant forall m :: m in modules ==> m in before
        invariant old(Steady()) && ConfigIds(want) <= TrackedIds(before) ==>
                    StoppedSome(before, loaded, done, modules, loader.states)
        invariant want == [] ==>
                    groups == {} && log == old(log) && modules == old(modules) && loader.states == old(loader.states)
      {
        var mc := want[idx];
        assert mc in want && mc.Id() in ConfigIds(want);
        ConfigIdsNext(want, idx);
        var ok := StopNext(mc, before, loaded, done);
        if ok {
          groups := groups + {mc.groupId};
        }
        done := done + {mc.Id()};
        idx := idx + 1;
      }
      assert want[..idx] == want;
    }

    method CheckStopModules(config: seq<ModuleConfig>)
      requires Valid()
      modifies this`clock, this`log, this`modules, loader
      ensures Valid()
      ensures KeepsLeftovers(old(modules), old(loader.states), modules, loader.states)
      ensures forall m :: m in modules ==> m in old(modules)
      ensures old(Steady()) ==>
                && Steady()
                && (forall m :: m in modules <==> m in old(modules) && m.id in ConfigIds(config))
                && loader.states.Keys == old(loader.states.Keys) - (TrackedIds(old(modules)) - ConfigIds(config))
      ensures TrackedIds(old(modules)) <= ConfigIds(config) ==>
                log == old(log) && modules == old(modules) && loader.states == old(loader.states)
    {
      var want := UnwantedConfigs(config);
      UnwantedIds(modules, config, want);
      StillWanted(modules, ConfigIds(config));
      var groups := StopAll(want);
      NotifyGroups(groups);
    }

    /** A module of an id that is neither loaded nor tracked. */
    method StartNew(mc: ModuleConfig) returns (ok: bool)
      requires Valid() && mc.Id() !in loader.states && mc.Id() !in TrackedIds(modules)
      modifies this`clock, this`log, this`modules, loader
      ensures Valid() && modules == if ok then old(modules) + [Module(mc.Id(), mc)] else old(modules)
      ensures forall k :: k != mc.Id() ==> (k in loader.states <==> k in old(loader.states))
                                           && (k in old(loader.states) ==> loader.states[k] == old(loader.states)[k])
      ensures ok ==> mc.Id() in loader.states && loader.states[mc.Id()].status.Running?
      ensures ok == (works(old(clock)) && works(old(clock) + 1) && works(old(clock) + 2))
              && (mc.Id() in loader.states <==> works(old(clock)))
    {
      AppendedDistinct(modules, mc);
      var module' := Module(mc.Id(), mc);
      ok := StartOne(module');
      if ok {
        modules := modules + [module'];
      }
    }

    /** Starts a module for the configuration and tracks it, unless one is loaded already. */
    method StartTracked(mc: ModuleConfig) returns (ok: bool)
      requires Valid()
      requires mc.Id() in TrackedIds(modules) ==> mc.Id() in loader.states
      modifies this`clock, this`log, this`modules, loader
      ensures Valid()
      ensures KeepsLeftovers(old(modules), old(loader.states), modules, loader.states)
      ensures modules == if ok then old(modules) + [Module(mc.Id(), mc)] else old(modules)
      ensures forall k :: k != mc.Id() ==> (k in loader.states <==> k in old(loader.states))
                                           && (k in old(loader.states) ==> loader.states[k] == old(loader.states)[k])
      ensures ok ==> mc.Id() !in old(loader.states)
                     && mc.Id() in loader.states && loader.states[mc.Id()].status.Running?
      ensures mc.Id() in old(loader.states) ==> loader.states == old(loader.states) && log == old(log)
      ensures mc.Id() !in old(loader.states) ==>
                ok == (works(old(clock)) && works(old(clock) + 1) && works(old(clock) + 2))
                && (mc.Id() in loader.states <==> works(old(clock)))
      ensures AllWork() ==> ok == (mc.Id() !in old(loader.states))
      ensures old(Steady()) ==>
                Steady() && loader.states.Keys == old(loader.states.Keys) + {mc.Id()}
                && TrackedIds(modules) == TrackedIds(old(modules)) + if ok then {mc.Id()} else {}
    {
      TrackedAppend(modules, Module(mc.Id(), mc));
      if mc.Id() in loader.states {
        return false;
      }
      ok := StartNew(mc);
    }

    method CheckStartModules(config: seq<ModuleConfig>)
      requires Valid()
      modifies this`clock, this`log, this`modules, loader
      ensures Valid() && old(modules) <= modules
      ensures KeepsLeftovers(old(modules), old(loader.states), modules, loader.states)
      ensures forall i :: |old(modules)| <= i < |modules| ==> modules[i].config in config
      ensures old(Steady()) ==>
                && Steady()
                && TrackedIds(modules) == TrackedIds(old(modules)) + (ConfigIds(config) - old(loader.states.Keys))
                && loader.states.Keys == old(loader.states.Keys) + ConfigIds(config)
      ensures ConfigIds(config) <= TrackedIds(old(modules)) ==>
                log == old(log) && modules == old(modules) && loader.states == old(loader.states)
    {
      var want := MissingConfigs(config);
      MissingIds(modules, config);
      MissingAlgebra(TrackedIds(modules), loader.states.Keys, ConfigIds(config));
      if Steady() {
        RunningTracked(modules, loader.states);
      }
      if |want| != 0 {
        var filesOk := Try();
        if filesOk {
          var groups := StartAll(want);
          NotifyGroups(groups);
        }
      }
    }

    method StartAll(want: seq<ModuleConfig>) returns (groups: set<string>)
      requires Valid()
      requires forall mc :: mc in want ==> mc.Id() !in TrackedIds(modules)
      modifies this`clock, this`log, this`modules, loader
      ensures Valid() && old(modules) <= modules
      ensures KeepsLeftovers(old(modules), old(loader.states), modules, loader.states)
      ensures forall i :: |old(modules)| <= i < |modules| ==> modules[i].config in want
      ensures old(Steady()) ==>
                && Steady()
                && TrackedIds(modules) == TrackedIds(old(modules)) + (ConfigIds(want) - old(loader.states.Keys))
                && loader.states.Keys == old(loader.states.Keys) + ConfigIds(want)
    {
      groups := {};
      ghost var tracked, loaded, done: set<string> := TrackedIds(modules), loader.states.Keys, {};
      var idx := 0;
      while idx < |want|
        invariant 0 <= idx <= |want| && Valid() && old(modules) <= modules && done == ConfigIds(want[..idx])
        invariant KeepsLeftovers(old(modules), old(loader.states), modules, loader.states)
        invariant forall i :: |old(modules)| <= i < |modules| ==>
                    modules[i].config in want && modules[i].id in loader.states
        invariant old(Steady()) ==>
                    Steady() && TrackedIds(modules) == tracked + (done - loaded) && loader.states.Keys == loaded + done
      {
        var mc := want[idx];
        assert mc in want;
        ConfigIdsNext(want, idx);
        NewlyTracked(old(modules), modules, mc.Id());
        GrowIds(tracked, loaded, done, mc.Id());
        var ok := StartTracked(mc);
        if ok {
          groups := groups + {mc.groupId};
        }
        done := done + {mc.Id()};
        idx := idx + 1;
      }
      assert want[..idx] == want;
    }

    /** One pass; nothing is done when the configuration cannot be loaded. */
    method DoSync(loaded: Option<seq<ModuleConfig>>)
      requires Valid()
      modifies this`clock, this`log, this`modules, loader
      ensures Valid()
      ensures KeepsLeftovers(old(modules), old(loader.states), modules, loader.states)
      ensures old(Steady()) && loaded.Some? && DistinctConfigs(loaded.value) ==>
                var leftover := old(loader.states.Keys) - TrackedIds(old(modules));
                && Steady() && AllUpToDate(modules, loaded.value)
                && TrackedIds(modules) == ConfigIds(loaded.value) - leftover
                && loader.states.Keys == ConfigIds(loaded.value) + leftover
                && (Converged(modules, loader.states, loaded.value) <==> leftover == {})
      ensures AllWork() && loaded.Some? && Converged(old(modules), old(loader.states), loaded.value) ==>
                log == old(log) && modules == old(modules) && loader.states == old(loader.states)
    {
      if loaded.None? {
        return;
      }
      var config := loaded.value;
      CheckUpdateModules(config);
      ghost var updated := modules;
      CheckStopModules(config);
      ghost var kept := modules;
      CheckStartModules(config);
      if old(Steady()) && DistinctConfigs(config) {
        AppendedUpToDate(kept, modules, config);
        KeptIds(updated, kept, config);
        RunningTracked(old(modules), old(loader.states));
        PassIds(TrackedIds(old(modules)), old(loader.states.Keys), ConfigIds(config));
      }
    }
  }

  /** A module whose start fails halfway, after the loader has taken its state, stays loaded and
      untracked, and no later pass starts it, however well everything works from then on. */
  method HalfStarted(mc: ModuleConfig) returns (c: SController)
    ensures fresh(c) && fresh(c.loader) && c.Valid() && forall i :: i != 1 ==> c.works(i)
    ensures mc.Id() in c.loader.states && mc.Id() !in TrackedIds(c.modules)
    ensures !Converged(c.modules, c.loader.states, [mc])
  {
    c := new SController(i => i != 1, []);
    var ok := c.StartTracked(mc);
    assert c.works(0) && !c.works(1);
    var pass := 0;
    while pass < 2
      invariant c.Valid() && mc.Id() in c.loader.states && mc.Id() !in TrackedIds(c.modules)
    {
      c.DoSync(Some([mc]));
      pass := pass + 1;
    }
    assert mc in [mc] && mc.Id() in ConfigIds([mc]);
  }

  lemma LeftoversStay(before: seq<Module>, mid: seq<Module>, after: seq<Module>, states: States)
    requires KeepsLeftovers(before, states, mid, states) && KeepsLeftovers(mid, states, after, states)
    ensures KeepsLeftovers(before, states, after, states)
  {
  }

  lemma OneMoreStopped(before: seq<Module>, done: set<string>, mid: seq<Module>, after: seq<Module>, id: string,
                       ok: bool)
    requires forall m :: m in mid <==> m in before && m.id !in done
    requires forall m :: m in after <==> m in mid && !(ok && m.id == id)
    requires id in TrackedIds(before) && (id in TrackedIds(mid) ==> ok)
    ensures forall m :: m in after <==> m in before && m.id !in done + {id}
    ensures id !in TrackedIds(mid) ==> id in done
  {
    if !ok {
      forall m | m in after ensures m.id != id {
      }
    }
  }

  lemma AppendedDistinct(modules: seq<Module>, mc: ModuleConfig)
    requires DistinctIds(modules) && mc.Id() !in TrackedIds(modules)
    ensures DistinctIds(modules + [Module(mc.Id(), mc)])
  {
    forall m | m in modules ensures m.id != mc.Id() {
    }
  }

  lemma TrackedAppend(modules: seq<Module>, m: Module)
    ensures TrackedIds(modules + [m]) == TrackedIds(modules) + {m.id}
  {
    forall id | id in TrackedIds(modules) + {m.id} ensures id in TrackedIds(modules + [m]) {
      if id == m.id {
        assert m in modules + [m];
      } else {
        var x :| x in modules && x.id == id;
        assert x in modules + [m];
      }
    }
  }

  /** A tracked module that was not tracked before was added since. */
  lemma NewlyTracked(before: seq<Module>, now: seq<Module>, id: string)
    requires before <= now && id !in TrackedIds(before)
    ensures id in TrackedIds(now) ==> exists i :: |before| <= i < |now| && now[i].id == id
  {
    if id !in TrackedIds(now) {
      return;
    }
    var m :| m in now && m.id == id;
    assert forall k :: 0 <= k < |before| ==> before[k] in before && now[k] == before[k];
    var i :| 0 <= i < |now| && now[i] == m;
  }

  lemma MissingIds(modules: seq<Module>, config: seq<ModuleConfig>)
    ensures var want := Select(config, modules, NewModule);
            && (forall mc :: mc in want ==> mc in config && mc.Id() !in TrackedIds(modules))
            && ConfigIds(want) == ConfigIds(config) - TrackedIds(modules)
            && (ConfigIds(config) <= TrackedIds(modules) ==> want == [])
  {
    var want := Select(config, modules, NewModule);
    forall mc | mc in config ensures Wants(modules, mc, NewModule) <==> mc.Id() !in TrackedIds(modules) {
      TrackedIdsIndex(modules, mc.Id());
    }
    if ConfigIds(config) <= TrackedIds(modules) {
      forall mc | mc in config ensures !Wants(modules, mc, NewModule) {
        assert mc.Id() in ConfigIds(config);
      }
      SelectNothing(config, modules, NewModule);
    }
  }

  lemma KeptIds(modules: seq<Module>, kept: seq<Module>, config: seq<ModuleConfig>)
    requires forall m :: m in kept <==> m in modules && m.id in ConfigIds(config)
    ensures TrackedIds(kept) == TrackedIds(modules) * ConfigIds(config)
  {
  }

  lemma RunningTracked(modules: seq<Module>, states: States)
    requires TrackedRunning(modules, states)
    ensures TrackedIds(modules) <= states.Keys
  {
  }

  /** What the three parts of a pass make of the tracked ids T and the loaded ids K. */
  lemma PassIds(T: set<string>, K: set<string>, C: set<string>)
    requires T <= K
    ensures T * C + (C - (K - (T - C))) == C - (K - T)
    ensures K - (T - C) + C == C + (K - T)
    ensures C - (K - T) == C == C + (K - T) <==> K - T == {}
  {
  }

  lemma AppendedUpToDate(kept: seq<Module>, modules: seq<Module>, config: seq<ModuleConfig>)
    requires kept <= modules && AllUpToDate(kept, config) && DistinctConfigs(config) && DistinctIds(modules)
    requires forall i :: |kept| <= i < |modules| ==> modules[i].config in config
    ensures AllUpToDate(modules, config)
  {
    forall m, mc | m in modules && mc in config && mc.Id() == m.id ensures UpToDate(m.config, mc) {
      var i :| 0 <= i < |modules| && modules[i] == m;
      if i < |kept| {
        assert m == kept[i] && m in kept;
      } else {
        assert m.config in config && m.config.Id() == m.id;
        var j :| 0 <= j < |config| && config[j] == m.config;
        var k :| 0 <= k < |config| && config[k] == mc;
        assert j == k;
      }
    }
  }

  lemma MissingAlgebra(T: set<string>, K: set<string>, C: set<string>)
    ensures T <= K ==> T + (C - T - K) == T + (C - K)
    ensures T <= K ==> K + (C - T) == K + C
  {
  }

  lemma StillWanted(modules: seq<Module>, C: set<string>)
    ensures forall m :: m in modules ==> (m.id !in TrackedIds(modules) - C <==> m.id in C)
  {
  }

  lemma GrowIds(T: set<string>, K: set<string>, D: set<string>, id: string)
    ensures T + (D + {id} - K) == if id in K + D then T + (D - K) else T + (D - K) + {id}
    ensures K + (D + {id}) == K + D + {id}
  {
  }

  lemma ConfigIdsNext(config: seq<ModuleConfig>, i: nat)
    requires i < |config|
    ensures ConfigIds(config[..i + 1]) == ConfigIds(config[..i]) + {config[i].Id()}
  {
    assert config[..i + 1] == config[..i] + [config[i]];
  }

  lemma UnwantedIds(modules: seq<Module>, config: seq<ModuleConfig>, want: seq<ModuleConfig>)
    requires DistinctIds(modules)
    requires forall mc :: mc in want <==> exists m :: m in modules && m.id !in ConfigIds(config) && m.config == mc
    ensures ConfigIds(want) == TrackedIds(modules) - ConfigIds(config)
    ensures TrackedIds(modules) <= ConfigIds(config) ==> want == []
  {
    forall id | id in ConfigIds(want) ensures id in TrackedIds(modules) - ConfigIds(config) {
      var mc :| mc in want && mc.Id() == id;
      var m :| m in modules && m.id !in ConfigIds(config) && m.config == mc;
    }
    forall id | id in TrackedIds(modules) - ConfigIds(config) ensures id in ConfigIds(want) {
      var m :| m in modules && m.id == id;
      assert m.config in want;
    }
    if |want| > 0 {
      assert want[0] in want && want[0].Id() in ConfigIds(want);
    }
  }

  lemma TrackedIdsIndex(modules: seq<Module>, id: string)
    ensures id in TrackedIds(modules) <==> IndexOfId(modules, id) < |modules|
  {
    var i := IndexOfId(modules, id);
    if i < |modules| {
      assert modules[i] in modules;
    }
  }

  lemma SpliceDistinct(modules: seq<Module>, i: nat)
    requires DistinctIds(modules) && i < |modules|
    ensures DistinctIds(RemoveAt(modules, i))
    ensures forall m :: m in RemoveAt(modules, i) <==> m in modules && m.id != modules[i].id
  {
    RemoveAtDistinct(modules, i);
    forall m | m in modules && m.id == modules[i].id ensures m == modules[i] {
      var k :| 0 <= k < |modules| && modules[k] == m;
    }
  }

  lemma ReplacedIsDistinct(modules: seq<Module>, i: nat, mc: ModuleConfig)
    requires DistinctIds(modules) && i < |modules| && modules[i].id == mc.Id()
    ensures DistinctIds(modules[i := Module(mc.Id(), mc)])
  {
  }

  lemma ReconfiguredNext(modules: seq<Module>, mcs: seq<ModuleConfig>, i: nat)
    requires i < |mcs|
    ensures ReconfiguredAll(modules, mcs[..i + 1]) == Reconfigured(ReconfiguredAll(modules, mcs[..i]), mcs[i])
  {
    assert mcs[..i + 1][..i] == mcs[..i];
  }

  ghost predicate AllUpToDate(modules: seq<Module>, config: seq<ModuleConfig>) {
    forall m, mc :: m in modules && mc in config && mc.Id() == m.id ==> UpToDate(m.config, mc)
  }

  lemma SameIdsTracked(a: seq<Module>, b: seq<Module>)
    requires SameIds(a, b)
    ensures TrackedIds(a) == TrackedIds(b)
  {
    forall id | id in TrackedIds(a) ensures id in TrackedIds(b) {
      var i :| 0 <= i < |a| && a[i].id == id;
      assert b[i] in b;
    }
    forall id | id in TrackedIds(b) ensures id in TrackedIds(a) {
      var i :| 0 <= i < |b| && b[i].id == id;
      assert a[i] in a;
    }
  }

  lemma UpToDateWantsNothing(modules: seq<Module>, config: seq<ModuleConfig>)
    requires AllUpToDate(modules, config)
    ensures Select(config, modules, NewVersion) == [] && Select(config, modules, NewConfig) == []
  {
    forall mc | mc in config ensures !Wants(modules, mc, NewVersion) && !Wants(modules, mc, NewConfig) {
      var i := IndexOfId(modules, mc.Id());
      if i < |modules| {
        assert modules[i] in modules;
      }
    }
    SelectNothing(config, modules, NewVersion);
    SelectNothing(config, modules, NewConfig);
  }

  lemma {:induction false} SelectNothing(config: seq<ModuleConfig>, modules: seq<Module>, w: Want)
    requires forall mc :: mc in config ==> !Wants(modules, mc, w)
    ensures Select(config, modules, w) == []
  {
    if config != [] {
      SelectNothing(config[1..], modules, w);
    }
  }

  /** After both rounds each tracked module has the wanted version fields and last update. */
  lemma ReconfiguredUpToDate(modules: seq<Module>, config: seq<ModuleConfig>)
    requires DistinctIds(modules) && DistinctConfigs(config)
    ensures var r := ReconfiguredAll(ReconfiguredAll(modules, Select(config, modules, NewVersion)),
                                     Select(config, modules, NewConfig));
            AllUpToDate(r, config) && TrackedIds(r) == TrackedIds(modules)
  {
    var u, c := Select(config, modules, NewVersion), Select(config, modules, NewConfig);
    SelectDistinct(config, modules, NewVersion);
    SelectDistinct(config, modules, NewConfig);
    var q := ReconfiguredAll(modules, u);
    var r := ReconfiguredAll(q, c);
    ReconfiguredAllIs(modules, u);
    ReconfiguredAllIs(q, c);
    SameIdsTracked(r, modules);
    forall m, mc | m in r && mc in config && mc.Id() == m.id ensures UpToDate(m.config, mc) {
      var k :| 0 <= k < |r| && r[k] == m;
      assert IndexOfId(modules, mc.Id()) == k by {
        var i := IndexOfId(modules, mc.Id());
        assert modules[k].id == mc.Id();
      }
      OnlyConfigOfId(config, u, mc);
      OnlyConfigOfId(config, c, mc);
      if Wants(modules, mc, NewConfig) {
        assert mc in c;
      } else if Wants(modules, mc, NewVersion) {
        assert mc in u && mc !in c;
        assert m.id !in ConfigIds(c);
      } else {
        assert mc !in u && mc !in c;
        assert m.id !in ConfigIds(u) && m.id !in ConfigIds(c);
      }
    }
  }

  lemma OnlyConfigOfId(config: seq<ModuleConfig>, some: seq<ModuleConfig>, mc: ModuleConfig)
    requires DistinctConfigs(config) && mc in config && forall x :: x in some ==> x in config
    ensures mc !in some ==> mc.Id() !in ConfigIds(some)
  {
  }

  lemma {:induction false} SelectConcat(a: seq<ModuleConfig>, b: seq<ModuleConfig>, modules: seq<Module>, w: Want)
    ensures Select(a + b, modules, w) == Select(a, modules, w) + Select(b, modules, w)
  {
    if a == [] {
      assert a + b == b;
    } else {
      assert (a + b)[1..] == a[1..] + b;
      SelectConcat(a[1..], b, modules, w);
      ConcatAssoc(if Wants(modules, a[0], w) then [a[0]] else [], Select(a[1..], modules, w), Select(b, modules, w));
    }
  }

  lemma SelectNext(config: seq<ModuleConfig>, i: nat, modules: seq<Module>, w: Want)
    requires i < |config|
    ensures Select(config[..i + 1], modules, w) ==
            if Wants(modules, config[i], w) then Select(config[..i], modules, w) + [config[i]]
            else Select(config[..i], modules, w)
  {
    TakeNext(config, i);
    SelectConcat(config[..i], [config[i]], modules, w);
  }
}
