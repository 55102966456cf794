/** The exception-safe window that switches a state of every module and restores it.

    Setters may raise at any call and then leave their module unchanged; the registry tracks
    what they have set, since the state cannot be read back. */
module ScoringWindow {
  import opened Outcome

  class Module {
    var actual: bool

    constructor (value: bool)
      ensures actual == value
    {
      actual := value;
    }
  }

  ghost predicate Distinct(modules: seq<Module>) {
    forall i, j | 0 <= i < j < |modules| :: modules[i] != modules[j]
  }

  /** `fails` decides which setter calls raise, in the order in which they are made. */
  class Registry {
    const fails: nat -> bool
    var attempts: nat
    var states: map<Module, bool>

    constructor (fails: nat -> bool)
      ensures states == map[] && this.fails == fails && attempts == 0
    {
      this.fails, states, attempts := fails, map[], 0;
    }

    /** The registry tells the real state of each of the modules. */
    ghost predicate Accurate(modules: seq<Module>)
      reads this, modules
    {
      forall i | 0 <= i < |modules| :: modules[i] in states && states[modules[i]] == modules[i].actual
    }

    method SetModule(m: Module, value: bool) returns (ok: bool)
      modifies this`attempts, this`states, m
      ensures if ok then m.actual == value && states == old(states)[m := value]
              else m.actual == old(m.actual) && states == old(states)
    {
      ok := !fails(attempts);
      attempts := attempts + 1;
      if ok {
        m.actual := value;
        states := states[m := value];
      }
    }

    /** Restore each module, last one first, going on after failures. */
    method Restore(modules: seq<Module>, values: seq<bool>) returns (failed: seq<nat>)
      requires |values| == |modules| && Distinct(modules) && Accurate(modules)
      modifies this`attempts, this`states, modules
      ensures Accurate(modules) && forall i | i in failed :: i < |modules|
      ensures forall i | 0 <= i < |modules| ::
        modules[i].actual == if i in failed then old(modules[i].actual) else values[i]
      ensures forall m | m !in modules :: m in states <==> m in old(states)
      ensures forall m | m !in modules && m in states :: states[m] == old(states)[m]
    {
      failed := [];
      var k: nat := |modules|;
      while k > 0
        invariant k <= |modules| && Accurate(modules) && forall i | i in failed :: k <= i < |modules|
        invariant forall i | k <= i < |modules| ::
          modules[i].actual == if i in failed then old(modules[i].actual) else values[i]
        invariant forall i | 0 <= i < k :: modules[i].actual == old(modules[i].actual)
        invariant forall m | m !in modules :: m in states <==> m in old(states)
        invariant forall m | m !in modules && m in states :: states[m] == old(states)[m]
      {
        k := k - 1;
        var ok := SetModule(modules[k], values[k]);
        if !ok { failed := failed + [k]; }
      }
    }

    /** Restore the first `changed` modules and leave the others alone. */
    method Rollback(modules: seq<Module>, changed: nat, previous: seq<bool>) returns (failed: seq<nat>)
      requires Distinct(modules) && Accurate(modules) && changed == |previous| <= |modules|
      modifies this`attempts, this`states, modules
      ensures Accurate(modules) && forall i | i in failed :: i < changed
      ensures forall i | 0 <= i < |modules| ::
        modules[i].actual == if i < changed && i !in failed then previous[i] else old(modules[i].actual)
      ensures forall m | m !in modules :: m in states <==> m in old(states)
      ensures forall m | m !in modules && m in states :: states[m] == old(states)[m]
    {
      var first := modules[..changed];
      assert forall i | 0 <= i < changed :: first[i] == modules[i] && first[i] in first;
      assert forall i | changed <= i < |modules| :: modules[i] !in first;
      failed := Restore(first, previous);
      forall i | 0 <= i < changed
        ensures modules[i].actual == if i in failed then old(modules[i].actual) else previous[i]
      {
        assert first[i] == modules[i];
      }
    }

    /** Set every module, or roll back those already set. */
    method Configure(modules: seq<Module>, value: bool) returns (r: Configured)
      requires Distinct(modules) && Accurate(modules)
      modifies this`attempts, this`states, modules
      ensures Accurate(modules)
      ensures r == Done ==> forall i | 0 <= i < |modules| :: modules[i].actual == value
      ensures r == RolledBack ==> forall i | 0 <= i < |modules| :: modules[i].actual == old(modules[i].actual)
      ensures r.Stuck? ==> forall i | 0 <= i < |modules| ::
        modules[i].actual == if i in r.failed then value else old(modules[i].actual)
      ensures r.Stuck? ==> r.failed != []
      ensures forall m | m !in modules :: m in states <==> m in old(states)
      ensures forall m | m !in modules && m in states :: states[m] == old(states)[m]
    {
      var changed := 0;
      var previous: seq<bool> := [];
      while changed < |modules|
        invariant changed == |previous| <= |modules| && Accurate(modules)
        invariant forall i | 0 <= i < changed :: modules[i].actual == value && previous[i] == old(modules[i].actual)
        invariant forall i | changed <= i < |modules| :: modules[i].actual == old(modules[i].actual)
        invariant forall m | m !in modules :: m in states <==> m in old(states)
        invariant forall m | m !in modules && m in states :: states[m] == old(states)[m]
      {
        var before := states[modules[changed]];
        var ok := SetModule(modules[changed], value);
        if !ok {
          var failed := Rollback(modules, changed, previous);
          return if failed == [] then RolledBack else Stuck(failed);
        }
        previous, changed := previous + [before], changed + 1;
      }
      return Done;
    }
  }

  /** `Stuck` lists the positions whose roll-back failed as well. */
  datatype Configured = Done | RolledBack | Stuck(failed: seq<nat>)

  /** How opening a window ends: with the states to restore, or refused with the reason. */
  datatype Entered = Opened(before: seq<bool>) | NoModules | Unregistered | NotConfigured(how: Configured)

  /** How a window ends.  `after` is the registry's account once restoring has gone through. */
  datatype Exited = Exited(after: Option<seq<bool>>, restored: bool, raised: Raised)

  datatype Raised = Nothing | BodyError | RestoreError

  ghost predicate Holds(modules: seq<Module>, values: seq<bool>)
    reads modules
  {
    |values| == |modules| && forall i | 0 <= i < |modules| :: modules[i].actual == values[i]
  }

  /** Snapshot and configure.  A model without such modules, or a module of unknown state,
      refuses the window before anything is set; a failing setter rolls back what was set. */
  method Enter(registry: Registry, modules: seq<Module>, value: bool) returns (r: Entered)
    requires Distinct(modules)
    requires forall m | m in modules && m in registry.states :: registry.states[m] == m.actual
    modifies registry`attempts, registry`states, modules
    ensures r == NoModules <==> modules == []
    ensures r == Unregistered <==> exists m :: m in modules && m !in old(registry.states)
    ensures r == Unregistered || r == NoModules ==> registry.states == old(registry.states)
    ensures r != Unregistered ==> registry.Accurate(modules)
    ensures r.Opened? ==> old(Holds(modules, r.before)) && Holds(modules, seq(|modules|, _ => value))
    ensures r == Unregistered || (r.NotConfigured? && r.how == RolledBack) ==>
      forall i | 0 <= i < |modules| :: modules[i].actual == old(modules[i].actual)
    ensures r.NotConfigured? ==> r.how != Done
  {
    if modules == [] { return NoModules; }
    if exists m :: m in modules && m !in registry.states { return Unregistered; }
    assert forall i | 0 <= i < |modules| :: modules[i] in modules;
    var before := seq(|modules|, i requires 0 <= i < |modules| && modules[i] in registry.states
                                   reads registry => registry.states[modules[i]]);
    var how := registry.Configure(modules, value);
    if how != Done { return NotConfigured(how); }
    return Opened(before);
  }

  /** Restore on the way out, whether the body returned or raised; synchronising and the
      memory reading may raise after that.  Every module whose restoring setter succeeded has
      its old value; once restoring went through, the final comparison cannot fail. */
  method Exit(
      registry: Registry, modules: seq<Module>, before: seq<bool>, bodyRaised: bool, syncRaises: bool,
      memoryRaises: bool)
    returns (r: Exited, failed: seq<nat>)
    requires Distinct(modules) && registry.Accurate(modules) && |before| == |modules|
    modifies registry`attempts, registry`states, modules
    ensures registry.Accurate(modules)
    ensures forall i | 0 <= i < |modules| ::
      modules[i].actual == if i in failed then old(modules[i].actual) else before[i]
    ensures r.restored <==> failed == [] && !syncRaises && !memoryRaises
    ensures r.after == if failed == [] && !syncRaises then Some(before) else None
    ensures r.raised == if !r.restored then RestoreError else if bodyRaised then BodyError else Nothing
  {
    failed := registry.Restore(modules, before);
    if failed != [] || syncRaises { return Exited(None, false, RestoreError), failed; }
    var after := seq(|modules|, i requires 0 <= i < |modules| && modules[i] in registry.states
                                  reads registry => registry.states[modules[i]]);
    assert after == before;
    if after != before || memoryRaises { return Exited(Some(after), false, RestoreError), failed; }
    return Exited(Some(after), true, if bodyRaised then BodyError else Nothing), failed;
  }

  /** A window to open inside the ones before it, and what raises in it: its own body after
      the windows inside, synchronising, or the memory reading. */
  datatype Window = Window(value: bool, bodyRaises: bool, syncRaises: bool, memoryRaises: bool)

  /** Nested windows restore like a stack: whenever the restoring setters of the outermost
      one succeed the states are the old ones, whatever raised or failed in the windows
      inside, in the bodies, or after restoring; and when nothing is raised they did succeed. */
  method Nested(registry: Registry, modules: seq<Module>, windows: seq<Window>) returns (restored: bool, raised: bool)
    requires Distinct(modules) && registry.Accurate(modules)
    modifies registry`attempts, registry`states, modules
    ensures registry.Accurate(modules)
    ensures restored ==> forall i | 0 <= i < |modules| :: modules[i].actual == old(modules[i].actual)
    ensures !raised ==> restored
    decreases |windows|
  {
    if windows == [] { return true, false; }
    assert forall m | m in modules :: m in registry.states && registry.states[m] == m.actual;
    var entered := Enter(registry, modules, windows[0].value);
    if !entered.Opened? {
      return entered.NoModules? || (entered.NotConfigured? && entered.how == RolledBack), true;
    }
    var innerRestored, innerRaised := Nested(registry, modules, windows[1..]);
    var exited, failed := Exit(registry, modules, entered.before, innerRaised || windows[0].bodyRaises,
                               windows[0].syncRaises, windows[0].memoryRaises);
    return failed == [], exited.raised != Nothing;
  }
}
