/** Saved-workflow slash commands: one process-level mount, adopted by fibers with the same scan, replaced on another. */
module WorkflowCommands {
  import opened Basics

  /** Who registered a command: one of this plugin's mounts, or somebody else. */
  datatype Owner = ByMount(mount: nat) | Foreign

  /** What a scan of the saved workflows found. */
  datatype Scan = Scan(fingerprint: string, names: seq<string>)

  /** A mount with the commands it holds disposers for, and the number of fibers that hold it. */
  datatype Mount = Mount(fingerprint: string, names: set<string>, holders: nat)

  /** A plugin fiber's claim on the mount it made or adopted; its disposer runs once. */
  datatype Fiber = Fiber(mount: nat, released: bool)

  datatype State = State(mounts: seq<Mount>, live: Option<nat>, registry: map<string, Owner>, fibers: seq<Fiber>)

  datatype Event = MountCommands(scan: Scan) | Release(fiber: nat) | ForeignRegister(name: string) | ForeignUnregister(name: string)

  // ---------------------------------------------------------------- the machine

  /** Register names one by one for a mount; a name that is taken is skipped. */
  function RegisterAll(registry: map<string, Owner>, names: seq<string>, m: nat): map<string, Owner> {
    if names == [] then registry
    else
      var before, last := RegisterAll(registry, names[..|names| - 1], m), names[|names| - 1];
      if last in before then before else before[last := ByMount(m)]
  }

  function OwnedBy(registry: map<string, Owner>, m: nat): set<string> { set n | n in registry && registry[n] == ByMount(m) }

  /** `disposeMount`. */
  function DisposeMount(s: State, m: nat): State
    requires m < |s.mounts|
  {
    s.(mounts := s.mounts[m := s.mounts[m].(names := {}, holders := 0)],
       registry := s.registry - s.mounts[m].names,
       live := if s.live == Some(m) then None else s.live)
  }

  /** `mountSavedWorkflowCommands` with the seam present. */
  function DoMount(s: State, scan: Scan): State
    requires s.live.Some? ==> s.live.value < |s.mounts|
  {
    if s.live.Some? && s.mounts[s.live.value].fingerprint == scan.fingerprint then
      var m := s.live.value;
      s.(mounts := s.mounts[m := s.mounts[m].(holders := s.mounts[m].holders + 1)], fibers := s.fibers + [Fiber(m, false)])
    else
      var cleared := if s.live.Some? then DisposeMount(s, s.live.value) else s;
      var m := |s.mounts|;
      var registry := RegisterAll(cleared.registry, scan.names, m);
      State(cleared.mounts + [Mount(scan.fingerprint, OwnedBy(registry, m), 1)], Some(m), registry, s.fibers + [Fiber(m, false)])
  }

  /** `releaseMount`, from a fiber's disposer. */
  function DoRelease(s: State, f: nat): State
    requires f < |s.fibers| && s.fibers[f].mount < |s.mounts|
  {
    var m := s.fibers[f].mount;
    var t := s.(fibers := s.fibers[f := s.fibers[f].(released := true)]);
    if s.mounts[m].holders == 0 then t
    else if s.mounts[m].holders == 1 then DisposeMount(t, m)
    else t.(mounts := t.mounts[m := t.mounts[m].(holders := t.mounts[m].holders - 1)])
  }

  ghost predicate Enabled(s: State, e: Event) {
    match e
    case Release(f) => f < |s.fibers| && !s.fibers[f].released
    case ForeignRegister(name) => name !in s.registry
    case ForeignUnregister(name) => name in s.registry && s.registry[name] == Foreign
    case MountCommands(_) => true
  }

  // ---------------------------------------------------------------- the invariant

  /** The fibers that hold a mount. */
  function Holders(fibers: seq<Fiber>, m: nat): nat {
    if fibers == [] then 0
    else Holders(fibers[..|fibers| - 1], m) + if fibers[|fibers| - 1] == Fiber(m, false) then 1 else 0
  }

  /** A mount that is not live is empty, for good; the live one counts exactly its fibers. */
  predicate MountOk(s: State, m: nat)
    requires m < |s.mounts|
  {
    && s.mounts[m].names == OwnedBy(s.registry, m)
    && (s.live != Some(m) ==> s.mounts[m].names == {} && s.mounts[m].holders == 0)
    && (s.live == Some(m) ==> s.mounts[m].holders == Holders(s.fibers, m) > 0)
  }

  ghost predicate Inv(s: State) {
    && (s.live.Some? ==> s.live.value < |s.mounts|)
    && (forall m :: 0 <= m < |s.mounts| ==> MountOk(s, m))
    && (forall f :: 0 <= f < |s.fibers| ==> s.fibers[f].mount < |s.mounts|)
    && (forall n :: n in s.registry && s.registry[n].ByMount? ==> s.registry[n].mount < |s.mounts|)
  }

  function Next(s: State, e: Event): State
    requires Inv(s) && Enabled(s, e)
  {
    match e
    case MountCommands(scan) => DoMount(s, scan)
    case Release(f) => DoRelease(s, f)
    case ForeignRegister(name) => s.(registry := s.registry[name := Foreign])
    case ForeignUnregister(name) => s.(registry := s.registry - {name})
  }

  lemma {:induction false} HoldersGrow(fibers: seq<Fiber>, m: nat, k: nat)
    ensures Holders(fibers + [Fiber(k, false)], m) == Holders(fibers, m) + if k == m then 1 else 0
  {
    assert (fibers + [Fiber(k, false)])[..|fibers|] == fibers;
  }

  lemma {:induction false} HoldersShrink(fibers: seq<Fiber>, f: nat, m: nat)
    requires f < |fibers| && !fibers[f].released
    ensures Holders(fibers, m) == Holders(fibers[f := fibers[f].(released := true)], m) + if fibers[f].mount == m then 1 else 0
  {
    var after := fibers[f := fibers[f].(released := true)];
    var last := |fibers| - 1;
    if f == last {
      assert after[..last] == fibers[..last];
    } else {
      HoldersShrink(fibers[..last], f, m);
      assert after[..last] == fibers[..last][f := fibers[f].(released := true)];
    }
  }

  lemma {:induction false} NoHolders(fibers: seq<Fiber>, m: nat)
    requires forall f :: 0 <= f < |fibers| ==> fibers[f].mount < m
    ensures Holders(fibers, m) == 0
  {
    if fibers == [] {
    } else {
      NoHolders(fibers[..|fibers| - 1], m);
    }
  }

  lemma {:induction false} RegisterAllOwners(registry: map<string, Owner>, names: seq<string>, m: nat)
    ensures forall n :: n in registry ==> n in RegisterAll(registry, names, m) && RegisterAll(registry, names, m)[n] == registry[n]
    ensures forall n :: n in RegisterAll(registry, names, m) && n !in registry ==> RegisterAll(registry, names, m)[n] == ByMount(m)
    ensures forall n :: n in names ==> n in RegisterAll(registry, names, m)
  {
    if names == [] {
    } else {
      var last := |names| - 1;
      RegisterAllOwners(registry, names[..last], m);
      assert names == names[..last] + [names[last]];
    }
  }

  /** Disposing the live mount takes away its commands and nobody else's. */
  lemma DisposeLive(s: State)
    requires Inv(s) && s.live.Some?
    ensures var t := DisposeMount(s, s.live.value);
      && t.live.None? && (forall n :: n in t.registry <==> n in s.registry && s.registry[n] == Foreign)
      && (forall n :: n in t.registry ==> t.registry[n] == Foreign)
      && (forall m :: 0 <= m < |t.mounts| ==> t.mounts[m].names == {} && t.mounts[m].holders == 0)
      && |t.mounts| == |s.mounts| && t.fibers == s.fibers
  {
    var k := s.live.value;
    var t := DisposeMount(s, k);
    assert MountOk(s, k);
    forall n ensures n in t.registry <==> n in s.registry && s.registry[n] == Foreign {
      if n in s.registry && s.registry[n].ByMount? {
        assert MountOk(s, s.registry[n].mount);
        assert n in OwnedBy(s.registry, s.registry[n].mount);
      }
    }
    forall m | 0 <= m < |t.mounts| ensures t.mounts[m].names == {} && t.mounts[m].holders == 0 { assert MountOk(s, m); }
  }

  lemma NothingLive(s: State)
    requires Inv(s) && s.live.None?
    ensures forall n :: n in s.registry ==> s.registry[n] == Foreign
    ensures forall m :: 0 <= m < |s.mounts| ==> s.mounts[m].names == {} && s.mounts[m].holders == 0
  {
    forall n | n in s.registry ensures s.registry[n] == Foreign {
      assert s.registry[n].ByMount? ==> MountOk(s, s.registry[n].mount);
      assert s.registry[n].ByMount? ==> n in OwnedBy(s.registry, s.registry[n].mount);
    }
    forall m | 0 <= m < |s.mounts| ensures s.mounts[m].names == {} && s.mounts[m].holders == 0 { assert MountOk(s, m); }
  }

  lemma AdoptKeepsInv(s: State, scan: Scan)
    requires Inv(s) && s.live.Some? && s.mounts[s.live.value].fingerprint == scan.fingerprint
    ensures Inv(DoMount(s, scan))
  {
    var t, k := DoMount(s, scan), s.live.value;
    forall m | 0 <= m < |t.mounts| ensures MountOk(t, m) {
      assert MountOk(s, m);
      HoldersGrow(s.fibers, m, k);
    }
  }

  lemma RemountKeepsInv(s: State, scan: Scan)
    requires Inv(s) && !(s.live.Some? && s.mounts[s.live.value].fingerprint == scan.fingerprint)
    ensures Inv(DoMount(s, scan))
  {
    if s.live.Some? { DisposeLive(s); } else { NothingLive(s); }
    FreshMountKeepsInv(s, if s.live.Some? then DisposeMount(s, s.live.value) else s, scan);
  }

  lemma FreshMountKeepsInv(s: State, cleared: State, scan: Scan)
    requires Inv(s) && |cleared.mounts| == |s.mounts| && forall n :: n in cleared.registry ==> cleared.registry[n] == Foreign
    requires forall m :: 0 <= m < |cleared.mounts| ==> cleared.mounts[m].names == {} && cleared.mounts[m].holders == 0
    ensures var m := |s.mounts|;
      var registry := RegisterAll(cleared.registry, scan.names, m);
      Inv(State(cleared.mounts + [Mount(scan.fingerprint, OwnedBy(registry, m), 1)], Some(m), registry, s.fibers + [Fiber(m, false)]))
  {
    hide RegisterAll;
    var k := |s.mounts|;
    var registry := RegisterAll(cleared.registry, scan.names, k);
    RegisterAllOwners(cleared.registry, scan.names, k);
    var t := State(cleared.mounts + [Mount(scan.fingerprint, OwnedBy(registry, k), 1)], Some(k), registry, s.fibers + [Fiber(k, false)]);
    NoHolders(s.fibers, k);
    forall m | 0 <= m < |t.mounts| ensures MountOk(t, m) {
      HoldersGrow(s.fibers, m, k);
      if m < k { assert OwnedBy(registry, m) == {}; }
    }
  }

  lemma ReleaseKeepsInv(s: State, f: nat)
    requires Inv(s) && Enabled(s, Release(f))
    ensures Inv(DoRelease(s, f))
  {
    var t, k := DoRelease(s, f), s.fibers[f].mount;
    assert MountOk(s, k);
    if s.mounts[k].holders == 1 {
      LastReleaseKeepsInv(s, f);
    } else {
      forall m | 0 <= m < |t.mounts| ensures MountOk(t, m) {
        assert MountOk(s, m);
        HoldersShrink(s.fibers, f, m);
      }
    }
  }

  lemma LastReleaseKeepsInv(s: State, f: nat)
    requires Inv(s) && Enabled(s, Release(f)) && s.mounts[s.fibers[f].mount].holders == 1
    ensures Inv(DoRelease(s, f))
  {
    var t, k := DoRelease(s, f), s.fibers[f].mount;
    assert MountOk(s, k);
    assert s.live == Some(k);
    DisposeLive(s);
    assert t == DisposeMount(s, k).(fibers := t.fibers);
    forall m | 0 <= m < |t.mounts| ensures MountOk(t, m) {
      assert t.mounts[m].names == {};
      assert OwnedBy(t.registry, m) == {};
    }
  }

  lemma ForeignKeepsInv(s: State, e: Event)
    requires Inv(s) && Enabled(s, e) && (e.ForeignRegister? || e.ForeignUnregister?)
    ensures Inv(Next(s, e))
  {
    var t := Next(s, e);
    forall m | 0 <= m < |t.mounts| ensures MountOk(t, m) {
      assert MountOk(s, m);
      assert OwnedBy(t.registry, m) == OwnedBy(s.registry, m);
    }
  }

  lemma StepKeepsInv(s: State, e: Event)
    requires Inv(s) && Enabled(s, e)
    ensures Inv(Next(s, e))
  {
    hide Inv, DoMount, DoRelease;
    LiveIsMount(s);
    match e
    case MountCommands(scan) =>
      if s.live.Some? && s.mounts[s.live.value].fingerprint == scan.fingerprint { AdoptKeepsInv(s, scan); }
      else { RemountKeepsInv(s, scan); }
    case Release(f) => ReleaseKeepsInv(s, f);
    case ForeignRegister(_) => ForeignKeepsInv(s, e);
    case ForeignUnregister(_) => ForeignKeepsInv(s, e);
  }

  // ---------------------------------------------------------------- runs

  const EMPTY := State([], None, map[], [])

  /** A step; `RunKeepsInv` shows that the invariant it is defined under always holds. */
  ghost predicate Step(s: State, e: Event, t: State) { Inv(s) ==> Enabled(s, e) && t == Next(s, e) }

  ghost predicate IsRun(states: seq<State>, events: seq<Event>) {
    && |states| == |events| + 1 && states[0] == EMPTY
    && forall i :: 0 <= i < |events| ==> Step(states[i], events[i], states[i + 1])
  }

  lemma {:induction false} RunKeepsInv(states: seq<State>, events: seq<Event>, n: nat)
    requires IsRun(states, events) && n <= |events|
    ensures Inv(states[n])
    decreases n
  {
    hide Next, Enabled, MountOk;
    if n == 0 {
    } else {
      RunKeepsInv(states, events, n - 1);
      assert Step(states[n - 1], events[n - 1], states[n]);
      StepKeepsInv(states[n - 1], events[n - 1]);
    }
  }

  /**
   * At every point of a run, the commands this plugin has registered are those of the live mount alone, and there is a
   * live mount exactly as long as some fiber still holds it.
   */
  lemma CommandsBelongToLiveMount(states: seq<State>, events: seq<Event>, n: nat, name: string)
    requires IsRun(states, events) && n <= |events|
    requires name in states[n].registry && states[n].registry[name].ByMount?
    ensures states[n].live == Some(states[n].registry[name].mount)
    ensures var m := states[n].registry[name].mount;
      m < |states[n].mounts| && name in states[n].mounts[m].names && Holders(states[n].fibers, m) > 0
  {
    hide Holders;
    RunKeepsInv(states, events, n);
    var s := states[n];
    var m := s.registry[name].mount;
    assert MountOk(s, m);
    assert name in OwnedBy(s.registry, m);
  }

  /** With every fiber torn down, no command of this plugin is left behind. */
  lemma {:induction false} NothingLeftBehind(states: seq<State>, events: seq<Event>, n: nat)
    requires IsRun(states, events) && n <= |events|
    requires forall f :: 0 <= f < |states[n].fibers| ==> states[n].fibers[f].released
    ensures forall name :: name in states[n].registry ==> states[n].registry[name] == Foreign
  {
    hide Holders;
    forall name | name in states[n].registry ensures states[n].registry[name] == Foreign {
      if states[n].registry[name].ByMount? {
        CommandsBelongToLiveMount(states, events, n, name);
        AllReleased(states[n].fibers, states[n].registry[name].mount);
        assert false;
      }
    }
  }

  lemma {:induction false} AllReleased(fibers: seq<Fiber>, m: nat)
    requires forall f :: 0 <= f < |fibers| ==> fibers[f].released
    ensures Holders(fibers, m) == 0
  {
    if fibers == [] {
    } else {
      AllReleased(fibers[..|fibers| - 1], m);
    }
  }

  /**
   * The count starts afresh with a remount: a fiber whose mount was replaced is not counted in the new one, so the
   * commands go away with the remounting fiber although the older fiber lives on.
   */
  lemma OlderFiberLosesCommands(s: State, older: nat, scan: Scan)
    requires Inv(s) && older < |s.fibers| && !s.fibers[older].released
    requires !(s.live.Some? && s.mounts[s.live.value].fingerprint == scan.fingerprint)
    ensures var remounted := DoMount(s, scan);
      && Inv(remounted) && Enabled(remounted, Release(|s.fibers|))
      && var after := DoRelease(remounted, |s.fibers|);
         && !after.fibers[older].released && after.live.None?
         && forall name :: name in after.registry ==> after.registry[name] == Foreign
  {
    hide RegisterAll, OwnedBy, MountOk, Holders;
    RemountKeepsInv(s, scan);
    var remounted := DoMount(s, scan);
    DisposeLive(remounted);
  }

  /** Some fiber still holds a mount. */
  ghost predicate HeldBySome(fibers: seq<Fiber>, m: nat) { exists f :: 0 <= f < |fibers| && fibers[f] == Fiber(m, false) }

  lemma {:induction false} HoldersAreSome(fibers: seq<Fiber>, m: nat)
    ensures Holders(fibers, m) > 0 <==> HeldBySome(fibers, m)
  {
    if fibers == [] {
    } else {
      var before := fibers[..|fibers| - 1];
      HoldersAreSome(before, m);
      if f :| 0 <= f < |before| && before[f] == Fiber(m, false) { assert fibers[f] == Fiber(m, false); }
      if f :| 0 <= f < |fibers| && fibers[f] == Fiber(m, false) { if f < |before| { assert before[f] == Fiber(m, false); } }
    }
  }

  /** The live mount is the newest one, and that one is live as long as it is held. */
  predicate NewestLives(s: State) {
    && (s.live.Some? ==> s.live.value == |s.mounts| - 1)
    && (s.mounts != [] && Holders(s.fibers, |s.mounts| - 1) > 0 ==> s.live.Some?)
  }

  lemma StepKeepsNewest(s: State, e: Event)
    requires Inv(s) && Enabled(s, e) && NewestLives(s)
    ensures NewestLives(Next(s, e))
  {
    hide Holders, OwnedBy, RegisterAll;
    match e
    case Release(f) =>
      var newest := |s.mounts| - 1;
      HoldersShrink(s.fibers, f, newest);
      assert MountOk(s, s.fibers[f].mount);
    case _ =>
  }

  lemma {:induction false} RunKeepsNewest(states: seq<State>, events: seq<Event>, n: nat)
    requires IsRun(states, events) && n <= |events|
    ensures NewestLives(states[n])
    decreases n
  {
    hide Next, Enabled, Inv;
    if n == 0 {
    } else {
      RunKeepsInv(states, events, n - 1);
      RunKeepsNewest(states, events, n - 1);
      assert Step(states[n - 1], events[n - 1], states[n]);
      StepKeepsNewest(states[n - 1], events[n - 1]);
    }
  }

  /**
   * Exactly when the commands live on: at every point of a run a mount is live, and then it is the newest one, if and only
   * if some fiber of the newest mount has not been torn down. Fibers of older mounts do not keep anything alive.
   */
  lemma LiveWhileNewestIsHeld(states: seq<State>, events: seq<Event>, n: nat)
    requires IsRun(states, events) && n <= |events|
    ensures var s := states[n];
      && (s.live.Some? ==> s.live == Some(|s.mounts| - 1))
      && (s.live.Some? <==> s.mounts != [] && HeldBySome(s.fibers, |s.mounts| - 1))
  {
    hide Holders, HeldBySome;
    RunKeepsInv(states, events, n);
    RunKeepsNewest(states, events, n);
    var s := states[n];
    if s.mounts != [] { HoldersAreSome(s.fibers, |s.mounts| - 1); }
    if s.live.Some? { assert MountOk(s, s.live.value); }
  }

  /**
   * So the commands are gone although a fiber lives on exactly if every living fiber holds an older mount than the newest.
   */
  lemma GoneUnderALivingFiber(states: seq<State>, events: seq<Event>, n: nat, f: nat)
    requires IsRun(states, events) && n <= |events| && f < |states[n].fibers| && !states[n].fibers[f].released
    ensures var s := states[n];
      s.live.None? <==> forall g :: 0 <= g < |s.fibers| && !s.fibers[g].released ==> s.fibers[g].mount < |s.mounts| - 1
  {
    RunKeepsInv(states, events, n);
    LiveWhileNewestIsHeld(states, events, n);
    var s := states[n];
    assert s.fibers[f].mount < |s.mounts|;
    if s.live.None? {
      forall g | 0 <= g < |s.fibers| && !s.fibers[g].released ensures s.fibers[g].mount < |s.mounts| - 1 {
        assert s.fibers[g].mount < |s.mounts|;
        assert s.fibers[g] != Fiber(|s.mounts| - 1, false);
      }
    }
  }

  // ---------------------------------------------------------------- the object

  /** The process-level mounts of one commands seam. */
  class ProcessMounts {
    var mounts: seq<Mount>
    var live: Option<nat>
    var registry: map<string, Owner>
    var fibers: seq<Fiber>

    constructor ()
      ensures View() == EMPTY
    {
      mounts, live, registry, fibers := [], None, map[], [];
    }

    function View(): State
      reads this
    {
      State(mounts, live, registry, fibers)
    }

    method Dispose(m: nat)
      requires m < |mounts|
      modifies this
      ensures View() == DisposeMount(old(View()), m)
    {
      var names := mounts[m].names;
      mounts := mounts[m := mounts[m].(names := {}, holders := 0)];
      var rest := names;
      while rest != {}
        invariant rest <= names && mounts == old(mounts)[m := old(mounts)[m].(names := {}, holders := 0)]
        invariant live == old(live) && fibers == old(fibers) && registry == old(registry) - (names - rest)
        decreases rest
      {
        var name :| name in rest;
        registry := registry - {name};
        rest := rest - {name};
        assert names - rest == (names - (rest + {name})) + {name};
      }
      if live == Some(m) { live := None; }
    }

    /** `mountSavedWorkflowCommands`; the disposer handed out is `ReleaseFiber` of the returned number. */
    method MountSaved(scan: Scan) returns (fiber: nat)
      requires Inv(View())
      modifies this
      ensures View() == Next(old(View()), MountCommands(scan)) && Inv(View()) && fiber == |old(fibers)|
    {
      hide Inv, MountOk, OwnedBy;
      StepKeepsInv(View(), MountCommands(scan));
      LiveIsMount(View());
      fiber := |fibers|;
      if live.Some? && mounts[live.value].fingerprint == scan.fingerprint {
        var m := live.value;
        mounts := mounts[m := mounts[m].(holders := mounts[m].holders + 1)];
        fibers := fibers + [Fiber(m, false)];
        return;
      }
      if live.Some? { Dispose(live.value); }
      var m := |mounts|;
      ghost var cleared := View();
      for i := 0 to |scan.names|
        invariant View() == cleared.(registry := RegisterAll(cleared.registry, scan.names[..i], m))
      {
        assert scan.names[..i + 1][..i] == scan.names[..i];
        if scan.names[i] !in registry { registry := registry[scan.names[i] := ByMount(m)]; }
      }
      assert scan.names[..|scan.names|] == scan.names;
      mounts := mounts + [Mount(scan.fingerprint, OwnedBy(registry, m), 1)];
      live := Some(m);
      fibers := fibers + [Fiber(m, false)];
    }

    /** A fiber's disposer: the last holder out unregisters the mount; a replaced mount is left alone. */
    method ReleaseFiber(f: nat)
      requires Inv(View()) && Enabled(View(), Release(f))
      modifies this
      ensures View() == Next(old(View()), Release(f)) && Inv(View())
    {
      hide Inv, MountOk, OwnedBy;
      StepKeepsInv(View(), Release(f));
      FiberHasMount(View(), f);
      var m := fibers[f].mount;
      fibers := fibers[f := fibers[f].(released := true)];
      if mounts[m].holders == 0 { return; }
      if mounts[m].holders == 1 {
        Dispose(m);
      } else {
        mounts := mounts[m := mounts[m].(holders := mounts[m].holders - 1)];
      }
    }
  }

  lemma LiveIsMount(s: State)
    requires Inv(s)
    ensures s.live.Some? ==> s.live.value < |s.mounts|
  {
  }

  lemma FiberHasMount(s: State, f: nat)
    requires Inv(s) && f < |s.fibers|
    ensures s.fibers[f].mount < |s.mounts|
  {
  }
}
