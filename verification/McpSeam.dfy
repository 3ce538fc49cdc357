/** The plugin MCP seam: same-name servers attach one behind the other's release, and can be cancelled before their turn. */
module McpSeam {
  import opened Basics

  /** Where a deferred attach waits: a promise and the place of its reaction. */
  datatype Wait = Wait(promise: nat, reaction: nat)

  /** An accepted registration. Disposed before it has a fiber, it is cancelled. */
  datatype Registration = Registration(name: string, wait: Option<Wait>, fiber: Option<nat>, disposed: bool)

  datatype Fiber = Fiber(owner: nat, live: bool)

  /** A continuation on a promise: forget the ledger entry, or carry out a deferred attach. */
  datatype Reaction = Forget | Attach(registration: nat)

  /** A release promise; its first `done` reactions have run. */
  datatype Promise = Promise(name: string, settled: bool, reactions: seq<Reaction>, done: nat)

  datatype Seam = Seam(registrations: seq<Registration>, fibers: seq<Fiber>, promises: seq<Promise>, ledger: map<string, nat>)

  datatype Event = Register(name: string) | Dispose(r: nat) | Settle(p: nat) | React(p: nat)

  // ---------------------------------------------------------------- the machine

  /** `release`: a new pending promise under a name, whose first reaction will forget it. */
  function Release(s: Seam, name: string): Seam {
    s.(promises := s.promises + [Promise(name, false, [Forget], 0)], ledger := s.ledger[name := |s.promises|])
  }

  /** `attach`: mount a fiber and note its activation. */
  function AttachNow(s: Seam, r: nat): Seam
    requires r < |s.registrations|
  {
    var reg := s.registrations[r];
    Release(s.(fibers := s.fibers + [Fiber(r, true)], registrations := s.registrations[r := reg.(fiber := Some(|s.fibers|))]),
            reg.name)
  }

  /** The disposer that `attach` returns: dispose the fiber and note its teardown. */
  function DisposeFiber(s: Seam, f: nat): Seam
    requires f < |s.fibers| && s.fibers[f].owner < |s.registrations|
  {
    Release(s.(fibers := s.fibers[f := s.fibers[f].(live := false)]), s.registrations[s.fibers[f].owner].name)
  }

  /** `registerServer` of a config that the policy and the registry check let through. */
  function DoRegister(s: Seam, name: string): Seam
    requires name in s.ledger ==> s.ledger[name] < |s.promises|
  {
    var r := |s.registrations|;
    if name !in s.ledger then AttachNow(s.(registrations := s.registrations + [Registration(name, None, None, false)]), r)
    else
      var p := s.ledger[name];
      var wait := Wait(p, |s.promises[p].reactions|);
      s.(registrations := s.registrations + [Registration(name, Some(wait), None, false)],
         promises := s.promises[p := s.promises[p].(reactions := s.promises[p].reactions + [Attach(r)])])
  }

  /** The disposer handed to the caller, called once. */
  function DoDispose(s: Seam, r: nat): Seam
    requires r < |s.registrations|
    requires s.registrations[r].fiber.Some? ==> s.registrations[r].fiber.value < |s.fibers|
    requires s.registrations[r].fiber.Some? ==> s.fibers[s.registrations[r].fiber.value].owner < |s.registrations|
  {
    var reg := s.registrations[r];
    var marked := s.(registrations := s.registrations[r := reg.(disposed := true)]);
    if reg.fiber.Some? then DisposeFiber(marked, reg.fiber.value) else marked
  }

  /** The next reaction of a settled promise. */
  function DoReact(s: Seam, p: nat): Seam
    requires p < |s.promises| && s.promises[p].done < |s.promises[p].reactions|
    requires var a := s.promises[p].reactions[s.promises[p].done]; a.Attach? ==> a.registration < |s.registrations|
  {
    var promise := s.promises[p];
    var t := s.(promises := s.promises[p := promise.(done := promise.done + 1)]);
    match promise.reactions[promise.done]
    case Forget => if promise.name in t.ledger && t.ledger[promise.name] == p then t.(ledger := t.ledger - {promise.name}) else t
    case Attach(r) =>
      var attached := AttachNow(t, r);
      if s.registrations[r].disposed then DisposeFiber(attached, |s.fibers|) else attached
  }

  ghost predicate Enabled(s: Seam, e: Event) {
    match e
    case Register(_) => true
    case Dispose(r) => r < |s.registrations| && !s.registrations[r].disposed
    case Settle(p) => p < |s.promises| && !s.promises[p].settled
    case React(p) => p < |s.promises| && s.promises[p].settled && s.promises[p].done < |s.promises[p].reactions|
  }

  // ---------------------------------------------------------------- the invariant

  /** A ledger entry names a promise of that name that has not yet forgotten it. */
  predicate LedgerEntry(s: Seam, name: string) {
    name in s.ledger ==>
      s.ledger[name] < |s.promises| && s.promises[s.ledger[name]].name == name && s.promises[s.ledger[name]].done == 0
  }

  /** A registration and its fiber point at each other, and the fiber lives until the registration is disposed. */
  predicate RegistrationOk(s: Seam, r: nat)
    requires r < |s.registrations|
  {
    var reg := s.registrations[r];
    match reg.fiber
    case Some(f) => f < |s.fibers| && s.fibers[f] == Fiber(r, !reg.disposed)
    case None =>
      && reg.wait.Some? && reg.wait.value.promise < |s.promises|
      && s.promises[reg.wait.value.promise].done <= reg.wait.value.reaction
  }

  predicate FiberOk(s: Seam, f: nat)
    requires f < |s.fibers|
  {
    s.fibers[f].owner < |s.registrations| && s.registrations[s.fibers[f].owner].fiber == Some(f)
  }

  /** The place a registration waits at carries its own attach. */
  predicate WaitOk(s: Seam, r: nat)
    requires r < |s.registrations|
  {
    var wait := s.registrations[r].wait;
    wait.Some? ==>
      && wait.value.promise < |s.promises|
      && wait.value.reaction < |s.promises[wait.value.promise].reactions|
      && s.promises[wait.value.promise].reactions[wait.value.reaction] == Attach(r)
      && s.promises[wait.value.promise].name == s.registrations[r].name
  }

  /** A reaction still to run belongs to a registration that has no fiber yet and waits at that very place. */
  predicate ReactionOk(s: Seam, p: nat, k: nat)
    requires p < |s.promises| && k < |s.promises[p].reactions|
  {
    match s.promises[p].reactions[k]
    case Forget => k == 0
    case Attach(r) =>
      && k > 0 && r < |s.registrations|
      && s.registrations[r].wait == Some(Wait(p, k))
      && (s.promises[p].done <= k ==> s.registrations[r].fiber.None?)
  }

  predicate PromiseOk(s: Seam, p: nat)
    requires p < |s.promises|
  {
    var promise := s.promises[p];
    && promise.done <= |promise.reactions|
    && promise.reactions != [] && promise.reactions[0] == Forget
    && (promise.done > 0 ==> promise.settled)
    && forall k :: 0 <= k < |promise.reactions| ==> ReactionOk(s, p, k)
  }

  ghost predicate Inv(s: Seam) {
    && (forall name :: LedgerEntry(s, name))
    && (forall r :: 0 <= r < |s.registrations| ==> RegistrationOk(s, r) && WaitOk(s, r))
    && (forall f :: 0 <= f < |s.fibers| ==> FiberOk(s, f))
    && (forall p :: 0 <= p < |s.promises| ==> PromiseOk(s, p))
  }

  /** The invariant is what makes every event's step defined. */
  function Next(s: Seam, e: Event): Seam
    requires Inv(s) && Enabled(s, e)
  {
    match e
    case Register(name) => assert LedgerEntry(s, name); DoRegister(s, name)
    case Dispose(r) => assert RegistrationOk(s, r); DoDispose(s, r)
    case Settle(p) => s.(promises := s.promises[p := s.promises[p].(settled := true)])
    case React(p) => assert PromiseOk(s, p); assert ReactionOk(s, p, s.promises[p].done); DoReact(s, p)
  }

  // ---------------------------------------------------------------- every step keeps it

  lemma ReleaseKeepsInv(s: Seam, name: string)
    requires Inv(s)
    ensures Inv(Release(s, name))
  {
    var t := Release(s, name);
    forall n ensures LedgerEntry(t, n) { assert LedgerEntry(s, n); }
    forall r | 0 <= r < |t.registrations| ensures RegistrationOk(t, r) && WaitOk(t, r) {
      assert RegistrationOk(s, r) && WaitOk(s, r);
    }
    forall f | 0 <= f < |t.fibers| ensures FiberOk(t, f) { assert FiberOk(s, f); }
    forall p | 0 <= p < |t.promises| ensures PromiseOk(t, p) {
      if p < |s.promises| { SamePromise(s, t, p); }
    }
  }

  /** A promise is as well formed after a change that keeps it and the registrations it mentions. */
  lemma SamePromise(s: Seam, t: Seam, p: nat)
    requires p < |s.promises| && p < |t.promises| && t.promises[p] == s.promises[p] && PromiseOk(s, p)
    requires |t.registrations| >= |s.registrations|
    requires forall r :: 0 <= r < |s.registrations| ==> t.registrations[r].wait == s.registrations[r].wait
    requires forall r :: 0 <= r < |s.registrations| && s.registrations[r].fiber.None? ==>
      t.registrations[r].fiber.None? || (s.registrations[r].wait.Some? && s.registrations[r].wait.value.promise != p)
    ensures PromiseOk(t, p)
  {
    forall k | 0 <= k < |t.promises[p].reactions| ensures ReactionOk(t, p, k) { assert ReactionOk(s, p, k); }
  }

  /** A registration that has or just gets its first fiber, alive unless it has been disposed. */
  function WithFiber(s: Seam, r: nat, live: bool): Seam
    requires r < |s.registrations|
  {
    s.(fibers := s.fibers + [Fiber(r, live)],
       registrations := s.registrations[r := s.registrations[r].(fiber := Some(|s.fibers|))])
  }

  /** The state between a reaction and the attach it performs: registration `r` has no fiber and waits no more. */
  ghost predicate Attaching(s: Seam, r: nat) {
    && r < |s.registrations| && s.registrations[r].fiber.None?
    && (forall name :: LedgerEntry(s, name))
    && (forall x :: 0 <= x < |s.registrations| ==> WaitOk(s, x))
    && (forall x :: 0 <= x < |s.registrations| && x != r ==> RegistrationOk(s, x))
    && (forall f :: 0 <= f < |s.fibers| ==> FiberOk(s, f))
    && (forall p :: 0 <= p < |s.promises| ==> PromiseOk(s, p))
    && (var wait := s.registrations[r].wait;
        wait.Some? && wait.value.promise < |s.promises| ==> s.promises[wait.value.promise].done > wait.value.reaction)
  }

  lemma AttachingEnds(s: Seam, r: nat)
    requires Attaching(s, r)
    ensures Inv(WithFiber(s, r, !s.registrations[r].disposed))
  {
    var t := WithFiber(s, r, !s.registrations[r].disposed);
    forall n ensures LedgerEntry(t, n) { assert LedgerEntry(s, n); }
    forall x | 0 <= x < |t.registrations| ensures RegistrationOk(t, x) && WaitOk(t, x) {
      assert WaitOk(s, x);
      if x != r { assert RegistrationOk(s, x); }
    }
    forall f | 0 <= f < |t.fibers| ensures FiberOk(t, f) { if f < |s.fibers| { assert FiberOk(s, f); } }
    forall p | 0 <= p < |t.promises| ensures PromiseOk(t, p) { AttachedPromise(s, t, r, p); }
  }

  lemma AttachedPromise(s: Seam, t: Seam, r: nat, p: nat)
    requires Attaching(s, r) && t == WithFiber(s, r, !s.registrations[r].disposed) && p < |s.promises|
    ensures PromiseOk(t, p)
  {
    assert PromiseOk(s, p);
    forall k | 0 <= k < |t.promises[p].reactions| ensures ReactionOk(t, p, k) { assert ReactionOk(s, p, k); }
  }

  lemma RegisterKeepsInv(s: Seam, name: string)
    requires Inv(s)
    ensures Inv(Next(s, Register(name)))
  {
    assert LedgerEntry(s, name);
    var r := |s.registrations|;
    if name !in s.ledger {
      var t := s.(registrations := s.registrations + [Registration(name, None, None, false)]);
      NewRegistration(s, t, name);
      AttachingEnds(t, r);
      ReleaseKeepsInv(WithFiber(t, r, true), name);
    } else {
      DeferredKeepsInv(s, name);
    }
  }

  lemma NewRegistration(s: Seam, t: Seam, name: string)
    requires Inv(s) && t == s.(registrations := s.registrations + [Registration(name, None, None, false)])
    ensures Attaching(t, |s.registrations|)
  {
    forall n ensures LedgerEntry(t, n) { assert LedgerEntry(s, n); }
    forall x | 0 <= x < |s.registrations| ensures RegistrationOk(t, x) && WaitOk(t, x) {
      assert RegistrationOk(s, x) && WaitOk(s, x);
    }
    forall f | 0 <= f < |t.fibers| ensures FiberOk(t, f) { assert FiberOk(s, f); }
    forall p | 0 <= p < |t.promises| ensures PromiseOk(t, p) { SamePromise(s, t, p); }
  }

  lemma DeferredKeepsInv(s: Seam, name: string)
    requires Inv(s) && name in s.ledger && LedgerEntry(s, name)
    ensures Inv(DoRegister(s, name))
  {
    var t, p := DoRegister(s, name), s.ledger[name];
    var r := |s.registrations|;
    forall n ensures LedgerEntry(t, n) { assert LedgerEntry(s, n); }
    assert PromiseOk(s, p);
    forall x | 0 <= x < |t.registrations| ensures RegistrationOk(t, x) && WaitOk(t, x) {
      if x < r { assert RegistrationOk(s, x) && WaitOk(s, x); }
    }
    forall f | 0 <= f < |t.fibers| ensures FiberOk(t, f) { assert FiberOk(s, f); }
    forall q | 0 <= q < |t.promises| ensures PromiseOk(t, q) {
      if q != p { SamePromise(s, t, q); } else { GrownPromise(s, t, p); }
    }
  }

  lemma GrownPromise(s: Seam, t: Seam, p: nat)
    requires Inv(s) && p < |s.promises| && p < |t.promises|
    requires t.promises[p] == s.promises[p].(reactions := s.promises[p].reactions + [Attach(|s.registrations|)])
    requires t.registrations
          == s.registrations + [Registration(s.promises[p].name, Some(Wait(p, |s.promises[p].reactions|)), None, false)]
    ensures PromiseOk(t, p)
  {
    assert PromiseOk(s, p);
    forall k | 0 <= k < |t.promises[p].reactions| ensures ReactionOk(t, p, k) {
      if k < |s.promises[p].reactions| { assert ReactionOk(s, p, k); }
    }
  }

  lemma DisposeKeepsInv(s: Seam, r: nat)
    requires Inv(s) && Enabled(s, Dispose(r))
    ensures Inv(Next(s, Dispose(r)))
  {
    assert RegistrationOk(s, r);
    var reg := s.registrations[r];
    var fibers := if reg.fiber.Some? then s.fibers[reg.fiber.value := Fiber(r, false)] else s.fibers;
    var t := s.(registrations := s.registrations[r := reg.(disposed := true)], fibers := fibers);
    forall n ensures LedgerEntry(t, n) { assert LedgerEntry(s, n); }
    forall x | 0 <= x < |t.registrations| ensures RegistrationOk(t, x) && WaitOk(t, x) {
      assert RegistrationOk(s, x) && WaitOk(s, x);
    }
    forall f | 0 <= f < |t.fibers| ensures FiberOk(t, f) { assert FiberOk(s, f); }
    forall p | 0 <= p < |t.promises| ensures PromiseOk(t, p) { SamePromise(s, t, p); }
    if reg.fiber.Some? { ReleaseKeepsInv(t, reg.name); }
  }

  lemma SettleKeepsInv(s: Seam, p: nat)
    requires Inv(s) && Enabled(s, Settle(p))
    ensures Inv(Next(s, Settle(p)))
  {
    var t := Next(s, Settle(p));
    forall n ensures LedgerEntry(t, n) { assert LedgerEntry(s, n); }
    forall x | 0 <= x < |t.registrations| ensures RegistrationOk(t, x) && WaitOk(t, x) {
      assert RegistrationOk(s, x) && WaitOk(s, x);
    }
    forall f | 0 <= f < |t.fibers| ensures FiberOk(t, f) { assert FiberOk(s, f); }
    forall q | 0 <= q < |t.promises| ensures PromiseOk(t, q) {
      assert PromiseOk(s, q);
      forall k | 0 <= k < |t.promises[q].reactions| ensures ReactionOk(t, q, k) { assert ReactionOk(s, q, k); }
    }
  }

  /** The state with one more reaction of a promise marked as run, and the ledger entry gone if that was its own. */
  function Ran(s: Seam, p: nat): Seam
    requires p < |s.promises|
  {
    var promise := s.promises[p];
    s.(promises := s.promises[p := promise.(done := promise.done + 1)],
       ledger := if promise.done == 0 && promise.name in s.ledger && s.ledger[promise.name] == p
                 then s.ledger - {promise.name} else s.ledger)
  }

  lemma RanPromises(s: Seam, p: nat, q: nat)
    requires Inv(s) && Enabled(s, React(p)) && q < |s.promises|
    ensures PromiseOk(Ran(s, p), q)
  {
    var t := Ran(s, p);
    assert PromiseOk(s, q);
    forall k | 0 <= k < |t.promises[q].reactions| ensures ReactionOk(t, q, k) { assert ReactionOk(s, q, k); }
  }

  lemma RanLedger(s: Seam, p: nat, name: string)
    requires Inv(s) && Enabled(s, React(p))
    ensures LedgerEntry(Ran(s, p), name)
  {
    assert LedgerEntry(s, name);
  }

  lemma RanRegistration(s: Seam, p: nat, x: nat)
    requires Inv(s) && Enabled(s, React(p)) && x < |s.registrations|
    ensures WaitOk(Ran(s, p), x)
    ensures s.promises[p].reactions[s.promises[p].done] != Attach(x) ==> RegistrationOk(Ran(s, p), x)
  {
    assert RegistrationOk(s, x) && WaitOk(s, x);
  }

  lemma ForgetKeepsInv(s: Seam, p: nat)
    requires Inv(s) && Enabled(s, React(p)) && s.promises[p].reactions[s.promises[p].done].Forget?
    ensures Inv(Next(s, React(p)))
  {
    hide LedgerEntry, RegistrationOk, WaitOk, FiberOk;
    assert PromiseOk(s, p);
    assert ReactionOk(s, p, s.promises[p].done);
    var t := Ran(s, p);
    forall n ensures LedgerEntry(t, n) { RanLedger(s, p, n); }
    forall x | 0 <= x < |t.registrations| ensures RegistrationOk(t, x) && WaitOk(t, x) { RanRegistration(s, p, x); }
    forall f | 0 <= f < |t.fibers| ensures FiberOk(t, f) { SameFiber(s, t, f); }
    forall q | 0 <= q < |t.promises| ensures PromiseOk(t, q) { RanPromises(s, p, q); }
  }

  lemma SameFiber(s: Seam, t: Seam, f: nat)
    requires f < |s.fibers| && FiberOk(s, f) && t.fibers == s.fibers && t.registrations == s.registrations
    ensures FiberOk(t, f)
  {
  }

  lemma AttachIsNext(s: Seam, p: nat, r: nat)
    requires Inv(s) && Enabled(s, React(p)) && s.promises[p].reactions[s.promises[p].done] == Attach(r)
    ensures Attaching(Ran(s, p), r)
  {
    hide LedgerEntry, WaitOk, FiberOk;
    assert PromiseOk(s, p);
    assert ReactionOk(s, p, s.promises[p].done);
    var t := Ran(s, p);
    forall n ensures LedgerEntry(t, n) { RanLedger(s, p, n); }
    forall x | 0 <= x < |t.registrations| ensures WaitOk(t, x) && (x != r ==> RegistrationOk(t, x)) { RanRegistration(s, p, x); }
    forall f | 0 <= f < |t.fibers| ensures FiberOk(t, f) { SameFiber(s, t, f); }
    forall q | 0 <= q < |t.promises| ensures PromiseOk(t, q) { RanPromises(s, p, q); }
  }

  /** What a deferred attach comes to: a fiber that lives unless the registration was cancelled, and its releases. */
  function Attached(s: Seam, r: nat): Seam
    requires r < |s.registrations|
  {
    var reg := s.registrations[r];
    var once := Release(WithFiber(s, r, !reg.disposed), reg.name);
    if reg.disposed then Release(once, reg.name) else once
  }

  lemma ReactIsAttached(s: Seam, p: nat, r: nat)
    requires Inv(s) && Enabled(s, React(p)) && s.promises[p].reactions[s.promises[p].done] == Attach(r)
    ensures r < |s.registrations| && Next(s, React(p)) == Attached(Ran(s, p), r)
  {
    hide LedgerEntry, RegistrationOk, WaitOk, FiberOk;
    assert PromiseOk(s, p);
    assert ReactionOk(s, p, s.promises[p].done);
    var t := Ran(s, p);
    if s.registrations[r].disposed {
      assert (t.fibers + [Fiber(r, true)])[|t.fibers| := Fiber(r, false)] == t.fibers + [Fiber(r, false)];
    }
  }

  lemma AttachKeepsInv(s: Seam, p: nat, r: nat)
    requires Inv(s) && Enabled(s, React(p)) && s.promises[p].reactions[s.promises[p].done] == Attach(r)
    ensures Inv(Next(s, React(p)))
  {
    hide Inv, Attaching, WithFiber, Next;
    ReactIsAttached(s, p, r);
    AttachIsNext(s, p, r);
    var t := Ran(s, p);
    AttachingEnds(t, r);
    ReleaseKeepsInv(WithFiber(t, r, !t.registrations[r].disposed), t.registrations[r].name);
    if t.registrations[r].disposed {
      ReleaseKeepsInv(Release(WithFiber(t, r, false), t.registrations[r].name), t.registrations[r].name);
    }
  }

  /** Every event keeps the ledger, the registrations, the fibers and the pending attaches consistent. */
  lemma StepKeepsInv(s: Seam, e: Event)
    requires Inv(s) && Enabled(s, e)
    ensures Inv(Next(s, e))
  {
    hide Inv, Next;
    match e
    case Register(name) => RegisterKeepsInv(s, name);
    case Dispose(r) => DisposeKeepsInv(s, r);
    case Settle(p) => SettleKeepsInv(s, p);
    case React(p) =>
      if s.promises[p].reactions[s.promises[p].done].Forget? { ForgetKeepsInv(s, p); }
      else { AttachKeepsInv(s, p, s.promises[p].reactions[s.promises[p].done].registration); }
  }

  // ---------------------------------------------------------------- runs

  const EMPTY := Seam([], [], [], map[])

  /** A step of the seam; `RunKeepsInv` shows that the invariant it is defined under always holds. */
  ghost predicate Step(s: Seam, e: Event, t: Seam) { Inv(s) ==> Enabled(s, e) && t == Next(s, e) }

  ghost predicate IsRun(states: seq<Seam>, events: seq<Event>) {
    && |states| == |events| + 1 && states[0] == EMPTY
    && forall i :: 0 <= i < |events| ==> Step(states[i], events[i], states[i + 1])
  }

  lemma {:induction false} RunKeepsInv(states: seq<Seam>, events: seq<Event>, n: nat)
    requires IsRun(states, events) && n <= |events|
    ensures Inv(states[n])
    decreases n
  {
    hide Next, Enabled, LedgerEntry;
    if n == 0 {
      EmptyIsOk();
    } else {
      RunKeepsInv(states, events, n - 1);
      assert Step(states[n - 1], events[n - 1], states[n]);
      StepKeepsInv(states[n - 1], events[n - 1]);
    }
  }

  lemma EmptyIsOk()
    ensures Inv(EMPTY)
  {
  }

  /** All promises have settled and nothing is left to run on them. */
  predicate Quiet(s: Seam) {
    forall p :: 0 <= p < |s.promises| ==> s.promises[p].settled && s.promises[p].done == |s.promises[p].reactions|
  }

  lemma EntryIsUnfinished(s: Seam, name: string)
    requires Inv(s) && name in s.ledger
    ensures !Quiet(s)
  {
    assert LedgerEntry(s, name);
    assert PromiseOk(s, s.ledger[name]);
  }

  /**
   * When all promises have settled, the ledger is empty, every accepted registration has exactly one fiber of its own,
   * and the fiber is live exactly if the registration was not disposed.
   */
  lemma QuietSeam(states: seq<Seam>, events: seq<Event>, n: nat)
    requires IsRun(states, events) && n <= |events| && Quiet(states[n])
    ensures var s := states[n];
      && s.ledger == map[]
      && |s.fibers| == |s.registrations|
      && forall r :: 0 <= r < |s.registrations| ==>
           && s.registrations[r].fiber.Some? && s.registrations[r].fiber.value < |s.fibers|
           && s.fibers[s.registrations[r].fiber.value] == Fiber(r, !s.registrations[r].disposed)
  {
    hide Next, Enabled;
    RunKeepsInv(states, events, n);
    var s := states[n];
    forall name ensures name !in s.ledger {
      if name in s.ledger {
        EntryIsUnfinished(s, name);
        assert false;
      }
    }
    forall r | 0 <= r < |s.registrations|
      ensures s.registrations[r].fiber.Some? && s.registrations[r].fiber.value < |s.fibers|
      ensures s.fibers[s.registrations[r].fiber.value] == Fiber(r, !s.registrations[r].disposed)
    {
      assert RegistrationOk(s, r) && WaitOk(s, r);
    }
    forall f | 0 <= f < |s.fibers|
      ensures s.fibers[f].owner < |s.registrations| && s.registrations[s.fibers[f].owner].fiber == Some(f)
    {
      assert FiberOk(s, f);
    }
    SameCount(s, |s.registrations|, |s.fibers|);
  }

  /** Registrations and fibers that point at each other are equally many. */
  lemma SameCount(s: Seam, m: nat, n: nat)
    requires m == |s.registrations| && n == |s.fibers|
    requires forall r :: 0 <= r < m ==> s.registrations[r].fiber.Some? && s.registrations[r].fiber.value < n
    requires forall r :: 0 <= r < m ==> s.fibers[s.registrations[r].fiber.value].owner == r
    requires forall f :: 0 <= f < n ==> s.fibers[f].owner < m && s.registrations[s.fibers[f].owner].fiber == Some(f)
    ensures m == n
  {
    var to := seq(m, r requires 0 <= r < m => s.registrations[r].fiber.value);
    var back := seq(n, f requires 0 <= f < n => s.fibers[f].owner);
    Pigeonhole(to, n);
    Pigeonhole(back, m);
  }

  /** Distinct numbers below a bound are at most that many. */
  lemma {:induction false} Pigeonhole(s: seq<nat>, n: nat)
    requires forall i :: 0 <= i < |s| ==> s[i] < n
    requires forall i, j :: 0 <= i < j < |s| ==> s[i] != s[j]
    ensures |s| <= n
    decreases n
  {
    if s == [] {
    } else {
      if n - 1 in s {
        var k :| 0 <= k < |s| && s[k] == n - 1;
        var rest := s[..k] + s[k + 1..];
        forall i | 0 <= i < |rest| ensures rest[i] < n - 1 { assert rest[i] == s[if i < k then i else i + 1]; }
        forall i, j | 0 <= i < j < |rest| ensures rest[i] != rest[j] {
          assert rest[i] == s[if i < k then i else i + 1] && rest[j] == s[if j < k then j else j + 1];
        }
        Pigeonhole(rest, n - 1);
      } else {
        Pigeonhole(s, n - 1);
      }
    }
  }

  /** A registration that had to wait gets its fiber only once the release it saw has settled. */
  lemma AttachWaits(states: seq<Seam>, events: seq<Event>, n: nat, r: nat)
    requires IsRun(states, events) && n < |events| && r < |states[n].registrations|
    requires states[n].registrations[r].fiber.None? && states[n].registrations[r].wait.Some?
    ensures r < |states[n + 1].registrations|
    ensures states[n + 1].registrations[r].fiber.Some? ==>
      var p := states[n].registrations[r].wait.value.promise;
      p < |states[n].promises| && states[n].promises[p].settled && events[n] == React(p)
  {
    RunKeepsInv(states, events, n);
    var s, e := states[n], events[n];
    assert Step(s, e, states[n + 1]);
    assert RegistrationOk(s, r) && WaitOk(s, r);
    if e.React? {
      assert PromiseOk(s, e.p);
      assert ReactionOk(s, e.p, s.promises[e.p].done);
    }
  }

  // ---------------------------------------------------------------- what the ledger does not promise

  /** A server, and two more of its name that both wait for its activation. */
  const THREE: seq<Event> := [Register("m"), Register("m"), Register("m"), Settle(0), React(0), React(0), React(0)]

  /** The seam after so many of those events. */
  function AfterThree(n: nat): Seam {
    var waiting := Registration("m", None, Some(0), false);
    var second := Registration("m", Some(Wait(0, 1)), None, false);
    var third := Registration("m", Some(Wait(0, 2)), None, false);
    var queue := [Forget, Attach(1), Attach(2)];
    if n == 0 then EMPTY
    else if n == 1 then Seam([waiting], [Fiber(0, true)], [Promise("m", false, [Forget], 0)], map["m" := 0])
    else if n == 2 then
      Seam([waiting, second], [Fiber(0, true)], [Promise("m", false, [Forget, Attach(1)], 0)], map["m" := 0])
    else if n == 3 then Seam([waiting, second, third], [Fiber(0, true)], [Promise("m", false, queue, 0)], map["m" := 0])
    else if n == 4 then Seam([waiting, second, third], [Fiber(0, true)], [Promise("m", true, queue, 0)], map["m" := 0])
    else if n == 5 then Seam([waiting, second, third], [Fiber(0, true)], [Promise("m", true, queue, 1)], map[])
    else if n == 6 then
      Seam([waiting, second.(fiber := Some(1)), third], [Fiber(0, true), Fiber(1, true)],
           [Promise("m", true, queue, 2), Promise("m", false, [Forget], 0)], map["m" := 1])
    else
      Seam([waiting, second.(fiber := Some(1)), third.(fiber := Some(2))], [Fiber(0, true), Fiber(1, true), Fiber(2, true)],
           [Promise("m", true, queue, 3), Promise("m", false, [Forget], 0), Promise("m", false, [Forget], 0)],
           map["m" := 2])
  }

  lemma ThreeRegister(n: nat)
    requires n < 4
    ensures Step(AfterThree(n), THREE[n], AfterThree(n + 1))
  {
    assert [Forget] + [Attach(1)] == [Forget, Attach(1)];
    assert [Forget, Attach(1)] + [Attach(2)] == [Forget, Attach(1), Attach(2)];
    if n == 0 {} else if n == 1 {} else if n == 2 {} else {}
  }

  lemma ThreeReact(n: nat)
    requires 4 <= n < 7
    ensures Step(AfterThree(n), THREE[n], AfterThree(n + 1))
  {
    var s := AfterThree(n);
    if n == 4 { assert map["m" := 0] - {"m"} == map[]; }
    else if n == 5 { assert [Fiber(0, true)] + [Fiber(1, true)] == [Fiber(0, true), Fiber(1, true)]; }
    else {
      assert map["m" := 1]["m" := 2] == map["m" := 2];
      assert s.fibers + [Fiber(2, true)] == [Fiber(0, true), Fiber(1, true), Fiber(2, true)];
    }
  }

  /** The last two of three registrations have one name and a live fiber each. */
  predicate TwoLive(s: Seam) {
    && |s.registrations| == 3 && s.registrations[1].name == s.registrations[2].name
    && |s.fibers| == 3 && s.fibers[1] == Fiber(1, true) && s.fibers[2] == Fiber(2, true)
  }

  /** Several undisposed registrations of one name can be live at once: each attach waits for one release only. */
  lemma SameNameTwice()
    ensures exists states: seq<Seam> ::
      IsRun(states, THREE) && |THREE| == 7 && TwoLive(states[7])
  {
    hide Step, AfterThree;
    var states := seq(8, i requires 0 <= i < 8 => AfterThree(i));
    forall i | 0 <= i < 7 ensures Step(states[i], THREE[i], states[i + 1]) {
      if i < 4 { ThreeRegister(i); } else { ThreeReact(i); }
    }
    ThreeEnds();
    assert IsRun(states, THREE);
  }

  lemma ThreeEnds()
    ensures |THREE| == 7 && AfterThree(0) == EMPTY
    ensures TwoLive(AfterThree(7))
  {
  }

  /** A registration of a name whose fiber is attached and has not been disposed. */
  predicate AttachedUndisposed(s: Seam, r: nat, name: string) {
    r < |s.registrations| && s.registrations[r].name == name && s.registrations[r].fiber.Some? && !s.registrations[r].disposed
  }

  /** A live fiber of a registration of a name. */
  predicate LiveFiber(s: Seam, f: nat, name: string) {
    && f < |s.fibers| && s.fibers[f].live
    && s.fibers[f].owner < |s.registrations| && s.registrations[s.fibers[f].owner].name == name
  }

  ghost predicate AtMostOneLive(s: Seam, name: string) {
    forall f: nat, g: nat :: LiveFiber(s, f, name) && LiveFiber(s, g, name) ==> f == g
  }

  ghost predicate AtMostOneAttached(s: Seam, name: string) {
    forall r: nat, q: nat :: AttachedUndisposed(s, r, name) && AttachedUndisposed(s, q, name) ==> r == q
  }

  /** At every point of a run, a name has at most one live fiber exactly if at most one attached registration of it is undisposed. */
  lemma OneLivePerName(states: seq<Seam>, events: seq<Event>, n: nat, name: string)
    requires IsRun(states, events) && n <= |events|
    ensures AtMostOneLive(states[n], name) <==> AtMostOneAttached(states[n], name)
  {
    RunKeepsInv(states, events, n);
    LiveIsAttached(states[n], name);
  }

  lemma LiveIsAttached(s: Seam, name: string)
    requires Inv(s)
    ensures AtMostOneLive(s, name) <==> AtMostOneAttached(s, name)
  {
    hide PromiseOk, LedgerEntry, WaitOk;
    forall f: nat | LiveFiber(s, f, name) ensures AttachedUndisposed(s, s.fibers[f].owner, name) {
      assert FiberOk(s, f) && RegistrationOk(s, s.fibers[f].owner);
    }
    forall r: nat | AttachedUndisposed(s, r, name)
      ensures LiveFiber(s, s.registrations[r].fiber.value, name) && s.fibers[s.registrations[r].fiber.value].owner == r
    {
      assert RegistrationOk(s, r);
    }
    if AtMostOneAttached(s, name) {
      forall f: nat, g: nat | LiveFiber(s, f, name) && LiveFiber(s, g, name) ensures f == g {
        assert FiberOk(s, f) && FiberOk(s, g);
      }
    }
    if AtMostOneLive(s, name) {
      forall r: nat, q: nat | AttachedUndisposed(s, r, name) && AttachedUndisposed(s, q, name) ensures r == q {
        assert LiveFiber(s, s.registrations[r].fiber.value, name) && LiveFiber(s, s.registrations[q].fiber.value, name);
      }
    }
  }

  /** And once all promises have settled: exactly if at most one registration of it is undisposed. */
  lemma OneLiveWhenQuiet(states: seq<Seam>, events: seq<Event>, n: nat, name: string)
    requires IsRun(states, events) && n <= |events| && Quiet(states[n])
    ensures AtMostOneLive(states[n], name) <==>
      forall r, q :: 0 <= r < q < |states[n].registrations| && states[n].registrations[r].name == states[n].registrations[q].name == name ==>
        states[n].registrations[r].disposed || states[n].registrations[q].disposed
  {
    hide Quiet, AtMostOneLive;
    OneLivePerName(states, events, n, name);
    QuietSeam(states, events, n);
    var s := states[n];
    forall r: nat ensures AttachedUndisposed(s, r, name) <==>
      r < |s.registrations| && s.registrations[r].name == name && !s.registrations[r].disposed {}
    if !AtMostOneAttached(s, name) {
      var r: nat, q: nat :| AttachedUndisposed(s, r, name) && AttachedUndisposed(s, q, name) && r != q;
    } else {
      forall r, q | 0 <= r < q < |s.registrations| && s.registrations[r].name == s.registrations[q].name == name
        ensures s.registrations[r].disposed || s.registrations[q].disposed
      {
        assert !(AttachedUndisposed(s, r, name) && AttachedUndisposed(s, q, name));
      }
    }
  }

  // ---------------------------------------------------------------- the object

  /** The seam as the closure keeps it; each method is one synchronous stretch of the source. */
  class PluginMcpSeam {
    var registrations: seq<Registration>
    var fibers: seq<Fiber>
    var promises: seq<Promise>
    var ledger: map<string, nat>

    constructor ()
      ensures View() == EMPTY
    {
      registrations, fibers, promises, ledger := [], [], [], map[];
    }

    function View(): Seam
      reads this
    {
      Seam(registrations, fibers, promises, ledger)
    }

    /** Enter a pending release into the ledger, and have it forgotten when it settles. */
    method NoteRelease(name: string)
      modifies this
      ensures View() == Release(old(View()), name)
    {
      ledger := ledger[name := |promises|];
      promises := promises + [Promise(name, false, [Forget], 0)];
    }

    method AttachServer(r: nat)
      requires r < |registrations|
      modifies this
      ensures View() == AttachNow(old(View()), r)
    {
      registrations := registrations[r := registrations[r].(fiber := Some(|fibers|))];
      fibers := fibers + [Fiber(r, true)];
      NoteRelease(registrations[r].name);
    }

    method DisposeServer(f: nat)
      requires f < |fibers| && fibers[f].owner < |registrations|
      modifies this
      ensures View() == DisposeFiber(old(View()), f)
    {
      fibers := fibers[f := fibers[f].(live := false)];
      NoteRelease(registrations[fibers[f].owner].name);
    }

    /** `registerServer` past its checks; the caller's disposer is `CallDisposer` of the returned number. */
    method RegisterServer(name: string) returns (r: nat)
      requires Inv(View())
      modifies this
      ensures r == |old(registrations)| && View() == Next(old(View()), Register(name)) && Inv(View())
    {
      hide Inv, RegistrationOk, WaitOk, FiberOk, PromiseOk;
      StepKeepsInv(View(), Register(name));
      LedgerIsOk(View(), name);
      r := |registrations|;
      if name !in ledger {
        registrations := registrations + [Registration(name, None, None, false)];
        AttachServer(r);
        return;
      }
      var p := ledger[name];
      registrations := registrations + [Registration(name, Some(Wait(p, |promises[p].reactions|)), None, false)];
      promises := promises[p := promises[p].(reactions := promises[p].reactions + [Attach(r)])];
    }

    /** The disposer of a registration: it disposes the fiber, or cancels the attach that has not happened yet. */
    method CallDisposer(r: nat)
      requires Inv(View()) && Enabled(View(), Dispose(r))
      modifies this
      ensures View() == Next(old(View()), Dispose(r)) && Inv(View())
    {
      hide Inv, LedgerEntry, WaitOk, FiberOk, PromiseOk;
      StepKeepsInv(View(), Dispose(r));
      RegistrationIsOk(View(), r);
      registrations := registrations[r := registrations[r].(disposed := true)];
      if registrations[r].fiber.Some? { DisposeServer(registrations[r].fiber.value); }
    }

    /** A continuation of a settled promise. */
    method RunReaction(p: nat)
      requires Inv(View()) && Enabled(View(), React(p))
      modifies this
      ensures View() == Next(old(View()), React(p)) && Inv(View())
    {
      hide Inv, LedgerEntry, WaitOk, FiberOk, PromiseOk, RegistrationOk;
      StepKeepsInv(View(), React(p));
      ReactionIsOk(View(), p);
      var promise := promises[p];
      promises := promises[p := promise.(done := promise.done + 1)];
      match promise.reactions[promise.done]
      case Forget => if promise.name in ledger && ledger[promise.name] == p { ledger := ledger - {promise.name}; }
      case Attach(r) =>
        var cancelled := registrations[r].disposed;
        AttachServer(r);
        if cancelled { DisposeServer(|fibers| - 1); }
    }
  }

  lemma LedgerIsOk(s: Seam, name: string)
    requires Inv(s)
    ensures LedgerEntry(s, name)
  {
  }

  lemma RegistrationIsOk(s: Seam, r: nat)
    requires Inv(s) && r < |s.registrations|
    ensures RegistrationOk(s, r)
  {
  }

  lemma ReactionIsOk(s: Seam, p: nat)
    requires Inv(s) && Enabled(s, React(p))
    ensures s.promises[p].done < |s.promises[p].reactions| && ReactionOk(s, p, s.promises[p].done)
  {
    assert PromiseOk(s, p);
  }
}
