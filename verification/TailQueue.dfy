/** Promise-tail queues: each call chains its job behind the previous promise, under one of the source's disciplines. */
module TailQueue {

  /** `tail.then(run, run)` runs after a rejection, `tail.then(run)` does not; `.catch(...)` swallows one. */
  datatype Discipline = Discipline(runsAfterRejection: bool, swallows: bool)

  /** `createCcPluginManager.enqueue`. */
  const MANAGER := Discipline(true, true)
  /** `AcpModelControl.serialize`, and the output chain of an ACP session. */
  const ACP := Discipline(false, true)
  /** `CostGateLedger.append`. */
  const LEDGER := Discipline(true, false)

  /** One stretch of a job between two awaits, over the shared store and the job's own variables. */
  type Action<!S, !L> = (S, L) -> (S, L)

  /** What a job does from start to end, and whether its promise then fulfils. */
  datatype Job<!S, !L> = Job(actions: seq<Action<S, L>>, start: L, ok: bool)

  datatype Status<L> = Waiting | Running(pc: nat, own: L) | Settled(ok: bool, ran: bool)

  /** The calls so far with their jobs' progress, the shared store, and the order in which jobs started. */
  datatype Queue<!S, !L> = Queue(jobs: seq<Job<S, L>>, status: seq<Status<L>>, store: S, started: seq<nat>)

  datatype Event<!S, !L> = Call(job: Job<S, L>) | Wake(i: nat) | Act(i: nat) | Finish(i: nat)

  // ---------------------------------------------------------------- the machine

  /** The promise that the next job chains on has been rejected. */
  predicate Rejected<S, L>(q: Queue<S, L>, i: nat, d: Discipline)
    requires i < |q.status|
  {
    q.status[i].Settled? && !q.status[i].ok && !d.swallows
  }

  predicate Enabled<S, L>(q: Queue<S, L>, e: Event<S, L>) {
    |q.jobs| == |q.status| &&
    match e
    case Call(_) => true
    case Wake(i) => i < |q.status| && q.status[i].Waiting? && (i > 0 ==> q.status[i - 1].Settled?)
    case Act(i) => i < |q.status| && q.status[i].Running? && q.status[i].pc < |q.jobs[i].actions|
    case Finish(i) => i < |q.status| && q.status[i].Running? && q.status[i].pc == |q.jobs[i].actions|
  }

  function Next<S, L>(q: Queue<S, L>, e: Event<S, L>, d: Discipline): Queue<S, L>
    requires Enabled(q, e)
  {
    match e
    case Call(job) => q.(jobs := q.jobs + [job], status := q.status + [Waiting])
    case Wake(i) =>
      if i > 0 && Rejected(q, i - 1, d) && !d.runsAfterRejection
      then q.(status := q.status[i := Settled(false, false)])
      else q.(status := q.status[i := Running(0, q.jobs[i].start)], started := q.started + [i])
    case Act(i) =>
      var (store, own) := q.jobs[i].actions[q.status[i].pc](q.store, q.status[i].own);
      q.(store := store, status := q.status[i := Running(q.status[i].pc + 1, own)])
    case Finish(i) => q.(status := q.status[i := Settled(q.jobs[i].ok, true)])
  }

  function Initial<S, L>(store: S): Queue<S, L> { Queue([], [], store, []) }

  ghost predicate IsRun<S, L>(states: seq<Queue<S, L>>, events: seq<Event<S, L>>, d: Discipline) {
    && |states| == |events| + 1
    && forall i :: 0 <= i < |events| ==> Enabled(states[i], events[i]) && states[i + 1] == Next(states[i], events[i], d)
  }

  // ---------------------------------------------------------------- one by one

  /** The first `n` actions of a job. */
  function RunActions<S, L>(store: S, job: Job<S, L>, n: nat): (S, L)
    requires n <= |job.actions|
  {
    if n == 0 then (store, job.start)
    else
      var before := RunActions(store, job, n - 1);
      job.actions[n - 1](before.0, before.1)
  }

  /** The first `k` jobs, one after the other, each from start to end; one that never ran changes nothing. */
  function Serial<S, L>(store: S, jobs: seq<Job<S, L>>, status: seq<Status<L>>, k: nat): S
    requires k <= |jobs| == |status|
  {
    if k == 0 then store
    else
      var before := Serial(store, jobs, status, k - 1);
      if status[k - 1].Settled? && !status[k - 1].ran then before
      else RunActions(before, jobs[k - 1], |jobs[k - 1].actions|).0
  }

  /** Exactly the first `k` jobs have settled; only the next one may have started. */
  predicate UpTo<S, L>(q: Queue<S, L>, k: nat) {
    && k <= |q.jobs| == |q.status|
    && (forall i :: 0 <= i < k ==> q.status[i].Settled?)
    && (forall i :: k < i < |q.status| ==> q.status[i].Waiting?)
    && (k < |q.status| ==> !q.status[k].Settled?)
  }

  /** The store is what the settled jobs, one by one, and then the running job's part make of the first store. */
  ghost predicate StoreIsSerial<S, L>(store: S, q: Queue<S, L>, k: nat)
    requires UpTo(q, k)
  {
    var before := Serial(store, q.jobs, q.status, k);
    if k < |q.status| && q.status[k].Running? then
      && q.status[k].pc <= |q.jobs[k].actions|
      && (q.store, q.status[k].own) == RunActions(before, q.jobs[k], q.status[k].pc)
    else q.store == before
  }

  /** The jobs that have started did so in call order, each once. */
  predicate StartedInOrder<S, L>(q: Queue<S, L>, k: nat) {
    && (forall i, j :: 0 <= i < j < |q.started| ==> q.started[i] < q.started[j])
    && (forall i :: i in q.started ==> i <= k && HasStarted(q.status, i))
  }

  ghost predicate Good<S, L>(store: S, q: Queue<S, L>, k: nat) {
    UpTo(q, k) && StoreIsSerial(store, q, k) && StartedInOrder(q, k)
  }

  lemma {:induction false} SerialIgnoresLater<S, L>(store: S, jobs: seq<Job<S, L>>, a: seq<Status<L>>, b: seq<Status<L>>, k: nat)
    requires k <= |jobs| == |a| == |b| && forall i :: 0 <= i < k ==> a[i] == b[i]
    ensures Serial(store, jobs, a, k) == Serial(store, jobs, b, k)
  {
    if k == 0 {
    } else {
      SerialIgnoresLater(store, jobs, a, b, k - 1);
    }
  }

  lemma {:induction false} SerialIgnoresNewJob<S, L>(store: S, jobs: seq<Job<S, L>>, job: Job<S, L>, a: seq<Status<L>>, k: nat)
    requires k <= |jobs| == |a|
    ensures Serial(store, jobs + [job], a + [Waiting], k) == Serial(store, jobs, a, k)
  {
    if k == 0 {
    } else {
      SerialIgnoresNewJob(store, jobs, job, a, k - 1);
      assert (jobs + [job])[k - 1] == jobs[k - 1] && (a + [Waiting])[k - 1] == a[k - 1];
    }
  }

  /** How many jobs have settled after an event. */
  function SettledAfter<S, L>(q: Queue<S, L>, e: Event<S, L>, d: Discipline, k: nat): nat
    requires Enabled(q, e)
  {
    match e
    case Finish(_) => k + 1
    case Wake(i) => if i > 0 && Rejected(q, i - 1, d) && !d.runsAfterRejection then k + 1 else k
    case _ => k
  }

  lemma OnlyTheNext<S, L>(q: Queue<S, L>, e: Event<S, L>, k: nat)
    requires UpTo(q, k) && Enabled(q, e)
    ensures !e.Call? ==> e.i == k
  {
  }

  lemma StepUpTo<S, L>(q: Queue<S, L>, e: Event<S, L>, d: Discipline, k: nat)
    requires UpTo(q, k) && Enabled(q, e)
    ensures UpTo(Next(q, e, d), SettledAfter(q, e, d, k))
  {
    OnlyTheNext(q, e, k);
  }

  lemma StepSerial<S, L>(store: S, q: Queue<S, L>, e: Event<S, L>, d: Discipline, k: nat)
    requires UpTo(q, k) && StoreIsSerial(store, q, k) && Enabled(q, e)
    requires UpTo(Next(q, e, d), SettledAfter(q, e, d, k))
    ensures StoreIsSerial(store, Next(q, e, d), SettledAfter(q, e, d, k))
  {
    OnlyTheNext(q, e, k);
    if e.Call? {
      SerialIgnoresNewJob(store, q.jobs, e.job, q.status, k);
    } else {
      var r := Next(q, e, d);
      SerialIgnoresLater(store, q.jobs, q.status, r.status, k);
      if r.status[k].Settled? {
        assert Serial(store, r.jobs, r.status, k + 1)
            == if r.status[k].ran then RunActions(Serial(store, r.jobs, r.status, k), r.jobs[k], |r.jobs[k].actions|).0
               else Serial(store, r.jobs, r.status, k);
      }
    }
  }

  predicate HasStarted<L>(status: seq<Status<L>>, i: nat) {
    i < |status| && (status[i].Running? || (status[i].Settled? && status[i].ran))
  }

  lemma StepStarted<S, L>(q: Queue<S, L>, e: Event<S, L>, d: Discipline, k: nat)
    requires UpTo(q, k) && StartedInOrder(q, k) && Enabled(q, e)
    ensures StartedInOrder(Next(q, e, d), SettledAfter(q, e, d, k))
  {
    hide UpTo;
    OnlyTheNext(q, e, k);
    var r := Next(q, e, d);
    forall i | i in q.started ensures i <= k && HasStarted(r.status, i) { assert HasStarted(q.status, i); }
    if e.Wake? {
      forall i | 0 <= i < |q.started| ensures q.started[i] < k {
        assert q.started[i] in q.started;
        assert HasStarted(q.status, q.started[i]);
      }
    }
  }

  lemma {:induction false} RunIsGood<S, L>(store: S, states: seq<Queue<S, L>>, events: seq<Event<S, L>>, d: Discipline, n: nat) returns (k: nat)
    requires IsRun(states, events, d) && states[0] == Initial(store) && n <= |events|
    ensures Good(store, states[n], k)
    decreases n
  {
    hide UpTo, StoreIsSerial, StartedInOrder, Next, Enabled;
    if n == 0 {
      k := 0;
      InitialIsGood<S, L>(store);
    } else {
      var before := RunIsGood(store, states, events, d, n - 1);
      k := SettledAfter(states[n - 1], events[n - 1], d, before);
      StepUpTo(states[n - 1], events[n - 1], d, before);
      StepSerial(store, states[n - 1], events[n - 1], d, before);
      StepStarted(states[n - 1], events[n - 1], d, before);
    }
  }

  lemma InitialIsGood<S, L>(store: S)
    ensures Good(store, Initial<S, L>(store), 0)
  {
  }

  // ---------------------------------------------------------------- results

  /** Jobs never overlap, and start in call order, whatever the interleaving and the rejections. */
  lemma JobsNeverOverlap<S, L>(store: S, states: seq<Queue<S, L>>, events: seq<Event<S, L>>, d: Discipline, n: nat, i: nat, j: nat)
    requires IsRun(states, events, d) && states[0] == Initial(store) && n <= |events|
    requires i < j < |states[n].status| && !states[n].status[j].Waiting?
    ensures states[n].status[i].Settled?
    ensures forall a, b :: 0 <= a < b < |states[n].started| ==> states[n].started[a] < states[n].started[b]
  {
    var k := RunIsGood(store, states, events, d, n);
  }

  /** A queue that swallows rejections or runs regardless of them runs every job that settles. */
  predicate NeverWedges(d: Discipline) { d.runsAfterRejection || d.swallows }

  lemma {:induction false} EveryJobRuns<S, L>(store: S, states: seq<Queue<S, L>>, events: seq<Event<S, L>>, d: Discipline, n: nat)
    requires IsRun(states, events, d) && states[0] == Initial(store) && n <= |events| && NeverWedges(d)
    ensures forall i :: 0 <= i < |states[n].status| && states[n].status[i].Settled? ==> states[n].status[i].ran
    decreases n
  {
    if n == 0 {
    } else {
      EveryJobRuns(store, states, events, d, n - 1);
      assert Enabled(states[n - 1], events[n - 1]);
    }
  }

  /** The whole outcome: once every call has settled, the store is what the jobs one by one in call order make of it. */
  function OneByOne<S, L>(store: S, jobs: seq<Job<S, L>>, k: nat): S
    requires k <= |jobs|
  {
    if k == 0 then store else RunActions(OneByOne(store, jobs, k - 1), jobs[k - 1], |jobs[k - 1].actions|).0
  }

  lemma {:induction false} SerialOfRan<S, L>(store: S, jobs: seq<Job<S, L>>, status: seq<Status<L>>, k: nat)
    requires k <= |jobs| == |status| && forall i :: 0 <= i < k ==> status[i].Settled? && status[i].ran
    ensures Serial(store, jobs, status, k) == OneByOne(store, jobs, k)
  {
    if k == 0 {
    } else {
      SerialOfRan(store, jobs, status, k - 1);
    }
  }

  lemma QueueIsSerial<S, L>(store: S, states: seq<Queue<S, L>>, events: seq<Event<S, L>>, d: Discipline)
    requires IsRun(states, events, d) && states[0] == Initial(store) && NeverWedges(d)
    requires forall i :: 0 <= i < |states[|events|].status| ==> states[|events|].status[i].Settled?
    ensures var q := states[|events|]; q.store == OneByOne(store, q.jobs, |q.jobs|)
  {
    hide Next, Enabled;
    var q := states[|events|];
    var k := RunIsGood(store, states, events, d, |events|);
    assert k == |q.jobs|;
    EveryJobRuns(store, states, events, d, |events|);
    SerialOfRan(store, q.jobs, q.status, k);
  }

  /** A queue is never stuck: while some call has not settled, some event other than a further call can happen. */
  lemma NeverStuck<S, L>(store: S, states: seq<Queue<S, L>>, events: seq<Event<S, L>>, d: Discipline, n: nat, i: nat)
    requires IsRun(states, events, d) && states[0] == Initial(store) && n <= |events|
    requires i < |states[n].status| && !states[n].status[i].Settled?
    ensures exists e: Event<S, L> :: !e.Call? && Enabled(states[n], e)
  {
    hide Next;
    var q := states[n];
    var k := RunIsGood(store, states, events, d, n);
    assert k < |q.status|;
    var wake: Event<S, L>, act: Event<S, L>, finish: Event<S, L> := Wake(k), Act(k), Finish(k);
    if q.status[k].Waiting? { assert Enabled(q, wake); }
    else if q.status[k].pc < |q.jobs[k].actions| { assert Enabled(q, act); }
    else { assert Enabled(q, finish); }
  }

  /** Without either precaution one rejection wedges the queue: the next call settles without its job having run. */
  lemma OtherwiseItWedges(d: Discipline)
    requires !NeverWedges(d)
    ensures exists states: seq<Queue<int, int>>, events: seq<Event<int, int>> ::
      && IsRun(states, events, d) && states[0] == Initial(0)
      && |states[|events|].status| == 2 && states[|events|].status[1] == Settled(false, false)
  {
    var events := WedgingCalls();
    WedgingSteps(d);
    var states := seq(6, i requires 0 <= i < 6 => WedgingState(i));
    assert IsRun(states, events, d) by {
      forall i | 0 <= i < 5 ensures Enabled(states[i], events[i]) && states[i + 1] == Next(states[i], events[i], d) {}
    }
  }

  const FAILS: Job<int, int> := Job([], 0, false)
  const WORKS: Job<int, int> := Job([], 0, true)

  function WedgingCalls(): seq<Event<int, int>> { [Call(FAILS), Call(WORKS), Wake(0), Finish(0), Wake(1)] }

  function WedgingState(i: nat): Queue<int, int> {
    if i == 0 then Initial(0)
    else if i == 1 then Queue([FAILS], [Waiting], 0, [])
    else
      var status := if i == 2 then [Waiting, Waiting]
                    else if i == 3 then [Running(0, 0), Waiting]
                    else [Settled(false, true), if i == 4 then Waiting else Settled(false, false)];
      Queue([FAILS, WORKS], status, 0, if i == 2 then [] else [0])
  }

  lemma WedgingSteps(d: Discipline)
    requires !NeverWedges(d)
    ensures forall i: nat :: i < 5 ==>
      Enabled(WedgingState(i), WedgingCalls()[i]) && WedgingState(i + 1) == Next(WedgingState(i), WedgingCalls()[i], d)
  {
    forall i: nat | i < 5
      ensures Enabled(WedgingState(i), WedgingCalls()[i])
      ensures WedgingState(i + 1) == Next(WedgingState(i), WedgingCalls()[i], d)
    {
      WedgingStep(i, d);
    }
  }

  lemma WedgingStep(i: nat, d: Discipline)
    requires !NeverWedges(d) && i < 5
    ensures Enabled(WedgingState(i), WedgingCalls()[i])
    ensures WedgingState(i + 1) == Next(WedgingState(i), WedgingCalls()[i], d)
  {
    if i == 0 {} else if i == 1 {} else if i == 2 {} else if i == 3 {} else {}
  }

  /** Each of the repository's queues, whatever its jobs and their rejections, ends where its jobs one by one would. */
  lemma RepositoryQueuesAreSerial<S, L>(store: S, states: seq<Queue<S, L>>, events: seq<Event<S, L>>, d: Discipline)
    requires d in {MANAGER, ACP, LEDGER} && IsRun(states, events, d) && states[0] == Initial(store)
    requires forall i :: 0 <= i < |states[|events|].status| ==> states[|events|].status[i].Settled?
    ensures var q := states[|events|];
      && q.store == OneByOne(store, q.jobs, |q.jobs|)
      && forall i :: 0 <= i < |q.status| ==> q.status[i].ran
  {
    hide Next, Enabled;
    QueueIsSerial(store, states, events, d);
    EveryJobRuns(store, states, events, d, |events|);
  }
}
