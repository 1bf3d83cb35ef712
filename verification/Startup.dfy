/**
  The start-up protocol of the shared id counter (initialPkgData and auto_semophore in
  src/sharedMemory.cpp). Any number of processes initialise, in any interleaving.
  A semaphore instance is never posted: the flag that would ask for it is never set.
 */
module Startup {
  import opened Wrappers
  import opened IdSearch

  type Pid = nat
  type Inst = nat

  datatype Phase =
    | Outside                          // lastId is null, no semaphore is open
    | Waiting(inst: Inst)              // opened a semaphore instance
    | Entered(inst: Inst)              // past the wait, by a count or by timeout
    | Found(inst: Inst)                // saw that the counter exists
    | Missing(inst: Inst)              // saw that it does not
    | Allocated(inst: Inst)            // created the counter's segment
    | Bound(inst: Inst)                // lastId points to the counter
    | Ready                            // closed the semaphore and removed its name

  /** The semaphore's name, the count of each instance ever made, the counter's value once its
      segment exists; and, for the record, how often it was created and zeroed, and the numbers
      that the increments gave, in order. */
  datatype State = State(
    name: Option<Inst>, counts: map<Inst, nat>, value: Option<Id>, phase: map<Pid, Phase>,
    created: nat, zeroed: nat, given: seq<Id>)

  datatype Step =
    | Open(p: Pid)        // open_or_create, with an initial count of 1
    | Acquire(p: Pid)     // timed_wait takes a count
    | Timeout(p: Pid)     // timed_wait gives up after three seconds; the process goes on
    | Look(p: Pid)        // hasSharedMemory
    | Allocate(p: Pid)    // allocate: create_only, zero bytes
    | Zero(p: Pid)        // map and construct the counter with value 0
    | Bind(p: Pid)        // map the existing counter
    | Leave(p: Pid)       // the destructor removes the semaphore's name
    | Use(p: Pid)         // ++(*lastId)
    | Fail(p: Pid)        // an exception: the destructor still removes the name

  const START := State(None, map[], None, map[], 0, 0, [])

  function At(s: State, p: Pid): Phase {
    if p in s.phase then s.phase[p] else Outside
  }

  predicate Enabled(s: State, t: Step) {
    var at := At(s, t.p);
    match t
    case Open(p) => at.Outside?
    case Acquire(p) => at.Waiting? && at.inst in s.counts && s.counts[at.inst] > 0
    case Timeout(p) => at.Waiting? && at.inst in s.counts && s.counts[at.inst] == 0
    case Look(p) => at.Entered?
    case Allocate(p) => at.Missing? && s.value.None?
    case Zero(p) => at.Allocated?
    case Bind(p) => at.Found?
    case Leave(p) => at.Bound?
    case Use(p) => at.Ready? && s.value.Some?
    case Fail(p) => at.Entered? || at.Found? || at.Missing? || at.Allocated?
  }

  function Apply(s: State, t: Step): State
    requires Enabled(s, t)
  {
    var at := At(s, t.p);
    match t
    case Open(p) =>
      if s.name.Some? then s.(phase := s.phase[p := Waiting(s.name.value)])
      else
        var inst := |s.counts|;
        s.(name := Some(inst), counts := s.counts[inst := 1], phase := s.phase[p := Waiting(inst)])
    case Acquire(p) =>
      s.(counts := s.counts[at.inst := s.counts[at.inst] - 1], phase := s.phase[p := Entered(at.inst)])
    case Timeout(p) => s.(phase := s.phase[p := Entered(at.inst)])
    case Look(p) => s.(phase := s.phase[p := if s.value.Some? then Found(at.inst) else Missing(at.inst)])
    case Allocate(p) => s.(value := Some(0), created := s.created + 1, phase := s.phase[p := Allocated(at.inst)])
    case Zero(p) => s.(value := Some(0), zeroed := s.zeroed + 1, phase := s.phase[p := Bound(at.inst)])
    case Bind(p) => s.(phase := s.phase[p := Bound(at.inst)])
    case Leave(p) => s.(name := None, phase := s.phase[p := Ready])
    case Use(p) => s.(value := Some(Next(s.value.value)), given := s.given + [Next(s.value.value)])
    case Fail(p) => s.(name := None, phase := s.phase[p := Outside])
  }

  ghost predicate Run(s: State, steps: seq<Step>, e: State)
    decreases |steps|
  {
    if steps == [] then s == e
    else Enabled(s, steps[0]) && Run(Apply(s, steps[0]), steps[1..], e)
  }

  /** Past the wait, but not done. */
  predicate Inside(ph: Phase) {
    ph.Entered? || ph.Found? || ph.Missing? || ph.Allocated? || ph.Bound?
  }

  /** Sees or saw the counter. */
  predicate Sees(ph: Phase) {
    ph.Found? || ph.Bound? || ph.Ready?
  }

  // ---------- what every run keeps ----------

  /** The counter is created at most once, by one process, and zeroed at most once, by that one. */
  ghost predicate Always(s: State) {
    && s.zeroed <= s.created <= 1 && (s.created == 1 <==> s.value.Some?) && (s.value.None? ==> s.given == [])
    && (forall p :: At(s, p).Allocated? ==> s.created == 1 && s.zeroed == 0)
    && (forall p, q :: At(s, p).Allocated? && At(s, q).Allocated? ==> p == q)
    && (s.name.Some? ==> s.name.value in s.counts) && (forall i :: i in s.counts ==> i < |s.counts|)
  }

  lemma StepKeepsAlways(s: State, t: Step)
    requires Always(s) && Enabled(s, t)
    ensures Always(Apply(s, t))
  {
    var e := Apply(s, t);
    forall p | At(e, p).Allocated? ensures e.created == 1 && e.zeroed == 0 {
      assert p != t.p ==> At(s, p).Allocated?;
    }
    forall p, q | At(e, p).Allocated? && At(e, q).Allocated? ensures p == q {
      assert (p != t.p ==> At(s, p).Allocated?) && (q != t.p ==> At(s, q).Allocated?);
    }
  }

  lemma {:induction false} RunKeepsAlways(s: State, steps: seq<Step>, e: State)
    requires Always(s) && Run(s, steps, e)
    ensures Always(e)
    decreases |steps|
  {
    if steps != [] {
      StepKeepsAlways(s, steps[0]);
      RunKeepsAlways(Apply(s, steps[0]), steps[1..], e);
    }
  }

  // ---------- whether every increment counts ----------

  /** The increments gave 1, 2, 3, ... */
  predicate Counted(given: seq<Id>) {
    forall i :: 0 <= i < |given| ==> given[i] == (i + 1) % IDS
  }

  /** No increment was lost. */
  ghost predicate Good(s: State) {
    Counted(s.given) && (s.value.Some? ==> s.value.value == |s.given| % IDS)
  }

  /** Who zeroes the counter could check this: it still reads zero. */
  ghost predicate ZeroesFresh(s: State, steps: seq<Step>)
    decreases |steps|
  {
    steps != [] && Enabled(s, steps[0]) ==>
      (steps[0].Zero? ==> s.value == Some(0)) && ZeroesFresh(Apply(s, steps[0]), steps[1..])
  }

  lemma NextIsModulo(k: nat)
    ensures Next(k % IDS) == (k + 1) % IDS
  {
  }

  lemma NextIsInjective(a: Id, b: Id)
    requires a != b
    ensures Next(a) != Next(b)
  {
  }

  lemma StepKeepsGoodIff(s: State, t: Step)
    requires Always(s) && Good(s) && Enabled(s, t)
    ensures Good(Apply(s, t)) <==> (t.Zero? ==> s.value == Some(0))
  {
    if t.Zero? { assert At(s, t.p).Allocated?; }
    NextIsModulo(|s.given|);
  }

  /** The counter was zeroed for the last time, and does not read what was given. */
  ghost predicate Lost(s: State) {
    s.zeroed == 1 && s.value.Some? && s.value.value != |s.given| % IDS
  }

  lemma {:induction false} LostStaysLost(s: State, steps: seq<Step>, e: State)
    requires Always(s) && Lost(s) && Run(s, steps, e)
    ensures Lost(e)
    decreases |steps|
  {
    if steps != [] {
      StepKeepsAlways(s, steps[0]);
      assert !steps[0].Zero?;
      NextIsModulo(|s.given|);
      NextIsInjective(s.value.value, |s.given| % IDS);
      LostStaysLost(Apply(s, steps[0]), steps[1..], e);
    }
  }

  lemma {:induction false} RunCountsIff(s: State, steps: seq<Step>, e: State)
    requires Always(s) && Good(s) && Run(s, steps, e)
    ensures Good(e) <==> ZeroesFresh(s, steps)
    decreases |steps|
  {
    if steps != [] {
      var t := steps[0];
      StepKeepsAlways(s, t);
      StepKeepsGoodIff(s, t);
      if t.Zero? && s.value != Some(0) {
        assert At(s, t.p).Allocated?;
        LostStaysLost(Apply(s, t), steps[1..], e);
      } else {
        RunCountsIff(Apply(s, t), steps[1..], e);
      }
    }
  }

  // ---------- whether the counter is initialised ----------

  /** The counter exists, is not zeroed, and nobody will. */
  ghost predicate Abandoned(s: State) {
    s.created == 1 && s.zeroed == 0 && forall p :: !At(s, p).Allocated?
  }

  /** Some process fails between creating the counter and zeroing it. */
  ghost predicate FailsHalfway(s: State, steps: seq<Step>)
    decreases |steps|
  {
    && steps != [] && Enabled(s, steps[0])
    && ((steps[0].Fail? && At(s, steps[0].p).Allocated?) || FailsHalfway(Apply(s, steps[0]), steps[1..]))
  }

  lemma StepAbandonsIff(s: State, t: Step)
    requires Always(s) && Enabled(s, t)
    ensures Abandoned(Apply(s, t)) <==> Abandoned(s) || (t.Fail? && At(s, t.p).Allocated?)
  {
    var e := Apply(s, t);
    forall p | p != t.p ensures At(e, p) == At(s, p) {}
    if t.Allocate? { assert At(e, t.p).Allocated?; }
    if p :| At(s, p).Allocated? && p != t.p { assert At(e, p).Allocated?; }
  }

  lemma {:induction false} RunAbandonsIff(s: State, steps: seq<Step>, e: State)
    requires Always(s) && Run(s, steps, e)
    ensures Abandoned(e) <==> Abandoned(s) || FailsHalfway(s, steps)
    decreases |steps|
  {
    if steps != [] {
      StepKeepsAlways(s, steps[0]);
      StepAbandonsIff(s, steps[0]);
      RunAbandonsIff(Apply(s, steps[0]), steps[1..], e);
    }
  }

  /** Over every run of any number of processes, whoever gives up waiting or fails: the counter is
      created at most once and zeroed at most once; no increment is lost if and only if it still
      reads zero when it is zeroed; and it stays without being zeroed if and only if its creator
      fails before. */
  lemma CounterIsInitialisedOnce(steps: seq<Step>, e: State)
    requires Run(START, steps, e)
    ensures e.zeroed <= e.created <= 1
    ensures Good(e) <==> ZeroesFresh(START, steps)
    ensures Abandoned(e) <==> FailsHalfway(START, steps)
  {
    RunKeepsAlways(START, steps, e);
    RunCountsIff(START, steps, e);
    RunAbandonsIff(START, steps, e);
  }

  /** So up to 2^64 increments the protocol gives no id twice, if the counter still reads zero when
      it is zeroed. */
  lemma GivenIdsAreDistinct(steps: seq<Step>, e: State, i: nat, j: nat)
    requires Run(START, steps, e) && ZeroesFresh(START, steps) && i < j < |e.given| <= IDS
    ensures e.given[i] != e.given[j]
  {
    CounterIsInitialisedOnce(steps, e);
    assert (i + 1) % IDS == i + 1 && (j + 1) % IDS == if j + 1 == IDS then 0 else j + 1;
  }

  // ---------- mutual exclusion ----------

  ghost predicate Exclusive(s: State) {
    forall p, q :: Inside(At(s, p)) && Inside(At(s, q)) ==> p == q
  }

  /** Only the instance that has the name has a count, and it has it unless its taker is inside. */
  ghost predicate SemaphoreOk(s: State) {
    && (forall i :: i in s.counts && s.counts[i] > 0 ==> s.name == Some(i) && s.counts[i] == 1)
    && (forall p :: Inside(At(s, p)) ==>
          At(s, p).inst in s.counts && s.counts[At(s, p).inst] == 0 && s.name == Some(At(s, p).inst))
    && Exclusive(s)
  }

  /** Who takes a count enters alone. */
  lemma AcquireIsAlone(s: State, p: Pid, q: Pid)
    requires SemaphoreOk(s) && Enabled(s, Acquire(p))
    ensures !Inside(At(s, q))
  {
  }

  lemma StepKeepsTaken(s: State, t: Step, p: Pid)
    requires Always(s) && SemaphoreOk(s) && Enabled(s, t) && !t.Timeout? && Inside(At(Apply(s, t), p))
    ensures var e := Apply(s, t);
            At(e, p).inst in e.counts && e.counts[At(e, p).inst] == 0 && e.name == Some(At(e, p).inst)
    ensures p != t.p ==> Inside(At(s, p)) && !t.Acquire?
  {
    if p != t.p {
      assert At(Apply(s, t), p) == At(s, p);
      if t.Acquire? { AcquireIsAlone(s, t.p, p); }
    }
  }

  lemma StepKeepsSemaphore(s: State, t: Step)
    requires Always(s) && SemaphoreOk(s) && Enabled(s, t) && !t.Timeout?
    ensures SemaphoreOk(Apply(s, t))
  {
    var e := Apply(s, t);
    forall p | Inside(At(e, p))
      ensures At(e, p).inst in e.counts && e.counts[At(e, p).inst] == 0 && e.name == Some(At(e, p).inst)
    {
      StepKeepsTaken(s, t, p);
    }
    forall p, q | Inside(At(e, p)) && Inside(At(e, q)) ensures p == q {
      StepKeepsTaken(s, t, p);
      StepKeepsTaken(s, t, q);
    }
  }

  ghost predicate NoTimeout(steps: seq<Step>) {
    forall i :: 0 <= i < |steps| ==> !steps[i].Timeout?
  }

  lemma {:induction false} RunKeepsSemaphore(s: State, steps: seq<Step>, e: State)
    requires Always(s) && SemaphoreOk(s) && Run(s, steps, e) && NoTimeout(steps)
    ensures SemaphoreOk(e)
    decreases |steps|
  {
    if steps != [] {
      StepKeepsAlways(s, steps[0]);
      StepKeepsSemaphore(s, steps[0]);
      RunKeepsSemaphore(Apply(s, steps[0]), steps[1..], e);
    }
  }

  /** As long as nobody gives up waiting, at most one process is inside, whoever fails. */
  lemma NoTimeoutExcludes(steps: seq<Step>, e: State)
    requires Run(START, steps, e) && NoTimeout(steps)
    ensures Exclusive(e)
  {
    RunKeepsSemaphore(START, steps, e);
  }

  lemma {:induction false} SomeoneElse(taken: set<Pid>) returns (q: Pid)
    ensures forall p :: p in taken ==> p < q
  {
    if taken == {} {
      q := 0;
    } else {
      var p :| p in taken;
      var r := SomeoneElse(taken - {p});
      q := if p < r then r else p + 1;
      assert forall x :: x in taken ==> x == p || x in taken - {p};
    }
  }

  /** And no longer: wherever somebody can give up, two more steps put a second process inside. */
  lemma TimeoutLetsTwoIn(steps: seq<Step>, s: State, p: Pid) returns (q: Pid, last: Step, e: State)
    requires Run(START, steps, s) && Enabled(s, Timeout(p))
    ensures Run(s, [Timeout(p), Open(q), last], e) && (last == Acquire(q) || last == Timeout(q))
    ensures p != q && Inside(At(e, p)) && Inside(At(e, q))
    ensures Settled(s) ==> TimelyRun(s, [Timeout(p), Open(q), last])
  {
    RunKeepsAlways(START, steps, s);
    q := SomeoneElse(s.phase.Keys);
    var s1 := Apply(s, Timeout(p));
    assert At(s1, q).Outside? && p in s.phase;
    var s2 := Apply(s1, Open(q));
    var inst := At(s2, q).inst;
    assert inst in s2.counts;
    last := if s2.counts[inst] > 0 then Acquire(q) else Timeout(q);
    e := Apply(s2, last);
    if Settled(s) {
      StepKeepsSettled(s, Timeout(p));
      StepKeepsSettled(s1, Open(q));
    }
    RunFirst(s2, last, [], e);
    RunFirst(s1, Open(q), [last], e);
    RunFirst(s, Timeout(p), [Open(q), last], e);
  }

  lemma RunFirst(s: State, t: Step, steps: seq<Step>, e: State)
    requires Enabled(s, t) && Run(Apply(s, t), steps, e)
    ensures Run(s, [t] + steps, e)
    ensures Timely(s, t) && TimelyRun(Apply(s, t), steps) ==> TimelyRun(s, [t] + steps)
  {
    assert ([t] + steps)[1..] == steps;
  }

  /** Whoever leaves or fails makes room: the name is gone, and who arrives next need not wait. */
  lemma LeavingMakesRoom(steps: seq<Step>, s: State, t: Step, q: Pid)
    requires Run(START, steps, s) && Enabled(s, t) && (t.Leave? || t.Fail?)
    requires At(Apply(s, t), q).Outside?
    ensures var e := Apply(s, t);
            && e.name.None? && Enabled(e, Open(q)) && Enabled(Apply(e, Open(q)), Acquire(q))
  {
    RunKeepsAlways(START, steps, s);
    StepKeepsAlways(s, t);
  }

  /** The first to arrive need not wait either, and nobody after it gets in without giving up until
      it has left. */
  lemma FirstNeedNotWait(q: Pid, r: Pid)
    requires q != r
    ensures Enabled(START, Open(q)) && Enabled(Apply(START, Open(q)), Acquire(q))
    ensures var s := Apply(Apply(START, Open(q)), Acquire(q));
            Enabled(s, Open(r)) && !Enabled(Apply(s, Open(r)), Acquire(r)) && Enabled(Apply(s, Open(r)), Timeout(r))
  {
  }

  // ---------- timely runs ----------

  /** The counter exists and nobody is about to create or zero it. */
  ghost predicate Settled(s: State) {
    s.value.Some? && forall p :: !At(s, p).Missing? && !At(s, p).Allocated?
  }

  /** The assumption on timing: nobody gives up waiting before the counter is settled. */
  ghost predicate Timely(s: State, t: Step) {
    t.Timeout? ==> Settled(s)
  }

  ghost predicate TimelyRun(s: State, steps: seq<Step>)
    decreases |steps|
  {
    steps != [] ==> Enabled(s, steps[0]) && Timely(s, steps[0]) && TimelyRun(Apply(s, steps[0]), steps[1..])
  }

  /** From the n-th increment on, each gives the number after the one before; `c` have been lost
      or gained before. */
  ghost predicate CountsFrom(s: State, n: nat, c: nat) {
    && s.value.Some? && s.value.value == (|s.given| + c) % IDS && n <= |s.given|
    && forall i :: n <= i < |s.given| ==> s.given[i] == (i + 1 + c) % IDS
  }

  lemma StepKeepsSettled(s: State, t: Step)
    requires Settled(s) && Enabled(s, t)
    ensures var e := Apply(s, t);
            && Settled(e) && e.created == s.created && e.zeroed == s.zeroed
            && e.given == (if t.Use? then s.given + [e.value.value] else s.given)
            && e.value.value == if t.Use? then Next(s.value.value) else s.value.value
  {
    var e := Apply(s, t);
    forall p ensures !At(e, p).Missing? && !At(e, p).Allocated? {
      assert !At(s, p).Missing? && !At(s, p).Allocated?;
    }
  }

  /** Once the counter is settled, nobody creates or zeroes it again and no count is lost, however
      early anybody gives up waiting and whoever fails. */
  lemma {:induction false} SettledStaysSettled(s: State, steps: seq<Step>, e: State, n: nat, c: nat)
    requires Settled(s) && CountsFrom(s, n, c) && Run(s, steps, e)
    ensures Settled(e) && CountsFrom(e, n, c) && e.created == s.created && e.zeroed == s.zeroed
    decreases |steps|
  {
    if steps != [] {
      StepKeepsSettled(s, steps[0]);
      NextIsModulo(|s.given| + c);
      SettledStaysSettled(Apply(s, steps[0]), steps[1..], e, n, c);
    }
  }

  /** Until then the semaphore excludes, and nobody has seen the counter. */
  ghost predicate TimelyOk(s: State) {
    !Settled(s) ==>
      && SemaphoreOk(s) && (s.value.Some? ==> s.value == Some(0))
      && (forall p :: !Sees(At(s, p)) && (At(s, p).Missing? ==> s.value.None?))
  }

  lemma UnsettledStep(s: State, t: Step, p: Pid)
    requires Always(s) && TimelyOk(s) && !Settled(s) && Enabled(s, t) && !t.Timeout?
    ensures var e := Apply(s, t);
            !Settled(e) ==> !Sees(At(e, p)) && (At(e, p).Missing? ==> e.value.None?)
  {
    var e := Apply(s, t);
    assert !Sees(At(s, p)) && !Sees(At(s, t.p));
    if t.Zero? || t.Allocate? || t.Look? {
      assert Inside(At(s, t.p));
      forall q | q != t.p ensures !Inside(At(s, q)) && At(e, q) == At(s, q) {}
    }
  }

  lemma StepKeepsTimely(s: State, t: Step)
    requires Always(s) && TimelyOk(s) && Enabled(s, t) && Timely(s, t)
    ensures TimelyOk(Apply(s, t))
    ensures t.Zero? ==> s.value == Some(0)
  {
    var e := Apply(s, t);
    if Settled(s) {
      StepKeepsSettled(s, t);
      assert !t.Zero?;
    } else {
      StepKeepsSemaphore(s, t);
      assert !Sees(At(s, t.p)) && (t.Zero? ==> At(s, t.p).Allocated?);
      forall p | !Settled(e) ensures !Sees(At(e, p)) && (At(e, p).Missing? ==> e.value.None?) {
        UnsettledStep(s, t, p);
      }
    }
  }

  lemma {:induction false} RunKeepsTimely(s: State, steps: seq<Step>, e: State)
    requires Always(s) && TimelyOk(s) && Run(s, steps, e) && TimelyRun(s, steps)
    ensures Always(e) && TimelyOk(e) && ZeroesFresh(s, steps)
    decreases |steps|
  {
    if steps != [] {
      StepKeepsAlways(s, steps[0]);
      StepKeepsTimely(s, steps[0]);
      RunKeepsTimely(Apply(s, steps[0]), steps[1..], e);
    }
  }

  /** If nobody gives up waiting before the counter is settled: no increment is lost; until then at
      most one process is inside; and whoever sees the counter sees it settled, and zeroed unless
      its creator failed before. */
  lemma TimelyRunCounts(steps: seq<Step>, e: State)
    requires Run(START, steps, e) && TimelyRun(START, steps)
    ensures ZeroesFresh(START, steps) && Good(e)
    ensures !Settled(e) ==> Exclusive(e)
    ensures (exists p :: Sees(At(e, p))) ==> Settled(e) && (e.zeroed == 1 <==> !FailsHalfway(START, steps))
  {
    RunKeepsTimely(START, steps, e);
    CounterIsInitialisedOnce(steps, e);
    if p :| Sees(At(e, p)) {
      assert Settled(e);
    }
  }

  // ---------- what does not hold ----------

  /** Process 0 has created the counter but not yet initialised it; process 1 waits. */
  const HALFWAY :=
    State(Some(0), map[0 := 0], Some(0), map[0 := Allocated(0), 1 := Waiting(0)], 1, 0, [])

  /** Both have opened the semaphore. */
  const QUEUED := State(Some(0), map[0 := 1], None, map[0 := Waiting(0), 1 := Waiting(0)], 0, 0, [])

  lemma QueuedLeadsHalfway()
    ensures var steps := [Acquire(0), Look(0), Allocate(0)];
            Run(QUEUED, steps, HALFWAY) && TimelyRun(QUEUED, steps)
  {
    var s3 := QUEUED.(counts := map[0 := 0], phase := map[0 := Entered(0), 1 := Waiting(0)]);
    var s4 := s3.(phase := map[0 := Missing(0), 1 := Waiting(0)]);
    assert Apply(QUEUED, Acquire(0)) == s3;
    assert Apply(s3, Look(0)) == s4;
    assert Apply(s4, Allocate(0)) == HALFWAY;
    RunFirst(s4, Allocate(0), [], HALFWAY);
    RunFirst(s3, Look(0), [Allocate(0)], HALFWAY);
    RunFirst(QUEUED, Acquire(0), [Look(0), Allocate(0)], HALFWAY);
  }

  lemma HalfwayIsReachable()
    ensures var steps := [Open(0), Open(1), Acquire(0), Look(0), Allocate(0)];
            Run(START, steps, HALFWAY) && TimelyRun(START, steps)
  {
    var s1 := State(Some(0), map[0 := 1], None, map[0 := Waiting(0)], 0, 0, []);
    assert Apply(START, Open(0)) == s1;
    assert Apply(s1, Open(1)) == QUEUED;
    QueuedLeadsHalfway();
    RunFirst(s1, Open(1), [Acquire(0), Look(0), Allocate(0)], HALFWAY);
    RunFirst(START, Open(0), [Open(1), Acquire(0), Look(0), Allocate(0)], HALFWAY);
  }

  /** Process 1 gave up waiting, found the counter, used it and has id 1; process 0 has not yet
      zeroed it. */
  const TOO_EARLY := State(None, map[0 := 0], Some(1), map[0 := Allocated(0), 1 := Ready], 1, 0, [1])

  /** The same before process 1 has used the counter. */
  const EARLY := State(Some(0), map[0 := 0], Some(0), map[0 := Allocated(0), 1 := Bound(0)], 1, 0, [])

  lemma HalfwayLeadsEarly()
    ensures Enabled(HALFWAY, Timeout(1)) && !Timely(HALFWAY, Timeout(1))
    ensures Run(HALFWAY, [Timeout(1), Look(1), Bind(1)], EARLY)
  {
    assert At(HALFWAY, 0).Allocated?;
    var s1 := HALFWAY.(phase := map[0 := Allocated(0), 1 := Entered(0)]);
    var s2 := HALFWAY.(phase := map[0 := Allocated(0), 1 := Found(0)]);
    assert Apply(HALFWAY, Timeout(1)) == s1;
    assert Apply(s1, Look(1)) == s2;
    assert Apply(s2, Bind(1)) == EARLY;
    RunFirst(s2, Bind(1), [], EARLY);
    RunFirst(s1, Look(1), [Bind(1)], EARLY);
    RunFirst(HALFWAY, Timeout(1), [Look(1), Bind(1)], EARLY);
  }

  lemma EarlyLeadsTooEarly()
    ensures Run(EARLY, [Leave(1), Use(1)], TOO_EARLY)
  {
    var s1 := EARLY.(name := None, phase := map[0 := Allocated(0), 1 := Ready]);
    assert Apply(EARLY, Leave(1)) == s1;
    assert Apply(s1, Use(1)) == TOO_EARLY;
    RunFirst(s1, Use(1), [], TOO_EARLY);
    RunFirst(EARLY, Leave(1), [Use(1)], TOO_EARLY);
  }

  lemma TooEarlyGivesAnIdTwice() returns (e: State)
    ensures Run(TOO_EARLY, [Zero(0), Leave(0), Use(0)], e) && e.given == [1, 1]
  {
    var s1 := TOO_EARLY.(value := Some(0), zeroed := 1, phase := map[0 := Bound(0), 1 := Ready]);
    var s2 := s1.(phase := map[0 := Ready, 1 := Ready]);
    e := s2.(value := Some(1), given := [1, 1]);
    assert Apply(TOO_EARLY, Zero(0)) == s1;
    assert Apply(s1, Leave(0)) == s2;
    assert Apply(s2, Use(0)) == e;
    RunFirst(s2, Use(0), [], e);
    RunFirst(s1, Leave(0), [Use(0)], e);
    RunFirst(TOO_EARLY, Zero(0), [Leave(0), Use(0)], e);
  }

  /** If process 1 gives up waiting at HALFWAY, its count is lost: process 0 zeroes a counter that
      reads 1, and its own increment gives it id 1 as well. */
  lemma EarlyTimeoutGivesAnIdTwice() returns (steps: seq<Step>, e: State)
    ensures Run(START, steps, e) && e.given == [1, 1]
  {
    HalfwayIsReachable();
    HalfwayLeadsEarly();
    EarlyLeadsTooEarly();
    e := TooEarlyGivesAnIdTwice();
    var first := [Open(0), Open(1), Acquire(0), Look(0), Allocate(0)];
    var second, third, last := [Timeout(1), Look(1), Bind(1)], [Leave(1), Use(1)], [Zero(0), Leave(0), Use(0)];
    RunOn(EARLY, third, TOO_EARLY, last, e);
    RunOn(HALFWAY, second, EARLY, third + last, e);
    RunOn(START, first, HALFWAY, second + (third + last), e);
    steps := first + (second + (third + last));
  }

  /** Process 0 failed between creating the counter and zeroing it. */
  const ABANDONED := State(None, map[0 := 0], Some(0), map[0 := Outside, 1 := Waiting(0)], 1, 0, [])

  lemma AbandonedIsSettled()
    ensures Enabled(HALFWAY, Fail(0)) && Apply(HALFWAY, Fail(0)) == ABANDONED
    ensures Settled(ABANDONED) && CountsFrom(ABANDONED, 0, 0)
  {
  }

  /** Then the counter is never constructed: whoever arrives later uses the bytes of the new
      segment. They are zero, and nobody is about to zero them again, so no count is lost. */
  lemma AbandonedCounterStillCounts(steps: seq<Step>, e: State)
    requires Run(ABANDONED, steps, e)
    ensures e.created == 1 && e.zeroed == 0 && e.value == Some(|e.given| % IDS) && Counted(e.given)
  {
    AbandonedIsSettled();
    SettledStaysSettled(ABANDONED, steps, e, 0, 0);
  }

  /** And there is one who uses it. */
  lemma AbandonedCounterIsUsed()
    ensures exists e :: Run(ABANDONED, [Open(2), Acquire(2), Look(2), Bind(2), Leave(2)], e)
                        && At(e, 2).Ready? && e.zeroed == 0
  {
    var s1 := ABANDONED.(name := Some(1), counts := map[0 := 0, 1 := 1],
      phase := map[0 := Outside, 1 := Waiting(0), 2 := Waiting(1)]);
    assert Apply(ABANDONED, Open(2)) == s1;
    NewcomerGetsReady(s1, 2);
    var e :| Run(s1, [Acquire(2), Look(2), Bind(2), Leave(2)], e) && At(e, 2).Ready? && e.zeroed == s1.zeroed;
    RunFirst(ABANDONED, Open(2), [Acquire(2), Look(2), Bind(2), Leave(2)], e);
  }

  /** Whoever can take a count when the counter exists gets to it undisturbed. */
  lemma NewcomerGetsReady(s: State, p: Pid)
    requires Enabled(s, Acquire(p)) && s.value.Some?
    ensures exists e :: Run(s, [Acquire(p), Look(p), Bind(p), Leave(p)], e)
                        && At(e, p).Ready? && e.zeroed == s.zeroed
  {
    var s1 := Apply(s, Acquire(p));
    var s2 := Apply(s1, Look(p));
    var s3 := Apply(s2, Bind(p));
    var e := Apply(s3, Leave(p));
    RunFirst(s3, Leave(p), [], e);
    RunFirst(s2, Bind(p), [Leave(p)], e);
    RunFirst(s1, Look(p), [Bind(p), Leave(p)], e);
    RunFirst(s, Acquire(p), [Look(p), Bind(p), Leave(p)], e);
  }

  /** Process 0 has initialised the counter and is gone; process 1 still waits. */
  const SERVED := State(None, map[0 := 0], Some(0), map[0 := Ready, 1 := Waiting(0)], 1, 1, [])

  lemma HalfwayLeadsToServed()
    ensures Run(HALFWAY, [Zero(0), Leave(0)], SERVED) && TimelyRun(HALFWAY, [Zero(0), Leave(0)])
  {
    var s1 := Apply(HALFWAY, Zero(0));
    assert Apply(s1, Leave(0)) == SERVED;
    RunFirst(s1, Leave(0), [], SERVED);
    RunFirst(HALFWAY, Zero(0), [Leave(0)], SERVED);
  }

  lemma {:induction false} RunOn(s: State, steps: seq<Step>, u: State, more: seq<Step>, e: State)
    requires Run(s, steps, u) && Run(u, more, e)
    ensures Run(s, steps + more, e)
    decreases |steps|
  {
    var all := steps + more;
    if steps == [] {
      assert all == more;
    } else {
      assert all[0] == steps[0] && all[1..] == steps[1..] + more;
      RunOn(Apply(s, steps[0]), steps[1..], u, more, e);
    }
  }

  lemma {:induction false} TimelyOn(s: State, steps: seq<Step>, u: State, more: seq<Step>, e: State)
    requires Run(s, steps, u) && TimelyRun(s, steps) && Run(u, more, e) && TimelyRun(u, more)
    ensures TimelyRun(s, steps + more) && Run(s, steps + more, e)
    decreases |steps|
  {
    if steps == [] {
      assert steps + more == more;
    } else {
      var s1 := Apply(s, steps[0]);
      TimelyOn(s1, steps[1..], u, more, e);
      RunFirst(s, steps[0], steps[1..] + more, e);
      assert steps + more == [steps[0]] + (steps[1..] + more);
    }
  }

  lemma ServedIsReachable() returns (steps: seq<Step>)
    ensures Run(START, steps, SERVED) && TimelyRun(START, steps)
  {
    var first := [Open(0), Open(1), Acquire(0), Look(0), Allocate(0)];
    HalfwayIsReachable();
    HalfwayLeadsToServed();
    TimelyOn(START, first, HALFWAY, [Zero(0), Leave(0)], SERVED);
    steps := first + [Zero(0), Leave(0)];
  }

  /** Timeliness does not buy mutual exclusion: once the counter is settled, a waiter that gives up
      and a late arrival can be inside together. */
  lemma MutualExclusionIsNotKept() returns (steps: seq<Step>, e: State)
    ensures Run(START, steps, e) && TimelyRun(START, steps) && !Exclusive(e)
  {
    var first := ServedIsReachable();
    assert Settled(SERVED) && Enabled(SERVED, Timeout(1));
    var q, last;
    q, last, e := TimeoutLetsTwoIn(first, SERVED, 1);
    TimelyOn(START, first, SERVED, [Timeout(1), Open(q), last], e);
    steps := first + [Timeout(1), Open(q), last];
  }
}
