/** The compare-and-swap spinlock program: any number of threads increment a plain counter to a
    bound under a one-bit lock, with release/acquire ordering, stale failing reads and spurious
    failures of the weak compare-exchange. */
module Spinlock {
  import opened Memory
  import opened Sums

  // The thread's next action inside increment_counter.
  datatype Pc =
    | Test                 // n < NUM_ROUND_TRIPS
    | Lock                 // compare_exchange_weak(false, true)
    | Check                // counter == NUM_ROUND_TRIPS
    | Bump                 // acquisitions[thread_id] += 1
    | Read                 // counter += 1: the load ...
    | Write(r: int)        // ... and the store
    | Unlock
    | UnlockAndBreak
    | Done(broke: bool)

  /** acquired and samples: the thread's own elements of the two result vectors. */
  datatype Thread = Thread(pc: Pc, n: nat, acquired: nat, samples: nat, seen: nat, hb: set<nat>)

  /** flag: its modification order. holder and locks are kept for the statements only. */
  datatype State = State(flag: seq<Msg>, counter: int, threads: seq<Thread>, log: seq<Access>,
    holder: set<nat>, locks: nat)

  function Init(t: nat): State {
    State([Msg(0, {}, 0)], 0, seq(t, i => Thread(Test, 0, 0, 0, 0, {})), [], {}, 0)
  }

  datatype Step = Local | CasOk | CasFail(at: nat) | Touch | Release

  predicate Critical(pc: Pc) {
    pc.Check? || pc.Bump? || pc.Read? || pc.Write? || pc.Unlock? || pc.UnlockAndBreak?
  }

  predicate Enabled(s: State, t: nat, a: Step) {
    t < |s.threads| &&
    var me := s.threads[t];
    match a
    case Local => me.pc.Test? || me.pc.Bump?
    case CasOk => me.pc.Lock? && s.flag != [] && s.flag[|s.flag| - 1].val == 0
    case CasFail(i) => me.pc.Lock? && me.seen <= i < |s.flag|
    case Touch => me.pc.Check? || me.pc.Read? || me.pc.Write?
    case Release => me.pc.Unlock? || me.pc.UnlockAndBreak?
  }

  function Exec(bound: nat, s: State, t: nat, a: Step): State
    requires Enabled(s, t, a)
  {
    var me := s.threads[t];
    match a
    case Local =>
      if me.pc.Test? then s.(threads := s.threads[t := me.(pc := if me.n < bound then Lock else Done(false))])
      else s.(threads := s.threads[t := me.(pc := Read, acquired := me.acquired + 1)])
    case CasOk =>
      // The acquiring half joins the message read; the relaxed half continues its release sequence.
      var m := s.flag[|s.flag| - 1];
      s.(flag := s.flag + [Msg(1, m.hb, t)], threads := s.threads[t := me.(pc := Check,
        seen := |s.flag|, hb := me.hb + m.hb)],
         holder := s.holder + {t}, locks := s.locks + 1)
    case CasFail(i) =>
      s.(threads := s.threads[t := me.(seen := i)])
    case Touch =>
      var pc' := if me.pc.Check? then (if s.counter == bound then UnlockAndBreak else Bump)
                 else if me.pc.Read? then Write(s.counter) else Unlock;
      s.(counter := if me.pc.Write? then me.pc.r + 1 else s.counter,
         log := s.log + [Access(me.pc.Write?, 0, 0, me.hb, t)],
         threads := s.threads[t := me.(pc := pc', hb := me.hb + {|s.log|})])
    case Release =>
      var me' := if me.pc.Unlock? then me.(pc := Test, n := me.n + 1, samples := me.samples + 1, seen := |s.flag|)
                 else me.(pc := Done(true), seen := |s.flag|);
      s.(flag := s.flag + [Msg(0, me.hb, t)], threads := s.threads[t := me'], holder := s.holder - {t})
  }

  datatype Label = Label(thread: nat, step: Step)

  predicate Legal(bound: nat, s: State, ls: seq<Label>)
    decreases |ls|
  {
    ls == [] || (Enabled(s, ls[0].thread, ls[0].step)
      && Legal(bound, Exec(bound, s, ls[0].thread, ls[0].step), ls[1..]))
  }

  function Run(bound: nat, s: State, ls: seq<Label>): State
    requires Legal(bound, s, ls)
    decreases |ls|
  {
    if ls == [] then s else Run(bound, Exec(bound, s, ls[0].thread, ls[0].step), ls[1..])
  }

  // ---------------------------------------------------------------- invariant

  function Acquired(u: Thread): int { u.acquired }

  /** Counted in acquired, not yet in counter. */
  function InFlight(u: Thread): int { if u.pc.Read? || u.pc.Write? then 1 else 0 }

  /** Locks taken: one per acquisition, and one that found the bound reached or is still deciding. */
  function Locked(u: Thread): int {
    u.acquired + (if u.pc.Check? || u.pc.Bump? || u.pc.UnlockAndBreak? || u.pc == Done(true) then 1 else 0)
  }

  ghost predicate ThreadInv(bound: nat, s: State, t: nat)
    requires t < |s.threads|
  {
    var u := s.threads[t];
    && u.samples == u.n <= bound
    && u.acquired == u.n + (if u.pc.Read? || u.pc.Write? || u.pc.Unlock? then 1 else 0)
    && u.seen < |s.flag|
    && (Critical(u.pc) <==> s.holder == {t})
    && (Critical(u.pc) ==> Known(s.log, 0, u.hb) && u.seen == |s.flag| - 1)
    && match u.pc
       case Test => true
       case Lock => u.n < bound
       case Check => u.n < bound
       case Bump => u.n < bound && s.counter < bound
       case Read => u.n < bound && s.counter < bound
       case Write(r) => u.n < bound && s.counter < bound && r == s.counter
       case Unlock => u.n < bound
       case UnlockAndBreak => s.counter == bound
       case Done(broke) => if broke then s.counter == bound else u.n == bound
  }

  ghost predicate Inv(bound: nat, s: State) {
    && |s.flag| >= 1
    && (forall i | 0 <= i < |s.flag| :: s.flag[i].val == i % 2)
    && (forall e | 0 <= e < |s.log| :: s.log[e].cell == 0)
    && ((|s.flag| - 1) % 2 == 0 ==> s.holder == {} && Known(s.log, 0, s.flag[|s.flag| - 1].hb))
    && ((|s.flag| - 1) % 2 == 1 ==> exists t :: 0 <= t < |s.threads| && s.holder == {t})
    && (forall t: nat | t < |s.threads| :: ThreadInv(bound, s, t))
    && s.counter == Sum(Acquired, s.threads) - Sum(InFlight, s.threads)
    && s.locks == Sum(Locked, s.threads)
    && 0 <= s.counter <= bound
    && RaceFree(s.log)
  }

  lemma {:induction false} InitInv(bound: nat, t: nat)
    ensures Inv(bound, Init(t))
  {
    SumConst(Acquired, Init(t).threads, 0);
    SumConst(InFlight, Init(t).threads, 0);
    SumConst(Locked, Init(t).threads, 0);
  }

  /** The sums after a step of thread t. */
  lemma {:induction false} SumsAfter(bound: nat, s: State, t: nat, a: Step)
    requires Enabled(s, t, a)
    ensures var s' := Exec(bound, s, t, a);
            && Sum(Acquired, s'.threads) == Sum(Acquired, s.threads) - Acquired(s.threads[t]) + Acquired(s'.threads[t])
            && Sum(InFlight, s'.threads) == Sum(InFlight, s.threads) - InFlight(s.threads[t]) + InFlight(s'.threads[t])
            && Sum(Locked, s'.threads) == Sum(Locked, s.threads) - Locked(s.threads[t]) + Locked(s'.threads[t])
  {
    var u := Exec(bound, s, t, a).threads[t];
    SumUpdate(Acquired, s.threads, t, u);
    SumUpdate(InFlight, s.threads, t, u);
    SumUpdate(Locked, s.threads, t, u);
  }

  lemma {:induction false} OutsideStep(bound: nat, s: State, t: nat, a: Step)
    requires Inv(bound, s) && Enabled(s, t, a) && (a.Local? || a.CasFail?)
    ensures Inv(bound, Exec(bound, s, t, a))
  {
    var s' := Exec(bound, s, t, a);
    assert ThreadInv(bound, s, t);
    SumsAfter(bound, s, t, a);
    forall u: nat | u < |s'.threads|
      ensures ThreadInv(bound, s', u)
    {
      assert ThreadInv(bound, s, u);
    }
  }

  lemma {:induction false} TakeStep(bound: nat, s: State, t: nat, a: Step)
    requires Inv(bound, s) && Enabled(s, t, a) && a.CasOk?
    ensures Inv(bound, Exec(bound, s, t, a))
  {
    var s' := Exec(bound, s, t, a);
    assert ThreadInv(bound, s, t);
    SumsAfter(bound, s, t, a);
    forall u: nat | u < |s'.threads|
      ensures ThreadInv(bound, s', u)
    {
      assert ThreadInv(bound, s, u);
    }
  }

  lemma {:induction false} TouchStep(bound: nat, s: State, t: nat, a: Step)
    requires Inv(bound, s) && Enabled(s, t, a) && a.Touch?
    ensures Inv(bound, Exec(bound, s, t, a))
  {
    var s' := Exec(bound, s, t, a);
    assert ThreadInv(bound, s, t);
    SumsAfter(bound, s, t, a);
    forall u: nat | u < |s'.threads|
      ensures ThreadInv(bound, s', u)
    {
      assert ThreadInv(bound, s, u);
    }
  }

  lemma {:induction false} FreeStep(bound: nat, s: State, t: nat, a: Step)
    requires Inv(bound, s) && Enabled(s, t, a) && a.Release?
    ensures Inv(bound, Exec(bound, s, t, a))
  {
    var s' := Exec(bound, s, t, a);
    assert ThreadInv(bound, s, t);
    SumsAfter(bound, s, t, a);
    forall u: nat | u < |s'.threads|
      ensures ThreadInv(bound, s', u)
    {
      assert ThreadInv(bound, s, u);
    }
  }

  /** Every step keeps the invariant; in particular at most one thread is between its successful
      compare-exchange and its unlocking store. */
  lemma {:induction false} StepInv(bound: nat, s: State, t: nat, a: Step)
    requires Inv(bound, s) && Enabled(s, t, a)
    ensures Inv(bound, Exec(bound, s, t, a))
  {
    match a
    case CasOk => TakeStep(bound, s, t, a);
    case Touch => TouchStep(bound, s, t, a);
    case Release => FreeStep(bound, s, t, a);
    case _ => OutsideStep(bound, s, t, a);
  }

  /** Why stores go last in the flag's modification order: the thread that unlocks has written the
      message that is last, and a successful compare-exchange reads the last one by definition. */
  lemma {:induction false} StoreGoesLast(bound: nat, s: State, t: nat)
    requires Inv(bound, s) && Enabled(s, t, Release)
    ensures s.threads[t].seen == |s.flag| - 1
  {
    assert ThreadInv(bound, s, t);
  }

  lemma {:induction false} RunInv(bound: nat, s: State, ls: seq<Label>)
    requires Inv(bound, s) && Legal(bound, s, ls)
    ensures Inv(bound, Run(bound, s, ls))
    decreases |ls|
  {
    if ls != [] {
      StepInv(bound, s, ls[0].thread, ls[0].step);
      RunInv(bound, Exec(bound, s, ls[0].thread, ls[0].step), ls[1..]);
    }
  }

  ghost predicate PastOnly(s: State) {
    && KnownIsPast(s.log)
    && (forall t | 0 <= t < |s.threads| :: Past(s.log, s.threads[t].hb))
    && (forall i | 0 <= i < |s.flag| :: Past(s.log, s.flag[i].hb))
  }

  /** The happens-before sets of the machine only ever look back. */
  lemma {:induction false} RunPast(bound: nat, s: State, ls: seq<Label>)
    requires PastOnly(s) && Legal(bound, s, ls)
    ensures PastOnly(Run(bound, s, ls))
    decreases |ls|
  {
    if ls != [] {
      StepPast(bound, s, ls[0].thread, ls[0].step);
      RunPast(bound, Exec(bound, s, ls[0].thread, ls[0].step), ls[1..]);
    }
  }

  lemma {:induction false} StepPast(bound: nat, s: State, t: nat, a: Step)
    requires PastOnly(s) && Enabled(s, t, a)
    ensures PastOnly(Exec(bound, s, t, a))
  {
  }

  // ---------------------------------------------------------------- what happens before what

  ghost predicate Own(s: State, t: nat, e: nat) { e < |s.log| && s.log[e].tid == t }

  /** Published by the unlocking store that one of the thread's successful compare-exchanges read. */
  ghost predicate Synchronized(flag: seq<Msg>, t: nat, e: nat) {
    exists i: nat :: TookAt(flag, t, i) && e in flag[i - 1].hb
  }

  ghost predicate TookAt(flag: seq<Msg>, t: nat, i: nat) {
    1 <= i < |flag| && flag[i].val == 1 && flag[i].tid == t
  }

  ghost predicate ThreadOrder(s: State, t: nat)
    requires t < |s.threads|
  {
    forall e: nat :: e in s.threads[t].hb <==> Own(s, t, e) || Synchronized(s.flag, t, e)
  }

  ghost predicate MessageOrder(s: State, i: nat)
    requires 1 <= i < |s.flag| && s.flag[i].tid < |s.threads|
  {
    if s.flag[i].val == 1 then s.flag[i].hb == s.flag[i - 1].hb else s.flag[i].hb <= s.threads[s.flag[i].tid].hb
  }

  /** A thread is ordered after exactly its own accesses and what the stores publish that its successful
      compare-exchanges read; a failing one, relaxed, orders nothing. A lock passes on what it read
      (its release sequence), an unlock publishes no more than its thread knows. */
  ghost predicate Order(s: State) {
    && PastOnly(s) && s.flag != [] && s.flag[0].hb == {}
    && (forall t: nat | t < |s.threads| :: ThreadOrder(s, t))
    && (forall i | 1 <= i < |s.flag| :: s.flag[i].tid < |s.threads| && MessageOrder(s, i))
    && (forall j | 0 <= j < |s.log| :: s.log[j].tid < |s.threads| && s.log[j].known <= s.threads[s.log[j].tid].hb)
  }

  lemma {:induction false} SynchronizedAppend(flag: seq<Msg>, m: Msg, t: nat, e: nat)
    requires flag != []
    ensures Synchronized(flag + [m], t, e) <==>
              Synchronized(flag, t, e) || (m.val == 1 && m.tid == t && e in flag[|flag| - 1].hb)
  {
    forall i: nat
      ensures TookAt(flag + [m], t, i) <==> TookAt(flag, t, i) || (i == |flag| && m.val == 1 && m.tid == t)
    {
    }
    if m.val == 1 && m.tid == t { assert TookAt(flag + [m], t, |flag|); }
  }

  lemma {:induction false} ThreadOrderStep(bound: nat, s: State, t: nat, a: Step, u: nat)
    requires Order(s) && Enabled(s, t, a) && u < |s.threads|
    ensures ThreadOrder(Exec(bound, s, t, a), u)
  {
    var s' := Exec(bound, s, t, a);
    assert ThreadOrder(s, u);
    forall e: nat
      ensures e in s'.threads[u].hb <==> Own(s', u, e) || Synchronized(s'.flag, u, e)
    {
      assert Own(s', u, e) <==> Own(s, u, e) || (a.Touch? && u == t && e == |s.log|);
      if a.CasOk? || a.Release? { SynchronizedAppend(s.flag, s'.flag[|s.flag|], u, e); }
    }
  }

  lemma {:induction false} OrderStep(bound: nat, s: State, t: nat, a: Step)
    requires Order(s) && Enabled(s, t, a)
    ensures Order(Exec(bound, s, t, a))
  {
    var s' := Exec(bound, s, t, a);
    StepPast(bound, s, t, a);
    forall u: nat | u < |s'.threads|
      ensures ThreadOrder(s', u)
    {
      ThreadOrderStep(bound, s, t, a, u);
    }
    forall i | 1 <= i < |s'.flag|
      ensures s'.flag[i].tid < |s'.threads| && MessageOrder(s', i)
    {
      assert i < |s.flag| ==> s.flag[i].tid < |s.threads| && MessageOrder(s, i);
    }
  }

  lemma {:induction false} OrderRun(bound: nat, s: State, ls: seq<Label>)
    requires Order(s) && Legal(bound, s, ls)
    ensures Order(Run(bound, s, ls))
    decreases |ls|
  {
    if ls != [] {
      OrderStep(bound, s, ls[0].thread, ls[0].step);
      OrderRun(bound, Exec(bound, s, ls[0].thread, ls[0].step), ls[1..]);
    }
  }

  lemma {:induction false} OrderExact(bound: nat, threads: nat, ls: seq<Label>)
    requires Legal(bound, Init(threads), ls)
    ensures Order(Run(bound, Init(threads), ls))
  {
    OrderRun(bound, Init(threads), ls);
  }

  /** In every run of any number of threads: mutual exclusion, no race on the counter, the counter
      never passes the bound and is the sum of the acquisitions outside the critical section, and
      the lock is taken at most once per increment plus once per thread. */
  lemma {:induction false} EveryRun(bound: nat, threads: nat, ls: seq<Label>)
    requires Legal(bound, Init(threads), ls)
    ensures var s := Run(bound, Init(threads), ls);
            && |s.threads| == threads
            && (forall t, u | 0 <= t < u < threads :: !(Critical(s.threads[t].pc) && Critical(s.threads[u].pc)))
            && RaceFree(s.log) && KnownIsPast(s.log)
            && s.counter <= bound
            && (s.holder == {} ==> s.counter == Sum(Acquired, s.threads))
            && s.locks <= bound + threads
  {
    InitInv(bound, threads);
    RunInv(bound, Init(threads), ls);
    ThreadsStay(bound, Init(threads), ls);
    RunPast(bound, Init(threads), ls);
    var s := Run(bound, Init(threads), ls);
    forall t, u | 0 <= t < u < threads
      ensures !(Critical(s.threads[t].pc) && Critical(s.threads[u].pc))
    {
      assert ThreadInv(bound, s, t);
      assert ThreadInv(bound, s, u);
    }
    AcquiredWithin(bound, s);
    SumWithin(Acquired, Locked, s.threads, 1);
    if s.holder == {} {
      forall u | u in s.threads
        ensures InFlight(u) == 0
      {
        var i :| 0 <= i < |s.threads| && s.threads[i] == u;
        assert ThreadInv(bound, s, i);
      }
      SumConst(InFlight, s.threads, 0);
    }
  }

  lemma {:induction false} ThreadsStay(bound: nat, s: State, ls: seq<Label>)
    requires Legal(bound, s, ls)
    ensures |Run(bound, s, ls).threads| == |s.threads|
    decreases |ls|
  {
    if ls != [] { ThreadsStay(bound, Exec(bound, s, ls[0].thread, ls[0].step), ls[1..]); }
  }

  /** At most the bound many acquisitions, also while one of them is not yet in the counter. */
  lemma {:induction false} AcquiredWithin(bound: nat, s: State)
    requires Inv(bound, s)
    ensures Sum(Acquired, s.threads) <= bound
  {
    if h: nat :| h < |s.threads| && InFlight(s.threads[h]) == 1 {
      assert ThreadInv(bound, s, h);
      OneInFlight(bound, s, h);
    } else {
      SumConst(InFlight, s.threads, 0);
    }
  }

  lemma {:induction false} OneInFlight(bound: nat, s: State, h: nat)
    requires Inv(bound, s) && h < |s.threads| && InFlight(s.threads[h]) == 1
    ensures Sum(InFlight, s.threads) == 1
  {
    var parked := Thread(Test, 0, 0, 0, 0, {});
    var others := s.threads[h := parked];
    assert ThreadInv(bound, s, h);
    forall u | u in others
      ensures InFlight(u) == 0
    {
      var i :| 0 <= i < |others| && others[i] == u;
      assert ThreadInv(bound, s, i);
    }
    SumConst(InFlight, others, 0);
    SumUpdate(InFlight, s.threads, h, parked);
  }

  /** When all threads have finished, the exit check succeeds: the counter is the bound, every
      thread has one sample per acquisition, and they add up to the bound. */
  lemma {:induction false} AtTheEnd(bound: nat, threads: nat, ls: seq<Label>)
    requires threads >= 1 && Legal(bound, Init(threads), ls)
    requires forall u | u in Run(bound, Init(threads), ls).threads :: u.pc.Done?
    ensures var s := Run(bound, Init(threads), ls);
            && s.counter == bound == Sum(Acquired, s.threads)
            && (forall u | u in s.threads :: u.samples == u.acquired)
  {
    InitInv(bound, threads);
    RunInv(bound, Init(threads), ls);
    ThreadsStay(bound, Init(threads), ls);
    var s := Run(bound, Init(threads), ls);
    forall u | u in s.threads
      ensures u.samples == u.acquired
    {
      var i :| 0 <= i < |s.threads| && s.threads[i] == u;
      assert ThreadInv(bound, s, i);
    }
    SumConst(InFlight, s.threads, 0);
    assert ThreadInv(bound, s, 0);
    PartOfSum(s.threads);
  }

  lemma {:induction false} PartOfSum(us: seq<Thread>)
    requires us != []
    ensures us[0].acquired <= Sum(Acquired, us)
  {
    SumAtLeastZero(Acquired, us[1..]);
  }

  /** What a thread still has to do, when nobody gets in its way. */
  function Work(bound: nat, u: Thread): int {
    10 * (bound - u.n) +
    match u.pc
    case Test => 9 case Lock => 8 case Check => 7 case Bump => 6 case Read => 5 case Write(_) => 4
    case Unlock => 3 case UnlockAndBreak => 2 case Done(_) => 0
  }

  lemma {:induction false} NextMove(bound: nat, s: State, t: nat) returns (a: Step)
    requires Inv(bound, s) && t < |s.threads| && !s.threads[t].pc.Done? && (s.holder == {} || s.holder == {t})
    ensures Enabled(s, t, a) && Work(bound, Exec(bound, s, t, a).threads[t]) < Work(bound, s.threads[t])
    ensures Exec(bound, s, t, a).threads == s.threads[t := Exec(bound, s, t, a).threads[t]]
  {
    assert ThreadInv(bound, s, t);
    match s.threads[t].pc
    case Test => a := Local;
    case Bump => a := Local;
    case Lock => a := CasOk;
    case Unlock => a := Release;
    case UnlockAndBreak => a := Release;
    case _ => a := Touch;
  }

  lemma {:induction false} WorkNonNegative(bound: nat, s: State)
    requires Inv(bound, s)
    ensures Sum((u: Thread) => Work(bound, u), s.threads) >= 0
  {
    forall u | u in s.threads
      ensures Work(bound, u) >= 0
    {
      var i :| 0 <= i < |s.threads| && s.threads[i] == u;
      assert ThreadInv(bound, s, i);
    }
    SumAtLeastZero((u: Thread) => Work(bound, u), s.threads);
  }

  /** No deadlock: from every reachable state all threads can finish; a thread inside the critical
      section can always leave it. */
  lemma {:induction false} CanFinish(bound: nat, s: State) returns (ls: seq<Label>)
    requires Inv(bound, s)
    ensures Legal(bound, s, ls) && forall u | u in Run(bound, s, ls).threads :: u.pc.Done?
    decreases Sum((u: Thread) => Work(bound, u), s.threads)
  {
    if forall u | u in s.threads :: u.pc.Done? { return []; }
    var t := Runnable(bound, s);
    var a := NextMove(bound, s, t);
    var s' := Exec(bound, s, t, a);
    StepInv(bound, s, t, a);
    SumUpdate((u: Thread) => Work(bound, u), s.threads, t, s'.threads[t]);
    WorkNonNegative(bound, s);
    WorkNonNegative(bound, s');
    var rest := CanFinish(bound, s');
    ls := [Label(t, a)] + rest;
    assert ls[1..] == rest;
  }

  lemma {:induction false} Runnable(bound: nat, s: State) returns (t: nat)
    requires Inv(bound, s) && exists u :: u in s.threads && !u.pc.Done?
    ensures t < |s.threads| && !s.threads[t].pc.Done? && (s.holder == {} || s.holder == {t})
  {
    if s.holder == {} {
      var u :| u in s.threads && !u.pc.Done?;
      t :| t < |s.threads| && s.threads[t] == u;
    } else {
      t :| 0 <= t < |s.threads| && s.holder == {t};
      assert ThreadInv(bound, s, t);
    }
  }

  /** The acquiring loop has no bound: a thread alone, with the lock free, may fail for no reason any number
      of times. */
  lemma {:induction false} SpinsOn(bound: nat, s: State, t: nat, k: nat) returns (ls: seq<Label>)
    requires t < |s.threads| && s.threads[t].pc.Lock? && s.threads[t].seen < |s.flag|
    ensures Legal(bound, s, ls) && |ls| == k && Run(bound, s, ls) == s
    decreases k
  {
    if k == 0 { return []; }
    var a := CasFail(s.threads[t].seen);
    assert s.threads[t := s.threads[t].(seen := s.threads[t].seen)] == s.threads;
    var rest := SpinsOn(bound, s, t, k - 1);
    ls := [Label(t, a)] + rest;
    assert ls[1..] == rest;
  }
}
