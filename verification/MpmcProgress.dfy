/** Lock-freedom of the MPMC queue, under sequential consistency and a compare-exchange that does
    not fail spuriously. A thread's rank is how many of its own steps its call still needs if no
    other claim succeeds; a successful claim can set each other thread back by at most two. */
module MpmcProgress {
  import opened Bits
  import opened Common
  import opened MpmcMachine
  import opened MpmcInvariant
  import opened MpmcSteps
  import opened MpmcTheorems
  import opened Sums

  /** e and d: the live counters. A position is stale when its counter has moved on. */
  function Rank<T>(pc: Pc<T>, e: int, d: int): nat {
    match pc
    case Idle(_) => 0
    case PushPublish(_, _) => 1
    case PushWrite(_, _) => 2
    case PushCas(_, pos) => if pos == e then 3 else 5
    case PushSeq(_, pos) => if pos == e then 4 else 6
    case PushPos(_) => 5
    case PopPublish(_, _) => 1
    case PopRead(_) => 2
    case PopCas(pos) => if pos == d then 3 else 5
    case PopSeq(pos) => if pos == d then 4 else 6
    case PopPos => 5
  }

  ghost function RankOf<T>(s: State<T>, t: nat): nat
    requires t < |s.threads|
  {
    Rank(s.threads[t].pc, E(s), D(s))
  }

  predicate Begins<T>(a: Step<T>) { a.BeginPush? || a.BeginPop? }

  lemma {:induction false} LoadLowersRank<T>(p: Params, s: State<T>, t: nat, i: nat)
    requires Inv(p, s) && Enabled(p, s, t, LoadSeq(i)) && Newest(p, s, t, LoadSeq(i))
    ensures RankOf(Exec(p, s, t, LoadSeq(i)), t) < RankOf(s, t)
  {
    LoadSeqBranch(p, s, t, i);
    var pos := s.threads[t].pc.pos;
    if s.threads[t].pc.PushSeq? { SlotOfPush(p, s, pos); } else { SlotOfPop(p, s, pos); }
  }

  /** One step of a call under way lowers its thread's rank: no step is wasted unless another
      thread's claim made the position stale since it was loaded. */
  lemma {:induction false} StepLowersRank<T>(p: Params, s: State<T>, t: nat, a: Step<T>)
    requires Inv(p, s) && Enabled(p, s, t, a) && Newest(p, s, t, a) && !Begins(a)
    ensures RankOf(Exec(p, s, t, a), t) < RankOf(s, t)
  {
    if a.LoadSeq? {
      LoadLowersRank(p, s, t, a.at);
    } else {
      assert ThreadInv(p, s, t);
    }
  }

  // ---------------------------------------------------------------- who is to blame for a retry

  /** A turn of the loop that ends without a claim: the compare-exchange fails, or the sequence sends
      the call back to load its position again. */
  predicate Retries<T>(p: Params, s: State<T>, t: nat, a: Step<T>)
    requires Enabled(p, s, t, a)
  {
    || a.CasFail?
    || (a.LoadSeq? && !Exec(p, s, t, a).fault
        && (Exec(p, s, t, a).threads[t].pc.PushPos? || Exec(p, s, t, a).threads[t].pc.PopPos?))
  }

  /** A compare-exchange that fails for no reason reads the value it expected. */
  predicate Spurious<T>(p: Params, s: State<T>, t: nat, a: Step<T>)
    requires Enabled(p, s, t, a)
  {
    a.CasFail? && (if s.threads[t].pc.PushCas? then s.enq else s.deq)[a.at] == s.threads[t].pc.pos
  }

  /** A thread has seen its own claims; the position it works on is the newest it has seen. */
  ghost predicate OwnSeen<T>(s: State<T>, t: nat)
    requires t < |s.threads|
  {
    var me := s.threads[t];
    && (forall k | 0 <= k < |s.pushes| && s.pushes[k].tid == t :: k < me.seenEnq)
    && (forall k | 0 <= k < |s.pops| && s.pops[k].tid == t :: k < me.seenDeq)
    && (me.pc.PushSeq? || me.pc.PushCas? ==> me.pc.pos == me.seenEnq)
    && (me.pc.PopSeq? || me.pc.PopCas? ==> me.pc.pos == me.seenDeq)
  }

  lemma {:induction false} OwnSeenInit<T>(p: Params, buf: seq<T>, n: nat, t: nat)
    requires t < n
    ensures OwnSeen(Init(p, buf, n), t)
  {
  }

  lemma {:induction false} OwnSeenOwnStep<T>(p: Params, s: State<T>, t: nat, a: Step<T>)
    requires Inv(p, s) && Enabled(p, s, t, a) && OwnSeen(s, t)
    ensures OwnSeen(Exec(p, s, t, a), t)
  {
    assert ThreadInv(p, s, t);
  }

  lemma {:induction false} OwnSeenStep<T>(p: Params, s: State<T>, t: nat, a: Step<T>, u: nat)
    requires Inv(p, s) && Enabled(p, s, t, a) && u < |s.threads| && OwnSeen(s, u)
    ensures OwnSeen(Exec(p, s, t, a), u)
  {
    if t == u {
      OwnSeenOwnStep(p, s, t, a);
    } else if a.Publish? {
      assert ThreadInv(p, s, t);
    }
  }

  lemma {:induction false} OwnSeenRun<T>(p: Params, s: State<T>, ls: seq<Label<T>>, u: nat)
    requires Inv(p, s) && Legal(p, s, ls) && E(Run(p, s, ls)) + p.cap <= p.Half()
    requires u < |s.threads| && OwnSeen(s, u)
    ensures u < |Run(p, s, ls).threads| && OwnSeen(Run(p, s, ls), u)
    decreases |ls|
  {
    if ls != [] {
      var s' := Exec(p, s, ls[0].thread, ls[0].step);
      EnqueueGrows(p, s', ls[1..]);
      StepInv(p, s, ls[0].thread, ls[0].step);
      OwnSeenStep(p, s, ls[0].thread, ls[0].step, u);
      OwnSeenRun(p, s', ls[1..], u);
    }
  }

  /** It works on a position. */
  predicate Overtakable<T>(pc: Pc<T>) { !pc.Idle? && !pc.PushPos? && !pc.PopPos? }

  /** Another thread holds the claim of the position that t works on. */
  ghost predicate Overtaken<T>(s: State<T>, t: nat)
    requires t < |s.threads| && Overtakable(s.threads[t].pc)
  {
    var pos := s.threads[t].pc.pos;
    if InPush(s.threads[t].pc) then pos < |s.pushes| && s.pushes[pos].tid != t
    else pos < |s.pops| && s.pops[pos].tid != t
  }

  /** In every run: a retry that is not spurious gives up a position that somebody else has claimed. */
  lemma {:induction false} EveryRetry<T>(p: Params, buf: seq<T>, n: nat, ls: seq<Label<T>>, t: nat, a: Step<T>)
    requires p.Ok() && p.cap >= 2 && |buf| == p.cap && Legal(p, Init(p, buf, n), ls) && t < n
    requires E(Run(p, Init(p, buf, n), ls)) + p.cap <= p.Half()
    requires var s := Run(p, Init(p, buf, n), ls); Enabled(p, s, t, a) && Retries(p, s, t, a) && !Spurious(p, s, t, a)
    ensures var s := Run(p, Init(p, buf, n), ls); t < |s.threads| && Overtakable(s.threads[t].pc) && Overtaken(s, t)
  {
    EnqueueGrows(p, Init(p, buf, n), ls);
    InitInv(p, buf, n);
    OwnSeenInit(p, buf, n, t);
    RunInv(p, Init(p, buf, n), ls);
    OwnSeenRun(p, Init(p, buf, n), ls, t);
    RetryMeansClaim(p, Run(p, Init(p, buf, n), ls), t, a);
  }

  /** Every retry that is not spurious is another thread's success: the position it gives up has been
      claimed by somebody else. Stale loads do not change that. */
  lemma {:induction false} RetryMeansClaim<T>(p: Params, s: State<T>, t: nat, a: Step<T>)
    requires Inv(p, s) && Enabled(p, s, t, a) && OwnSeen(s, t)
    requires Retries(p, s, t, a) && !Spurious(p, s, t, a)
    ensures Overtaken(s, t)
  {
    assert ThreadInv(p, s, t);
    if a.LoadSeq? {
      var pos := s.threads[t].pc.pos;
      LoadSeqBranch(p, s, t, a.at);
      assert SlotInv(p, s, pos % p.cap);
      if s.threads[t].pc.PushSeq? { SlotOfPush(p, s, pos); } else { SlotOfPop(p, s, pos); }
    }
  }

  /** And it was claimed after the call loaded it, if that load read the newest value. */
  lemma {:induction false} RetryMeansLaterClaim<T>(p: Params, s: State<T>, ls: seq<Label<T>>, t: nat, a: Step<T>)
    requires Inv(p, s) && t < |s.threads| && OwnSeen(s, t)
    requires s.threads[t].pc.PushSeq? || s.threads[t].pc.PopSeq?
    requires s.threads[t].pc.pos == if s.threads[t].pc.PushSeq? then E(s) else D(s)
    requires Legal(p, s, ls) && E(Run(p, s, ls)) + p.cap <= p.Half()
    requires var s' := Run(p, s, ls);
             && Enabled(p, s', t, a) && Retries(p, s', t, a) && !Spurious(p, s', t, a)
             && s'.threads[t].pc.pos == s.threads[t].pc.pos && InPush(s'.threads[t].pc) == InPush(s.threads[t].pc)
    ensures var s' := Run(p, s, ls); var pos := s.threads[t].pc.pos;
            if InPush(s.threads[t].pc) then |s.pushes| <= pos < |s'.pushes| && s'.pushes[pos].tid != t
            else |s.pops| <= pos < |s'.pops| && s'.pops[pos].tid != t
  {
    EnqueueGrows(p, s, ls);
    RunInv(p, s, ls);
    OwnSeenRun(p, s, ls, t);
    RetryMeansClaim(p, Run(p, s, ls), t, a);
  }

  // ---------------------------------------------------------------- a thread alone

  ghost predicate AllNewest<T>(p: Params, s: State<T>, ls: seq<Label<T>>)
    requires Legal(p, s, ls)
    decreases |ls|
  {
    ls == [] || (Newest(p, s, ls[0].thread, ls[0].step) && AllNewest(p, Exec(p, s, ls[0].thread, ls[0].step), ls[1..]))
  }

  lemma {:induction false} SlotThere<T>(p: Params, s: State<T>, t: nat)
    requires Inv(p, s) && t < |s.threads|
    requires var pc := s.threads[t].pc; Owner(pc) || pc.PushSeq? || pc.PopSeq?
    ensures SlotsOk(p, s, t, s.threads[t].pc.pos)
    ensures var c := p.Slot(s.threads[t].pc.pos); |s.seqs[c]| >= 1 && s.threads[t].seenSeq[c] < |s.seqs[c]|
  {
    assert ThreadInv(p, s, t);
    Widths(p);
    SlotIsMod(p, s.threads[t].pc.pos);
    assert SlotInv(p, s, s.threads[t].pc.pos % p.cap);
  }

  /** A thread whose call is under way always has a next step. */
  lemma {:induction false} NeverStuck<T>(p: Params, s: State<T>, t: nat) returns (a: Step<T>)
    requires Inv(p, s) && t < |s.threads| && !s.threads[t].pc.Idle?
    ensures Enabled(p, s, t, a) && Newest(p, s, t, a) && !Begins(a)
  {
    var pc := s.threads[t].pc;
    if Owner(pc) {
      SlotThere(p, s, t);
      a := if pc.PushWrite? || pc.PopRead? then Touch else Publish;
    } else if pc.PushSeq? || pc.PopSeq? {
      SlotThere(p, s, t);
      a := LoadSeq(|s.seqs[p.Slot(pc.pos)]| - 1);
    } else {
      assert ThreadInv(p, s, t);
      var n := if InPush(pc) then E(s) else D(s);
      a := if pc.PushPos? || pc.PopPos? then LoadPos(n) else if pc.pos == n then CasOk else CasFail(n);
    }
  }

  /** Whatever the other threads were doing when they stopped, a thread running alone ends its call
      within six of its steps, which is within two turns of the loop. */
  lemma {:induction false} SoloFinishes<T>(p: Params, s: State<T>, t: nat) returns (ls: seq<Label<T>>)
    requires Inv(p, s) && t < |s.threads| && E(s) + One(InPush(s.threads[t].pc)) + p.cap <= p.Half()
    ensures Legal(p, s, ls) && AllNewest(p, s, ls) && |ls| <= RankOf(s, t) <= 6
    ensures forall l | l in ls :: l.thread == t && !Begins(l.step)
    ensures t < |Run(p, s, ls).threads| && Run(p, s, ls).threads[t].pc.Idle?
    decreases RankOf(s, t)
  {
    if s.threads[t].pc.Idle? { return []; }
    var a := NeverStuck(p, s, t);
    var s' := Exec(p, s, t, a);
    StepInv(p, s, t, a);
    StepLowersRank(p, s, t, a);
    var rest;
    if a.CasOk? {
      rest := FinishClaimed(p, s', t);
    } else {
      rest := SoloFinishes(p, s', t);
    }
    ls := [Label(t, a)] + rest;
    assert ls[1..] == rest;
  }

  lemma {:induction false} FinishClaimed<T>(p: Params, s: State<T>, t: nat) returns (ls: seq<Label<T>>)
    requires Inv(p, s) && t < |s.threads| && (Owner(s.threads[t].pc) || s.threads[t].pc.Idle?)
    ensures Legal(p, s, ls) && AllNewest(p, s, ls) && |ls| <= RankOf(s, t)
    ensures forall l | l in ls :: l.thread == t && !Begins(l.step)
    ensures t < |Run(p, s, ls).threads| && Run(p, s, ls).threads[t].pc.Idle?
    decreases RankOf(s, t)
  {
    if s.threads[t].pc.Idle? { return []; }
    var a := NeverStuck(p, s, t);
    StepInv(p, s, t, a);
    var rest := FinishClaimed(p, Exec(p, s, t, a), t);
    ls := [Label(t, a)] + rest;
    assert ls[1..] == rest;
  }

  // ---------------------------------------------------------------- the whole system

  ghost function Total<T>(s: State<T>): int {
    Sum((u: Thread<T>) => Rank(u.pc, E(s), D(s)), s.threads)
  }

  datatype Kind = Begin | Claim | Return | RetryBy(t: nat) | ClaimNotBy(t: nat)
                | ClaimBy(t: nat) | LookBy(t: nat) | FailBy(t: nat)

  /** Calls begun, claims won, calls returned, and one thread's retries and the others' claims. */
  predicate Is<T>(p: Params, s: State<T>, t: nat, a: Step<T>, k: Kind)
    requires Enabled(p, s, t, a)
  {
    match k
    case Begin => Begins(a)
    case Claim => a.CasOk?
    case Return => !s.threads[t].pc.Idle? && Exec(p, s, t, a).threads[t].pc.Idle?
    case RetryBy(u) => t == u && Retries(p, s, t, a)
    case ClaimNotBy(u) => t != u && a.CasOk?
    case ClaimBy(u) => t == u && a.CasOk?
    case LookBy(u) => t == u && a.LoadSeq?
    case FailBy(u) => t == u && a.LoadSeq? && Exec(p, s, t, a).threads[t].pc.Idle?
  }

  ghost function Count<T>(p: Params, s: State<T>, ls: seq<Label<T>>, k: Kind): nat
    requires Legal(p, s, ls)
    decreases |ls|
  {
    if ls == [] then 0
    else One(Is(p, s, ls[0].thread, ls[0].step, k)) + Count(p, Exec(p, s, ls[0].thread, ls[0].step), ls[1..], k)
  }

  /** How far the counter has moved past the position that a thread is trying for. */
  ghost function Behind<T>(s: State<T>, t: nat): int
    requires t < |s.threads|
  {
    match s.threads[t].pc
    case PushSeq(_, pos) => E(s) - pos
    case PushCas(_, pos) => E(s) - pos
    case PopSeq(pos) => D(s) - pos
    case PopCas(pos) => D(s) - pos
    case _ => 0
  }

  lemma {:induction false} BehindOthers<T>(p: Params, s: State<T>, t: nat, a: Step<T>, u: nat)
    requires Inv(p, s) && Enabled(p, s, t, a) && u < |s.threads| && t != u
    ensures Behind(Exec(p, s, t, a), u) <= Behind(s, u) + One(a.CasOk?)
  {
  }

  lemma {:induction false} BehindLoad<T>(p: Params, s: State<T>, t: nat, i: nat)
    requires Inv(p, s) && Enabled(p, s, t, LoadSeq(i)) && Newest(p, s, t, LoadSeq(i))
    ensures One(Retries(p, s, t, LoadSeq(i))) + Behind(Exec(p, s, t, LoadSeq(i)), t) <= Behind(s, t)
  {
    var pos := s.threads[t].pc.pos;
    LoadSeqBranch(p, s, t, i);
    if s.threads[t].pc.PushSeq? { SlotOfPush(p, s, pos); } else { SlotOfPop(p, s, pos); }
  }

  lemma {:induction false} BehindStep<T>(p: Params, s: State<T>, t: nat, a: Step<T>, u: nat)
    requires Inv(p, s) && Enabled(p, s, t, a) && Newest(p, s, t, a) && u < |s.threads|
    ensures One(Is(p, s, t, a, RetryBy(u))) + Behind(Exec(p, s, t, a), u)
              <= Behind(s, u) + One(Is(p, s, t, a, ClaimNotBy(u)))
  {
    if t != u {
      BehindOthers(p, s, t, a, u);
    } else if a.LoadSeq? {
      BehindLoad(p, s, t, a.at);
    } else {
      assert ThreadInv(p, s, t);
    }
  }

  lemma {:induction false} RetriesWithin<T>(p: Params, s: State<T>, ls: seq<Label<T>>, u: nat)
    requires Inv(p, s) && Legal(p, s, ls) && AllNewest(p, s, ls) && E(Run(p, s, ls)) + p.cap <= p.Half()
    requires u < |s.threads|
    ensures u < |Run(p, s, ls).threads|
    ensures Count(p, s, ls, RetryBy(u)) + Behind(Run(p, s, ls), u) <= Behind(s, u) + Count(p, s, ls, ClaimNotBy(u))
    decreases |ls|
  {
    if ls != [] {
      var l, s' := ls[0], Exec(p, s, ls[0].thread, ls[0].step);
      EnqueueGrows(p, s', ls[1..]);
      StepInv(p, s, l.thread, l.step);
      BehindStep(p, s, l.thread, l.step, u);
      RetriesWithin(p, s', ls[1..], u);
    }
  }

  function AtCas<T>(s: State<T>, t: nat): nat
    requires t < |s.threads|
  {
    One(s.threads[t].pc.PushCas? || s.threads[t].pc.PopCas?)
  }

  lemma {:induction false} LookBalance<T>(p: Params, s: State<T>, t: nat, a: Step<T>, u: nat)
    requires Inv(p, s) && Enabled(p, s, t, a) && u < |s.threads|
    ensures AtCas(s, u) + One(Is(p, s, t, a, LookBy(u))) == AtCas(Exec(p, s, t, a), u)
              + One(Is(p, s, t, a, RetryBy(u))) + One(Is(p, s, t, a, ClaimBy(u))) + One(Is(p, s, t, a, FailBy(u)))
    ensures |Exec(p, s, t, a).pushes| + |Exec(p, s, t, a).pops| == |s.pushes| + |s.pops| + One(a.CasOk?)
  {
    StepNoFault(p, s, t, a);
  }

  /** What is counted, in full: claims are the positions claimed, by the thread or by another; and every look
      at a sequence leads to a retry, a claim or a failing return, unless the thread is just about to
      try its compare-exchange. */
  lemma {:induction false} CountsBalance<T>(p: Params, s: State<T>, ls: seq<Label<T>>, u: nat)
    requires Inv(p, s) && Legal(p, s, ls) && E(Run(p, s, ls)) + p.cap <= p.Half() && u < |s.threads|
    ensures u < |Run(p, s, ls).threads|
    ensures Count(p, s, ls, Claim) == Count(p, s, ls, ClaimBy(u)) + Count(p, s, ls, ClaimNotBy(u))
    ensures |Run(p, s, ls).pushes| + |Run(p, s, ls).pops| == |s.pushes| + |s.pops| + Count(p, s, ls, Claim)
    ensures AtCas(s, u) + Count(p, s, ls, LookBy(u)) == AtCas(Run(p, s, ls), u)
              + Count(p, s, ls, RetryBy(u)) + Count(p, s, ls, ClaimBy(u)) + Count(p, s, ls, FailBy(u))
    decreases |ls|
  {
    if ls != [] {
      var l, s' := ls[0], Exec(p, s, ls[0].thread, ls[0].step);
      EnqueueGrows(p, s', ls[1..]);
      StepInv(p, s, l.thread, l.step);
      LookBalance(p, s, l.thread, l.step, u);
      CountsBalance(p, s', ls[1..], u);
    }
  }

  /** Each retry has its own claim to be charged to: in no run does a thread retry more often than the
      other threads together win. */
  lemma {:induction false} RetriesCharged<T>(p: Params, buf: seq<T>, n: nat, ls: seq<Label<T>>, u: nat)
    requires p.Ok() && p.cap >= 2 && |buf| == p.cap && u < n
      && Legal(p, Init(p, buf, n), ls) && AllNewest(p, Init(p, buf, n), ls)
    requires E(Run(p, Init(p, buf, n), ls)) + p.cap <= p.Half()
    ensures Count(p, Init(p, buf, n), ls, RetryBy(u)) <= Count(p, Init(p, buf, n), ls, ClaimNotBy(u))
  {
    var s0 := Init(p, buf, n);
    EnqueueGrows(p, s0, ls);
    InitInv(p, buf, n);
    RetriesWithin(p, s0, ls, u);
    RunInv(p, s0, ls);
    assert ThreadInv(p, Run(p, s0, ls), u);
  }

  /** A step costs one unit of rank, except that beginning a call adds at most five and a claim adds
      at most two per other thread. */
  lemma {:induction false} TotalStep<T>(p: Params, s: State<T>, t: nat, a: Step<T>)
    requires Inv(p, s) && Enabled(p, s, t, a) && Newest(p, s, t, a)
    ensures Total(Exec(p, s, t, a)) + 1 <= Total(s) + 6 * One(Begins(a)) + 2 * |s.threads| * One(a.CasOk?)
  {
    if !Begins(a) { StepLowersRank(p, s, t, a); }
    if a.CasOk? { TotalClaim(p, s, t); } else { TotalQuiet(p, s, t, a); }
  }

  lemma {:induction false} TotalClaim<T>(p: Params, s: State<T>, t: nat)
    requires Inv(p, s) && Enabled(p, s, t, CasOk) && RankOf(Exec(p, s, t, CasOk), t) < RankOf(s, t)
    ensures Total(Exec(p, s, t, CasOk)) + 1 <= Total(s) + 2 * |s.threads|
  {
    var s' := Exec(p, s, t, CasOk);
    var f := (u: Thread<T>) => Rank(u.pc, E(s), D(s));
    var g := (u: Thread<T>) => Rank(u.pc, E(s'), D(s'));
    SumUpdate(f, s.threads, t, s'.threads[t]);
    SumWithin(f, g, s'.threads, 2);
  }

  lemma {:induction false} TotalQuiet<T>(p: Params, s: State<T>, t: nat, a: Step<T>)
    requires Inv(p, s) && Enabled(p, s, t, a) && !a.CasOk?
    requires RankOf(Exec(p, s, t, a), t) + 1 <= RankOf(s, t) + 6 * One(Begins(a))
    ensures Total(Exec(p, s, t, a)) + 1 <= Total(s) + 6 * One(Begins(a))
  {
    var s' := Exec(p, s, t, a);
    var f := (u: Thread<T>) => Rank(u.pc, E(s), D(s));
    var g := (u: Thread<T>) => Rank(u.pc, E(s'), D(s'));
    StepNoFault(p, s, t, a);
    SumUpdate(f, s.threads, t, s'.threads[t]);
    SumSame(f, g, s'.threads);
  }

  lemma {:induction false} StepNoFault<T>(p: Params, s: State<T>, t: nat, a: Step<T>)
    requires Inv(p, s) && Enabled(p, s, t, a)
    ensures !Exec(p, s, t, a).fault
  {
    if a.LoadSeq? { LoadSeqStep(p, s, t, a.at); }
  }

  lemma {:induction false} RunBound<T>(p: Params, s: State<T>, ls: seq<Label<T>>)
    requires Inv(p, s) && Legal(p, s, ls) && AllNewest(p, s, ls) && E(Run(p, s, ls)) + p.cap <= p.Half()
    ensures |ls| + Total(Run(p, s, ls))
              <= Total(s) + 6 * Count(p, s, ls, Begin) + 2 * |s.threads| * Count(p, s, ls, Claim)
    decreases |ls|
  {
    if ls != [] {
      var l, s' := ls[0], Exec(p, s, ls[0].thread, ls[0].step);
      EnqueueGrows(p, s', ls[1..]);
      StepInv(p, s, l.thread, l.step);
      TotalStep(p, s, l.thread, l.step);
      RunBound(p, s', ls[1..]);
      Distribute(2 * |s.threads|, One(l.step.CasOk?), Count(p, s', ls[1..], Claim));
    }
  }

  function InCall<T>(u: Thread<T>): int { One(!u.pc.Idle?) }

  function Unclaimed<T>(u: Thread<T>): int { One(!u.pc.Idle? && !Owner(u.pc)) }

  /** Every call begun is returned or still under way, and claims at most once. */
  lemma {:induction false} CallsBalance<T>(p: Params, s: State<T>, ls: seq<Label<T>>)
    requires Legal(p, s, ls)
    ensures Count(p, s, ls, Begin) + Sum(InCall, s.threads)
      == Count(p, s, ls, Return) + Sum(InCall, Run(p, s, ls).threads)
    ensures Count(p, s, ls, Claim) + Sum(Unclaimed, Run(p, s, ls).threads)
      <= Count(p, s, ls, Begin) + Sum(Unclaimed, s.threads)
    ensures |Run(p, s, ls).threads| == |s.threads|
    decreases |ls|
  {
    if ls != [] {
      var t, a := ls[0].thread, ls[0].step;
      var s' := Exec(p, s, t, a);
      if s'.threads != s.threads {
        assert s'.threads == s.threads[t := s'.threads[t]];
        SumUpdate(InCall, s.threads, t, s'.threads[t]);
        SumUpdate(Unclaimed, s.threads, t, s'.threads[t]);
      }
      CallsBalance(p, s', ls[1..]);
    }
  }

  lemma {:induction false} AtRest<T>(p: Params, buf: seq<T>, n: nat)
    ensures var s := Init(p, buf, n); Total(s) == 0 && Sum(InCall, s.threads) == 0 && Sum(Unclaimed, s.threads) == 0
  {
    var s := Init(p, buf, n);
    SumConst(InCall, s.threads, 0);
    SumConst(Unclaimed, s.threads, 0);
    SumConst((u: Thread<T>) => Rank(u.pc, E(s), D(s)), s.threads, 0);
  }

  lemma {:induction false} AnyTime<T>(s: State<T>)
    ensures Total(s) >= 0 && 0 <= Sum(InCall, s.threads) <= |s.threads| && Sum(Unclaimed, s.threads) >= 0
  {
    SumBounds(InCall, s.threads, 0, 1);
    SumAtLeastZero(Unclaimed, s.threads);
    SumAtLeastZero((u: Thread<T>) => Rank(u.pc, E(s), D(s)), s.threads);
  }

  lemma {:induction false} BoundFromCounts(steps: int, n: nat, begins: nat, claims: nat, done: nat)
    requires steps <= 6 * begins + 2 * n * claims && claims <= begins <= done + n
    ensures steps <= (2 * n + 6) * (done + n)
  {
    Monotone(2 * n, claims, done + n);
    Distribute(done + n, 2 * n, 6);
  }

  /** Lock-freedom: the system as a whole cannot spin. In every run of n threads, under every
      schedule, the number of steps is bounded by the number of calls that have returned: the more
      steps are taken, the more calls complete. */
  lemma {:induction false} LockFree<T>(p: Params, buf: seq<T>, n: nat, ls: seq<Label<T>>)
    requires p.Ok() && p.cap >= 2 && |buf| == p.cap
      && Legal(p, Init(p, buf, n), ls) && AllNewest(p, Init(p, buf, n), ls)
    requires E(Run(p, Init(p, buf, n), ls)) + p.cap <= p.Half()
    ensures |ls| <= (2 * n + 6) * (Count(p, Init(p, buf, n), ls, Return) + n)
  {
    var s0 := Init(p, buf, n);
    EnqueueGrows(p, s0, ls);
    InitInv(p, buf, n);
    RunBound(p, s0, ls);
    CallsBalance(p, s0, ls);
    AtRest(p, buf, n);
    AnyTime(Run(p, s0, ls));
    BoundFromCounts(|ls|, n, Count(p, s0, ls, Begin), Count(p, s0, ls, Claim), Count(p, s0, ls, Return));
  }

  // ---------------------------------------------------------------- a thread that has stopped

  lemma {:induction false} StaysPut<T>(p: Params, s: State<T>, ls: seq<Label<T>>, t: nat)
    requires Legal(p, s, ls) && t < |s.threads| && forall l | l in ls :: l.thread != t
    ensures t < |Run(p, s, ls).threads| && Run(p, s, ls).threads[t] == s.threads[t]
    decreases |ls|
  {
    if ls != [] {
      assert ls[0] in ls;
      StaysPut(p, Exec(p, s, ls[0].thread, ls[0].step), ls[1..], t);
    }
  }

  /** What lock-freedom does not give: calls go on returning, but not succeeding, once a thread has
      stopped between its claim and its store. If it stopped in a push of position k, no run of
      the others ever claims a pop beyond k - 1 or a push beyond k + Capacity - 1. If it stopped in
      the pop of k, they never claim a push beyond k + Capacity - 1. */
  lemma {:induction false} StalledOwner<T>(p: Params, s: State<T>, ls: seq<Label<T>>, t: nat)
    requires Inv(p, s) && Legal(p, s, ls) && E(Run(p, s, ls)) + p.cap <= p.Half()
    requires t < |s.threads| && Owner(s.threads[t].pc) && forall l | l in ls :: l.thread != t
    ensures var s', k := Run(p, s, ls), s.threads[t].pc.pos;
            && D(s') <= E(s') <= k + p.cap
            && (s.threads[t].pc.PushWrite? || s.threads[t].pc.PushPublish? ==> D(s') <= k)
  {
    var s', k := Run(p, s, ls), s.threads[t].pc.pos;
    RunInv(p, s, ls);
    StaysPut(p, s, ls, t);
    assert ThreadInv(p, s', t);
    assert SlotInv(p, s', k % p.cap);
  }

  lemma {:induction false} Monotone(k: nat, a: nat, b: nat)
    requires a <= b
    ensures k * a <= k * b
  {
    MultipleBound(k, b - a);
    Distribute(k, b, a);
  }
}
