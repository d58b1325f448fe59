/** Where the MPMC guarantees stop: Capacity 1, the sign boundary, and failures that are not about
    an empty queue. Every claim comes with a run, sequentially consistent and without spurious
    failures. */
module MpmcLimits {
  import opened Bits
  import opened Memory
  import opened Common
  import opened MpmcMachine
  import opened MpmcInvariant
  import opened MpmcSteps
  import opened MpmcTheorems
  import opened MpmcProgress

  function Last(h: seq<Msg>): Msg
    requires h != []
  {
    h[|h| - 1]
  }

  /** The thread can call, and what it has read so far exists. */
  ghost predicate Ready<T>(p: Params, s: State<T>, t: nat) {
    && p.Ok() && !s.fault && t < |s.threads| && |s.seqs| == p.cap && |s.buf| == p.cap
    && s.enq != [] && s.deq != []
    && var me := s.threads[t];
       && me.pc.Idle? && me.seenEnq < |s.enq| && me.seenDeq < |s.deq| && |me.seenSeq| == p.cap
       && forall c | 0 <= c < p.cap :: me.seenSeq[c] < |s.seqs[c]|
  }

  /** Everything but the given slot, counter and thread is as before. */
  ghost predicate Turn<T>(p: Params, s: State<T>, s': State<T>, t: nat, k: nat, m: nat)
    requires Ready(p, s, t)
  {
    var c := k % p.cap;
    && Ready(p, s', t) && |s'.threads| == |s.threads|
    && (forall u | 0 <= u < |s.threads| && u != t :: s'.threads[u] == s.threads[u])
    && (forall d | 0 <= d < p.cap && d != c :: s'.seqs[d] == s.seqs[d])
    && |s'.seqs[c]| == |s.seqs[c]| + 1 && s'.seqs[c][..|s.seqs[c]|] == s.seqs[c] && Last(s'.seqs[c]).val == m
    && s'.threads[t].seenSeq == s.threads[t].seenSeq[c := |s.seqs[c]|]
  }

  lemma {:induction false} SoloRun<T>(p: Params, s: State<T>, t: nat, a: Step<T>, rest: seq<Label<T>>)
    requires Enabled(p, s, t, a) && Newest(p, s, t, a)
    requires Legal(p, Exec(p, s, t, a), rest) && AllNewest(p, Exec(p, s, t, a), rest)
    ensures var ls := [Label(t, a)] + rest;
            Legal(p, s, ls) && AllNewest(p, s, ls) && Run(p, s, ls) == Run(p, Exec(p, s, t, a), rest)
  {
    assert ([Label(t, a)] + rest)[1..] == rest;
  }

  /** Writing and publishing position k, once claimed. */
  lemma {:induction false} FinishPush<T>(p: Params, s: State<T>, t: nat, k: nat) returns (ls: seq<Label<T>>)
    requires p.Ok() && t < |s.threads| && s.threads[t].pc.PushWrite? && s.threads[t].pc.pos == k
    requires k + 1 < p.Half() && |s.seqs| == |s.buf| == |s.threads[t].seenSeq| == p.cap && !s.fault
    ensures Legal(p, s, ls) && AllNewest(p, s, ls)
    ensures var s' := Run(p, s, ls); var c := k % p.cap; var me := s.threads[t];
            && s'.enq == s.enq && s'.deq == s.deq && s'.pushes == s.pushes && s'.pops == s.pops && !s'.fault
            && s'.buf == s.buf[c := me.pc.item]
            && s'.seqs == s.seqs[c := s.seqs[c] + [Msg(k + 1, me.hb + {|s.log|}, t)]]
            && s'.threads == s.threads[t := me.(pc := Idle(Pushed),
               seenSeq := me.seenSeq[c := |s.seqs[c]|], hb := me.hb + {|s.log|})]
  {
    Widths(p);
    SlotIsMod(p, k);
    WrapSmall(k + 1, p.bits);
    var s1 := Exec(p, s, t, Touch);
    SoloRun(p, s1, t, Publish, []);
    SoloRun(p, s, t, Touch, [Label(t, Publish)]);
    ls := [Label(t, Touch)] + [Label(t, Publish)];
  }

  lemma {:induction false} FinishPop<T>(p: Params, s: State<T>, t: nat, k: nat) returns (ls: seq<Label<T>>)
    requires p.Ok() && t < |s.threads| && s.threads[t].pc.PopRead? && s.threads[t].pc.pos == k
    requires k + p.cap < Pow2(p.bits) && |s.seqs| == |s.buf| == |s.threads[t].seenSeq| == p.cap && !s.fault
    ensures Legal(p, s, ls) && AllNewest(p, s, ls)
    ensures var s' := Run(p, s, ls); var c := k % p.cap; var me := s.threads[t];
            && s'.enq == s.enq && s'.deq == s.deq && s'.pushes == s.pushes && !s'.fault && s'.buf == s.buf
            && s'.seqs == s.seqs[c := s.seqs[c] + [Msg(k + p.cap, me.hb + {|s.log|}, t)]]
            && s'.threads == s.threads[t := me.(pc := Idle(Popped(s.buf[c])),
               seenSeq := me.seenSeq[c := |s.seqs[c]|], hb := me.hb + {|s.log|})]
  {
    SlotIsMod(p, k);
    WrapSmall(k + p.cap, p.bits);
    var s1 := Exec(p, s, t, Touch);
    SoloRun(p, s1, t, Publish, []);
    SoloRun(p, s, t, Touch, [Label(t, Publish)]);
    ls := [Label(t, Touch)] + [Label(t, Publish)];
  }

  /** The four steps up to the claim of position k by a push that finds the slot free for k. */
  lemma {:induction false} ClaimPush<T>(p: Params, s: State<T>, t: nat, x: T, k: nat) returns (ls: seq<Label<T>>)
    requires Ready(p, s, t) && |s.enq| == k + 1 && s.enq[k] == k && k + 1 < p.Half()
    requires s.seqs[k % p.cap] != [] && Last(s.seqs[k % p.cap]).val == k
    ensures Legal(p, s, ls) && AllNewest(p, s, ls)
    ensures var s' := Run(p, s, ls); var c := k % p.cap; var me := s.threads[t];
            && s' == s.(enq := s.enq + [k + 1], pushes := s.pushes + [PushClaim(t, x)], threads := s'.threads)
            && s'.threads == s.threads[t := me.(pc := PushWrite(x, k), seenEnq := k + 1,
                 seenSeq := me.seenSeq[c := |s.seqs[c]| - 1], hb := me.hb + Last(s.seqs[c]).hb)]
  {
    Widths(p);
    SlotIsMod(p, k);
    WrapSmall(k + 1, p.bits);
    DifExact(p, k, k);
    var at := |s.seqs[k % p.cap]| - 1;
    var s1 := Exec(p, s, t, BeginPush(x));
    var s2 := Exec(p, s1, t, LoadPos(k));
    var s3 := Exec(p, s2, t, LoadSeq(at));
    SoloRun(p, s3, t, CasOk, []);
    SoloRun(p, s2, t, LoadSeq(at), [Label(t, CasOk)]);
    SoloRun(p, s1, t, LoadPos(k), [Label(t, LoadSeq(at))] + [Label(t, CasOk)]);
    ls := [Label(t, LoadPos(k))] + ([Label(t, LoadSeq(at))] + [Label(t, CasOk)]);
    SoloRun(p, s, t, BeginPush(x), ls);
    ls := [Label(t, BeginPush(x))] + ls;
  }

  /** The same of a pop that finds the slot filled for k: its loads, and then the claim. */
  lemma {:induction false} PopLoads<T>(p: Params, s: State<T>, t: nat, k: nat) returns (ls: seq<Label<T>>)
    requires Ready(p, s, t) && |s.deq| == k + 1 && s.deq[k] == k && k + 1 < p.Half()
    requires s.seqs[k % p.cap] != [] && Last(s.seqs[k % p.cap]).val == k + 1
    ensures Legal(p, s, ls) && AllNewest(p, s, ls)
    ensures var c := k % p.cap; var me := s.threads[t];
            Run(p, s, ls) == s.(threads := s.threads[t := me.(pc := PopCas(k), seenDeq := k,
                 seenSeq := me.seenSeq[c := |s.seqs[c]| - 1], hb := me.hb + Last(s.seqs[c]).hb)])
  {
    Widths(p);
    SlotIsMod(p, k);
    WrapSmall(k + 1, p.bits);
    DifExact(p, k + 1, k + 1);
    var at := |s.seqs[k % p.cap]| - 1;
    var s1 := Exec(p, s, t, BeginPop);
    var s2 := Exec(p, s1, t, LoadPos(k));
    SoloRun(p, s2, t, LoadSeq(at), []);
    SoloRun(p, s1, t, LoadPos(k), [Label(t, LoadSeq(at))]);
    ls := [Label(t, LoadPos(k))] + [Label(t, LoadSeq(at))];
    SoloRun(p, s, t, BeginPop, ls);
    ls := [Label(t, BeginPop)] + ls;
  }

  lemma {:induction false} ClaimPop<T>(p: Params, s: State<T>, t: nat, k: nat) returns (ls: seq<Label<T>>)
    requires Ready(p, s, t) && |s.deq| == k + 1 && s.deq[k] == k && k + 1 < p.Half()
    requires s.seqs[k % p.cap] != [] && Last(s.seqs[k % p.cap]).val == k + 1
    ensures Legal(p, s, ls) && AllNewest(p, s, ls)
    ensures var s' := Run(p, s, ls); var c := k % p.cap; var me := s.threads[t];
            && s' == s.(deq := s.deq + [k + 1], pops := s.pops + [PopClaim(t, None)], threads := s'.threads)
            && s'.threads == s.threads[t := me.(pc := PopRead(k), seenDeq := k + 1,
                 seenSeq := me.seenSeq[c := |s.seqs[c]| - 1], hb := me.hb + Last(s.seqs[c]).hb)]
  {
    Widths(p);
    WrapSmall(k + 1, p.bits);
    var a := PopLoads(p, s, t, k);
    SoloRun(p, Run(p, s, a), t, CasOk, []);
    NewestAppend(p, s, a, [Label(t, CasOk)] + []);
    ls := a + ([Label(t, CasOk)] + []);
  }

  lemma {:induction false} NewestAppend<T>(p: Params, s: State<T>, a: seq<Label<T>>, b: seq<Label<T>>)
    requires Legal(p, s, a) && AllNewest(p, s, a) && Legal(p, Run(p, s, a), b) && AllNewest(p, Run(p, s, a), b)
    ensures Legal(p, s, a + b) && AllNewest(p, s, a + b) && Run(p, s, a + b) == Run(p, Run(p, s, a), b)
    decreases |a|
  {
    RunAppend(p, s, a, b);
    if a == [] {
      assert a + b == b;
    } else {
      assert (a + b)[1..] == a[1..] + b;
      NewestAppend(p, Exec(p, s, a[0].thread, a[0].step), a[1..], b);
    }
  }

  /** One whole undisturbed push, and one pop. */
  lemma {:induction false} PushTurn<T>(p: Params, s: State<T>, t: nat, x: T, k: nat) returns (ls: seq<Label<T>>)
    requires Ready(p, s, t) && |s.enq| == k + 1 && s.enq[k] == k && k + 1 < p.Half()
    requires s.seqs[k % p.cap] != [] && Last(s.seqs[k % p.cap]).val == k
    ensures Legal(p, s, ls) && AllNewest(p, s, ls)
    ensures var s' := Run(p, s, ls);
            && Turn(p, s, s', t, k, k + 1)
            && s'.enq == s.enq + [k + 1] && s'.deq == s.deq
            && s'.pushes == s.pushes + [PushClaim(t, x)] && s'.pops == s.pops
            && s'.buf == s.buf[k % p.cap := x] && s'.threads[t].pc == Idle(Pushed)
  {
    var a := ClaimPush(p, s, t, x, k);
    var b := FinishPush(p, Run(p, s, a), t, k);
    NewestAppend(p, s, a, b);
    ls := a + b;
  }

  lemma {:induction false} PopTurn<T>(p: Params, s: State<T>, t: nat, k: nat) returns (ls: seq<Label<T>>)
    requires Ready(p, s, t) && |s.deq| == k + 1 && s.deq[k] == k && k + 1 < p.Half() && k + p.cap < Pow2(p.bits)
    requires s.seqs[k % p.cap] != [] && Last(s.seqs[k % p.cap]).val == k + 1
    ensures Legal(p, s, ls) && AllNewest(p, s, ls)
    ensures var s' := Run(p, s, ls);
            && Turn(p, s, s', t, k, k + p.cap)
            && s'.enq == s.enq && s'.deq == s.deq + [k + 1] && s'.pushes == s.pushes
            && s'.buf == s.buf && s'.threads[t].pc == Idle(Popped(s.buf[k % p.cap]))
  {
    var a := ClaimPop(p, s, t, k);
    var b := FinishPop(p, Run(p, s, a), t, k);
    NewestAppend(p, s, a, b);
    ls := a + b;
  }

  // ---------------------------------------------------------------- Capacity 1

  /** With one slot, "filled for position k" and "free for position k + 1" are the same value, so
      every push finds room: any number of pushes succeed in a row and only the last item is left. */
  lemma {:induction false} CapacityOneOverwrites<T>(p: Params, s: State<T>, t: nat, items: seq<T>)
    returns (ls: seq<Label<T>>)
    requires p.cap == 1 && Ready(p, s, t) && s.enq[|s.enq| - 1] == |s.enq| - 1
    requires s.seqs[0] != [] && Last(s.seqs[0]).val == |s.enq| - 1 && |s.enq| + |items| < p.Half()
    requires s.threads[t].seenSeq[0] == |s.seqs[0]| - 1
    ensures Legal(p, s, ls) && AllNewest(p, s, ls)
    ensures var s' := Run(p, s, ls);
            && Ready(p, s', t) && |s'.enq| == |s.enq| + |items| && s'.deq == s.deq
            && |s'.pushes| == |s.pushes| + |items| && s'.buf == (if items == [] then s.buf else [items[|items| - 1]])
            && s'.seqs[0] != [] && Last(s'.seqs[0]).val == |s'.enq| - 1
            && s'.threads[t].seenSeq[0] == |s'.seqs[0]| - 1
    decreases |items|
  {
    if items == [] { return []; }
    var k := |s.enq| - 1;
    assert k % 1 == 0;
    var a := PushTurn(p, s, t, items[0], k);
    var s1 := Run(p, s, a);
    var b := CapacityOneOverwrites(p, s1, t, items[1..]);
    NewestAppend(p, s, a, b);
    ls := a + b;
  }

  ghost predicate Spinning<T>(p: Params, s: State<T>, t: nat) {
    && p.Ok() && p.cap == 1 && !s.fault && t < |s.threads| && |s.seqs| == 1 && |s.buf| == 1
    && s.deq == [0] && s.seqs[0] != [] && 2 <= Last(s.seqs[0]).val < p.Half()
    && |s.threads[t].seenSeq| == 1 && s.threads[t].seenSeq[0] == |s.seqs[0]| - 1 && s.threads[t].seenDeq == 0
    && (s.threads[t].pc.PopPos? || s.threads[t].pc == PopSeq(0))
  }

  ghost predicate Solo<T>(ls: seq<Label<T>>, t: nat) {
    forall l | l in ls :: l.thread == t && !Begins(l.step)
  }

  lemma {:induction false} SpinStep<T>(p: Params, s: State<T>, t: nat, a: Step<T>)
    requires Spinning(p, s, t) && Enabled(p, s, t, a)
    ensures Spinning(p, Exec(p, s, t, a), t)
  {
    Widths(p);
    SlotIsMod(p, 0);
    WrapSmall(1, p.bits);
    DifExact(p, Last(s.seqs[0]).val, 1);
  }

  /** A pop that then runs alone, for any number of steps, has not returned. */
  lemma {:induction false} PopSpins<T>(p: Params, s: State<T>, t: nat, ls: seq<Label<T>>)
    requires Spinning(p, s, t) && Legal(p, s, ls) && Solo(ls, t)
    ensures Spinning(p, Run(p, s, ls), t)
    decreases |ls|
  {
    if ls != [] {
      assert ls[0].thread == t;
      SpinStep(p, s, t, ls[0].step);
      PopSpins(p, Exec(p, s, t, ls[0].step), t, ls[1..]);
    }
  }

  /** It is not stuck either: it can take any number of steps, all of them reading newest values. */
  lemma {:induction false} SpinsOn<T>(p: Params, s: State<T>, t: nat, k: nat) returns (ls: seq<Label<T>>)
    requires Spinning(p, s, t)
    ensures Legal(p, s, ls) && AllNewest(p, s, ls) && Solo(ls, t) && |ls| == k
    ensures Spinning(p, Run(p, s, ls), t)
    decreases k
  {
    if k == 0 { return []; }
    Widths(p);
    SlotIsMod(p, 0);
    var a: Step<T> := if s.threads[t].pc.PopPos? then LoadPos(0) else LoadSeq(|s.seqs[0]| - 1);
    SpinStep(p, s, t, a);
    var rest := SpinsOn(p, Exec(p, s, t, a), t, k - 1);
    SoloRun(p, s, t, a, rest);
    ls := [Label(t, a)] + rest;
  }

  /** Two items pushed into one slot, then a pop: it spins, from the initial state. */
  lemma {:induction false} ReachSpinning<T>(p: Params, buf: seq<T>, items: seq<T>) returns (ls: seq<Label<T>>)
    requires p.Ok() && p.cap == 1 && |buf| == 1 && |items| >= 2 && |items| + 1 < p.Half()
    ensures Legal(p, Init(p, buf, 1), ls) && AllNewest(p, Init(p, buf, 1), ls)
    ensures var s := Run(p, Init(p, buf, 1), ls); Spinning(p, s, 0) && E(s) == |items| && s.buf == [items[|items| - 1]]
  {
    var s0 := Init(p, buf, 1);
    InitReady(p, buf, 1, 0);
    var a := CapacityOneOverwrites(p, s0, 0, items);
    var s1 := Run(p, s0, a);
    SoloRun(p, s1, 0, BeginPop, []);
    NewestAppend(p, s0, a, [Label(0, BeginPop)] + []);
    ls := a + ([Label(0, BeginPop)] + []);
  }

  predicate InPop<T>(pc: Pc<T>) { !pc.Idle? && !InPush(pc) }

  /** Some run of the thread alone, of whatever length and whatever its loads read, ends its call. */
  ghost predicate CanReturnAlone<T(!new)>(p: Params, s: State<T>, t: nat) {
    exists ls :: Legal(p, s, ls) && Solo(ls, t) && t < |Run(p, s, ls).threads| && Run(p, s, ls).threads[t].pc.Idle?
  }

  /** A pop left alone returns, from every reachable state, if and only if Capacity is at least 2. */
  lemma {:induction false} SoloPopReturnsExact<T(!new)>(p: Params, buf: seq<T>, x: T)
    requires p.Ok() && p.bits >= 3 && p.cap <= p.Half() && |buf| == p.cap
    ensures p.cap >= 2 <==>
              forall n: nat, ls: seq<Label<T>>, t: nat |
                && Legal(p, Init(p, buf, n), ls) && InRange(p, Run(p, Init(p, buf, n), ls))
                && t < |Run(p, Init(p, buf, n), ls).threads| && InPop(Run(p, Init(p, buf, n), ls).threads[t].pc) ::
                CanReturnAlone(p, Run(p, Init(p, buf, n), ls), t)
  {
    if p.cap == 1 {
      assert Pow2(2) == 4;
      Pow2Mono(2, p.bits - 1);
      var ls := ReachSpinning(p, buf, [x, x]);
      var s := Run(p, Init(p, buf, 1), ls);
      if CanReturnAlone(p, s, 0) {
        var more :| Legal(p, s, more) && Solo(more, 0)
          && 0 < |Run(p, s, more).threads| && Run(p, s, more).threads[0].pc.Idle?;
        PopSpins(p, s, 0, more);
      }
      assert InRange(p, s);
    } else {
      forall n: nat, ls: seq<Label<T>>, t: nat |
        && Legal(p, Init(p, buf, n), ls) && InRange(p, Run(p, Init(p, buf, n), ls))
        && t < |Run(p, Init(p, buf, n), ls).threads| && InPop(Run(p, Init(p, buf, n), ls).threads[t].pc)
        ensures CanReturnAlone(p, Run(p, Init(p, buf, n), ls), t)
      {
        EnqueueGrows(p, Init(p, buf, n), ls);
        InitInv(p, buf, n);
        RunInv(p, Init(p, buf, n), ls);
        var more := SoloFinishes(p, Run(p, Init(p, buf, n), ls), t);
      }
    }
  }

  ghost predicate InRange<T>(p: Params, s: State<T>)
    requires p.bits >= 1
  {
    E(s) + p.cap <= p.Half()
  }

  /** The queue stays within its capacity in every run exactly when Capacity is at least 2; the
      assertion also lets 1 pass. */
  lemma {:induction false} CapacityTwoNeeded<T>(p: Params, buf: seq<T>, x: T)
    requires p.Ok() && p.bits >= 3 && p.cap <= p.Half() && |buf| == p.cap
    ensures p.cap >= 2 <==>
              (forall n: nat, ls: seq<Label<T>> | Legal(p, Init(p, buf, n), ls)
                && InRange(p, Run(p, Init(p, buf, n), ls)) ::
                 E(Run(p, Init(p, buf, n), ls)) - D(Run(p, Init(p, buf, n), ls)) <= p.cap)
  {
    if p.cap == 1 {
      var s := Init(p, buf, 1);
      InitReady(p, buf, 1, 0);
      assert Pow2(2) == 4;
      Pow2Mono(2, p.bits - 1);
      var ls := CapacityOneOverwrites(p, s, 0, [x, x]);
      assert InRange(p, Run(p, s, ls));
    } else {
      forall n: nat, ls: seq<Label<T>> | Legal(p, Init(p, buf, n), ls) && InRange(p, Run(p, Init(p, buf, n), ls))
        ensures E(Run(p, Init(p, buf, n), ls)) - D(Run(p, Init(p, buf, n), ls)) <= p.cap
      {
        EveryRun(p, buf, n, ls);
      }
    }
  }

  lemma {:induction false} InitReady<T>(p: Params, buf: seq<T>, n: nat, t: nat)
    requires p.Ok() && |buf| == p.cap && t < n
    ensures Ready(p, Init(p, buf, n), t)
  {
  }

  // ---------------------------------------------------------------- the sign boundary

  /** All slots free for a position not below k, and both counters at k. */
  ghost predicate Even<T>(p: Params, s: State<T>, k: nat) {
    && Ready(p, s, 0) && |s.threads| == 2 && s.threads[1] == Thread(Idle(Fresh), 0, 0, seq(p.cap, j => 0), {})
    && |s.enq| == |s.deq| == k + 1 && s.enq[k] == k && s.deq[k] == k
    && (forall c | 0 <= c < p.cap ::
          s.seqs[c] != [] && Last(s.seqs[c]).val % p.cap == c && k <= Last(s.seqs[c]).val < k + p.cap)
  }

  lemma {:induction false} EvenSlot<T>(p: Params, s: State<T>, k: nat)
    requires Even(p, s, k)
    ensures Last(s.seqs[k % p.cap]).val == k
  {
    if Last(s.seqs[k % p.cap]).val > k { LapApart(k, Last(s.seqs[k % p.cap]).val, p.cap); }
  }

  /** One push and one pop by thread 0 move both counters on. */
  lemma {:induction false} PushPop<T>(p: Params, s: State<T>, x: T, k: nat) returns (ls: seq<Label<T>>)
    requires Even(p, s, k) && k + 1 < p.Half() && k + p.cap < Pow2(p.bits)
    ensures Legal(p, s, ls) && AllNewest(p, s, ls)
    ensures var s' := Run(p, s, ls);
            && Even(p, s', k + 1) && Last(s'.seqs[k % p.cap]).val == k + p.cap
  {
    EvenSlot(p, s, k);
    var a := PushTurn(p, s, 0, x, k);
    var b := PopTurn(p, Run(p, s, a), 0, k);
    NewestAppend(p, s, a, b);
    ls := a + b;
    var s' := Run(p, s, ls);
    AddLap(k, p.cap);
    forall c | 0 <= c < p.cap
      ensures s'.seqs[c] != [] && Last(s'.seqs[c]).val % p.cap == c && k + 1 <= Last(s'.seqs[c]).val < k + 1 + p.cap
    {
      if c != k % p.cap { assert s'.seqs[c] == s.seqs[c]; }
    }
  }

  lemma {:induction false} ReachEven<T>(p: Params, buf: seq<T>, x: T, k: nat) returns (ls: seq<Label<T>>)
    requires p.Ok() && |buf| == p.cap && p.cap >= 2 && k + p.cap <= p.Half()
    ensures Legal(p, Init(p, buf, 2), ls) && AllNewest(p, Init(p, buf, 2), ls)
    ensures Even(p, Run(p, Init(p, buf, 2), ls), k)
  {
    var s := Init(p, buf, 2);
    if k == 0 {
      forall c | 0 <= c < p.cap
        ensures s.seqs[c] != [] && Last(s.seqs[c]).val % p.cap == c && 0 <= Last(s.seqs[c]).val < p.cap
      {
        ModUnique(c, p.cap, 0, c);
      }
      return [];
    }
    Widths(p);
    var a := ReachEven(p, buf, x, k - 1);
    var b := PushPop(p, Run(p, s, a), x, k - 1);
    NewestAppend(p, s, a, b);
    ls := a + b;
  }

  /** At the boundary: a pop that has loaded its position is overtaken by one push and one pop; the
      sequence it then loads is 2^(bits-1), whose cast is negative, and the subtraction overflows. */
  lemma {:induction false} OverflowRun<T>(p: Params, buf: seq<T>, x: T) returns (ls: seq<Label<T>>)
    requires p.Ok() && |buf| == p.cap && 2 <= p.cap <= p.Half()
    ensures Legal(p, Init(p, buf, 2), ls) && AllNewest(p, Init(p, buf, 2), ls)
    ensures E(Run(p, Init(p, buf, 2), ls)) == p.Half() - p.cap + 1 && Run(p, Init(p, buf, 2), ls).fault
  {
    var s0 := Init(p, buf, 2);
    var k := p.Half() - p.cap;
    Widths(p);
    var a := ReachEven(p, buf, x, k);
    var s1 := Run(p, s0, a);
    var s2 := Exec(p, s1, 1, BeginPop);
    var s3 := Exec(p, s2, 1, LoadPos(k));
    var d := LatePop(p, s1, s3, x, k);
    SoloRun(p, s2, 1, LoadPos(k), d);
    SoloRun(p, s1, 1, BeginPop, [Label(1, LoadPos(k))] + d);
    NewestAppend(p, s0, a, [Label(1, BeginPop)] + ([Label(1, LoadPos(k))] + d));
    ls := a + ([Label(1, BeginPop)] + ([Label(1, LoadPos(k))] + d));
  }

  lemma {:induction false} LatePop<T>(p: Params, s1: State<T>, s3: State<T>, x: T, k: nat) returns (ls: seq<Label<T>>)
    requires Even(p, s1, k) && p.cap >= 2 && k + p.cap == p.Half()
    requires s3 == s1.(threads := s1.threads[1 := s1.threads[1].(pc := PopSeq(k), seenDeq := k)])
    ensures Legal(p, s3, ls) && AllNewest(p, s3, ls)
    ensures E(Run(p, s3, ls)) == k + 1 && Run(p, s3, ls).fault
  {
    Widths(p);
    EvenSlot(p, s1, k);
    var a := PushTurn(p, s3, 0, x, k);
    var s4 := Run(p, s3, a);
    var b := PopTurn(p, s4, 0, k);
    NewestAppend(p, s3, a, b);
    var s5 := Run(p, s3, a + b);
    assert s5.threads[1] == s3.threads[1];
    var d := OverflowingLoad(p, s5, 1, k);
    NewestAppend(p, s3, a + b, d);
    ls := a + b + d;
  }

  lemma {:induction false} OverflowingLoad<T>(p: Params, s: State<T>, t: nat, k: nat) returns (ls: seq<Label<T>>)
    requires p.Ok() && !s.fault && t < |s.threads| && |s.seqs| == |s.buf| == p.cap && s.enq != []
    requires s.threads[t].pc == PopSeq(k) && k + p.cap == p.Half() && p.cap >= 2
    requires |s.threads[t].seenSeq| == p.cap && s.threads[t].seenSeq[k % p.cap] < |s.seqs[k % p.cap]|
    requires Last(s.seqs[k % p.cap]).val == p.Half()
    ensures Legal(p, s, ls) && AllNewest(p, s, ls) && Run(p, s, ls) == s.(fault := true)
  {
    Widths(p);
    SlotIsMod(p, k);
    WrapSmall(k + 1, p.bits);
    var at := |s.seqs[k % p.cap]| - 1;
    assert p.Dif(p.Half(), k + 1).None?;
    SoloRun(p, s, t, LoadSeq(at), []);
    ls := [Label(t, LoadSeq(at))];
    assert ls + [] == ls;
  }

  /** The exact range: the signed subtraction overflows in no run with at most e claimed pushes if
      and only if e + Capacity is at most 2^(bits-1). */
  lemma {:induction false} SignedRangeExact<T>(p: Params, buf: seq<T>, x: T, e: nat)
    requires p.Ok() && |buf| == p.cap && 2 <= p.cap <= p.Half()
    ensures e + p.cap <= p.Half() <==>
              (forall n: nat, ls: seq<Label<T>> | Legal(p, Init(p, buf, n), ls)
                && E(Run(p, Init(p, buf, n), ls)) <= e ::
                 !Run(p, Init(p, buf, n), ls).fault)
  {
    if e + p.cap <= p.Half() {
      forall n: nat, ls: seq<Label<T>> | Legal(p, Init(p, buf, n), ls) && E(Run(p, Init(p, buf, n), ls)) <= e
        ensures !Run(p, Init(p, buf, n), ls).fault
      {
        EveryRun(p, buf, n, ls);
      }
    } else {
      var ls := OverflowRun(p, buf, x);
    }
  }

  // ---------------------------------------------------------------- failure is not emptiness

  /** A pop reports empty after a later push has completed, while an earlier one is still writing:
      the queue holds two items, one of them complete. */
  lemma {:induction false} EmptyAfterCompletedPush<T>(p: Params, buf: seq<T>, x: T, y: T) returns (ls: seq<Label<T>>)
    requires p.Ok() && |buf| == p.cap && p.cap >= 2 && p.cap + 2 <= p.Half()
    ensures Legal(p, Init(p, buf, 3), ls) && AllNewest(p, Init(p, buf, 3), ls)
    ensures var s := Run(p, Init(p, buf, 3), ls);
            && s.pushes == [PushClaim(0, x), PushClaim(1, y)] && s.pops == []
            && |s.threads| == 3 && s.threads[1].pc == Idle(Pushed) && s.threads[2].pc == Idle(Empty)
  {
    var s0 := Init(p, buf, 3);
    InitReady(p, buf, 3, 0);
    ModUnique(0, p.cap, 0, 0);
    ModUnique(1, p.cap, 0, 1);
    Widths(p);
    var a := ClaimPush(p, s0, 0, x, 0);
    var s1 := Run(p, s0, a);
    var b := PushTurn(p, s1, 1, y, 1);
    NewestAppend(p, s0, a, b);
    var s2 := Run(p, s0, a + b);
    assert s2.threads[2] == s0.threads[2];
    assert s2.seqs[0] == s0.seqs[0];
    var d := EmptyPop(p, s2, 2);
    NewestAppend(p, s0, a + b, d);
    ls := a + b + d;
  }

  lemma {:induction false} EmptyPop<T>(p: Params, s: State<T>, t: nat) returns (ls: seq<Label<T>>)
    requires Ready(p, s, t) && s.deq == [0] && p.cap < p.Half() && Last(s.seqs[0]).val == 0
    ensures Legal(p, s, ls) && AllNewest(p, s, ls)
    ensures var s' := Run(p, s, ls);
            && s'.pushes == s.pushes && s'.pops == s.pops && |s'.threads| == |s.threads|
            && s'.threads[t].pc == Idle(Empty)
            && forall u | 0 <= u < |s.threads| && u != t :: s'.threads[u] == s.threads[u]
  {
    Widths(p);
    ModUnique(0, p.cap, 0, 0);
    SlotIsMod(p, 0);
    WrapSmall(1, p.bits);
    DifExact(p, 0, 1);
    var at := |s.seqs[0]| - 1;
    var s1 := Exec(p, s, t, BeginPop);
    var s2 := Exec(p, s1, t, LoadPos(0));
    SoloRun(p, s2, t, LoadSeq(at), []);
    SoloRun(p, s1, t, LoadPos(0), [Label(t, LoadSeq(at))]);
    SoloRun(p, s, t, BeginPop, [Label(t, LoadPos(0))] + [Label(t, LoadSeq(at))]);
    ls := [Label(t, BeginPop)] + ([Label(t, LoadPos(0))] + [Label(t, LoadSeq(at))]);
  }

  /** The slots of positions below k are filled, the others free; one push per filled slot. */
  ghost predicate FilledUpTo<T>(p: Params, s: State<T>, k: nat) {
    && Ready(p, s, 0) && |s.threads| == 2 && s.threads[1] == Thread(Idle(Fresh), 0, 0, seq(p.cap, j => 0), {})
    && k <= p.cap && |s.enq| == k + 1 && s.enq[k] == k && s.deq == [0] && s.pops == []
    && forall c | 0 <= c < p.cap :: s.seqs[c] != [] && Last(s.seqs[c]).val == if c < k then c + 1 else c
  }

  lemma {:induction false} FillOne<T>(p: Params, s: State<T>, x: T, k: nat) returns (ls: seq<Label<T>>)
    requires FilledUpTo(p, s, k) && k < p.cap && k + 1 < p.Half()
    ensures Legal(p, s, ls) && AllNewest(p, s, ls) && FilledUpTo(p, Run(p, s, ls), k + 1)
  {
    ModUnique(k, p.cap, 0, k);
    ls := PushTurn(p, s, 0, x, k);
    var s' := Run(p, s, ls);
    forall c | 0 <= c < p.cap
      ensures s'.seqs[c] != [] && Last(s'.seqs[c]).val == if c < k + 1 then c + 1 else c
    {
      if c != k { assert s'.seqs[c] == s.seqs[c]; }
    }
  }

  lemma {:induction false} Fill<T>(p: Params, buf: seq<T>, x: T, k: nat) returns (ls: seq<Label<T>>)
    requires p.Ok() && |buf| == p.cap && k <= p.cap && 2 * p.cap <= p.Half() && p.cap >= 2
    ensures Legal(p, Init(p, buf, 2), ls) && AllNewest(p, Init(p, buf, 2), ls)
    ensures FilledUpTo(p, Run(p, Init(p, buf, 2), ls), k)
    decreases k
  {
    if k == 0 { return []; }
    var a := Fill(p, buf, x, k - 1);
    var b := FillOne(p, Run(p, Init(p, buf, 2), a), x, k - 1);
    NewestAppend(p, Init(p, buf, 2), a, b);
    ls := a + b;
  }

  /** Every position is claimed by a push; positions below k are claimed by pops, and of these only
      position 0 has not been given back. */
  ghost predicate DrainedUpTo<T>(p: Params, s: State<T>, k: nat) {
    && Ready(p, s, 0) && 1 <= k <= p.cap && |s.enq| == p.cap + 1 && s.enq[p.cap] == p.cap
    && |s.deq| == k + 1 && s.deq[k] == k
    && |s.threads| == 2 && s.threads[1].pc == PopRead(0)
    && Last(s.seqs[0]).val == 1
    && forall c | k <= c < p.cap :: s.seqs[c] != [] && Last(s.seqs[c]).val == c + 1
  }

  lemma {:induction false} Drain<T>(p: Params, s: State<T>, k: nat) returns (ls: seq<Label<T>>)
    requires DrainedUpTo(p, s, k) && 2 * p.cap <= p.Half() && p.cap >= 2
    ensures Legal(p, s, ls) && AllNewest(p, s, ls) && DrainedUpTo(p, Run(p, s, ls), p.cap)
    decreases p.cap - k
  {
    if k == p.cap { return []; }
    Widths(p);
    ModUnique(k, p.cap, 0, k);
    var a := PopTurn(p, s, 0, k);
    var s' := Run(p, s, a);
    assert s'.seqs[0] == s.seqs[0];
    forall c | k + 1 <= c < p.cap
      ensures s'.seqs[c] != [] && Last(s'.seqs[c]).val == c + 1
    {
      assert s'.seqs[c] == s.seqs[c];
    }
    var b := Drain(p, s', k + 1);
    NewestAppend(p, s, a, b);
    ls := a + b;
  }

  /** A push that finds the slot of its position still filled for the lap before. */
  lemma {:induction false} FullPush<T>(p: Params, s: State<T>, t: nat, x: T) returns (ls: seq<Label<T>>)
    requires Ready(p, s, t) && |s.enq| == p.cap + 1 && s.enq[p.cap] == p.cap && Last(s.seqs[0]).val == 1
    requires p.cap >= 2 && p.cap < p.Half()
    ensures Legal(p, s, ls) && AllNewest(p, s, ls)
    ensures var s' := Run(p, s, ls);
            && s'.enq == s.enq && s'.deq == s.deq && |s'.threads| == |s.threads| && s'.threads[t].pc == Idle(Full)
            && forall u | 0 <= u < |s.threads| && u != t :: s'.threads[u] == s.threads[u]
  {
    Widths(p);
    ModUnique(p.cap, p.cap, 1, 0);
    SlotIsMod(p, p.cap);
    DifExact(p, 1, p.cap);
    var at := |s.seqs[0]| - 1;
    var s1 := Exec(p, s, t, BeginPush(x));
    var s2 := Exec(p, s1, t, LoadPos(p.cap));
    SoloRun(p, s2, t, LoadSeq(at), []);
    SoloRun(p, s1, t, LoadPos(p.cap), [Label(t, LoadSeq(at))]);
    SoloRun(p, s, t, BeginPush(x), [Label(t, LoadPos(p.cap))] + [Label(t, LoadSeq(at))]);
    ls := [Label(t, BeginPush(x))] + ([Label(t, LoadPos(p.cap))] + [Label(t, LoadSeq(at))]);
  }

  lemma {:induction false} DrainThenPush<T>(p: Params, s: State<T>, x: T) returns (ls: seq<Label<T>>)
    requires FilledUpTo(p, s, p.cap) && p.cap >= 2 && 2 * p.cap <= p.Half()
    ensures Legal(p, s, ls) && AllNewest(p, s, ls)
    ensures var s' := Run(p, s, ls);
            && E(s') == D(s') == p.cap && |s'.threads| == 2
            && s'.threads[0].pc == Idle(Full) && s'.threads[1].pc == PopRead(0)
  {
    Widths(p);
    ModUnique(0, p.cap, 0, 0);
    var a := ClaimPop(p, s, 1, 0);
    var s1 := Run(p, s, a);
    assert DrainedUpTo(p, s1, 1);
    var b := Drain(p, s1, 1);
    var c := FullPush(p, Run(p, s1, b), 0, x);
    NewestAppend(p, s1, b, c);
    NewestAppend(p, s, a, b + c);
    ls := a + (b + c);
  }

  /** "Full" does not mean full, for any Capacity of at least 2: with every item claimed by a pop and
      the queue empty, try_push still returns false, because one pop has not read its item yet. */
  lemma {:induction false} FullWhenEmpty<T>(p: Params, buf: seq<T>, x: T) returns (ls: seq<Label<T>>)
    requires p.Ok() && |buf| == p.cap && p.cap >= 2 && 2 * p.cap <= p.Half()
    ensures Legal(p, Init(p, buf, 2), ls) && AllNewest(p, Init(p, buf, 2), ls)
    ensures var s := Run(p, Init(p, buf, 2), ls);
            && E(s) == D(s) == p.cap && Inv(p, s) && Contents(p, s) == []
            && |s.threads| == 2 && s.threads[0].pc == Idle(Full) && s.threads[1].pc == PopRead(0)
  {
    var s0 := Init(p, buf, 2);
    var a := Fill(p, buf, x, p.cap);
    var b := DrainThenPush(p, Run(p, s0, a), x);
    NewestAppend(p, s0, a, b);
    ls := a + b;
    EnqueueGrows(p, s0, ls);
    InitInv(p, buf, 2);
    RunInv(p, s0, ls);
  }
}
