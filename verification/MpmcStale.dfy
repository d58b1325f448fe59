/** Why progress and the meaning of a failing call need newest values and a compare-exchange that fails
    only for cause: runs, allowed by release/acquire and by the weak compare-exchange, in which they
    do not hold. */
module MpmcStale {
  import opened Bits
  import opened Common
  import opened MpmcMachine
  import opened MpmcInvariant
  import opened MpmcSteps
  import opened MpmcTheorems
  import opened MpmcProgress
  import opened MpmcCalls
  import opened MpmcLimits

  lemma {:induction false} Then<T>(p: Params, s: State<T>, t: nat, a: Step<T>, rest: seq<Label<T>>)
    requires Enabled(p, s, t, a) && Legal(p, Exec(p, s, t, a), rest)
    ensures var ls := [Label(t, a)] + rest; Legal(p, s, ls) && Run(p, s, ls) == Run(p, Exec(p, s, t, a), rest)
    ensures Count(p, s, [Label(t, a)] + rest, Return)
              == One(Is(p, s, t, a, Return)) + Count(p, Exec(p, s, t, a), rest, Return)
  {
    assert ([Label(t, a)] + rest)[1..] == rest;
  }

  // ---------------------------------------------------------------- failing calls

  /** A call that reads the newest position and an old sequence, less than what it looks for. */
  lemma {:induction false} StaleCall<T>(p: Params, s: State<T>, t: nat, first: Step<T>, k: nat, at: nat)
    returns (ls: seq<Label<T>>)
    requires Ready(p, s, t) && Begins(first) && k + 1 < p.Half()
    requires var hist, seen := if first.BeginPush? then s.enq else s.deq,
                               if first.BeginPush? then s.threads[t].seenEnq else s.threads[t].seenDeq;
             |hist| == k + 1 && hist[k] == k
    requires s.threads[t].seenSeq[k % p.cap] <= at < |s.seqs[k % p.cap]|
    requires s.seqs[k % p.cap][at].val < if first.BeginPush? then k else k + 1
    ensures Legal(p, s, ls)
    ensures var s' := Run(p, s, ls);
            && s'.enq == s.enq && s'.deq == s.deq && |s'.threads| == |s.threads|
            && s'.threads[t].pc == Idle(if first.BeginPush? then Full else Empty)
            && forall u | 0 <= u < |s.threads| && u != t :: s'.threads[u] == s.threads[u]
  {
    Widths(p);
    SlotIsMod(p, k);
    WrapSmall(k + 1, p.bits);
    DifExact(p, s.seqs[k % p.cap][at].val, if first.BeginPush? then k else k + 1);
    var s1 := Exec(p, s, t, first);
    var s2 := Exec(p, s1, t, LoadPos(k));
    Then(p, s2, t, LoadSeq(at), []);
    Then(p, s1, t, LoadPos(k), [Label(t, LoadSeq(at))] + []);
    Then(p, s, t, first, [Label(t, LoadPos(k))] + ([Label(t, LoadSeq(at))] + []));
    ls := [Label(t, first)] + ([Label(t, LoadPos(k))] + ([Label(t, LoadSeq(at))] + []));
  }

  /** With a stale sequence try_pop reports empty although a push has completed, nobody else is in a call
      and the position it read is the newest: PopFails needs the newest value. */
  lemma {:induction false} EmptyThoughPushed<T>(p: Params, buf: seq<T>, x: T) returns (ls: seq<Label<T>>)
    requires p.Ok() && |buf| == p.cap && p.cap >= 2 && p.cap + 1 <= p.Half()
    ensures Legal(p, Init(p, buf, 2), ls)
    ensures var s := Run(p, Init(p, buf, 2), ls);
            && Inv(p, s) && NoOwners(s) && |Contents(p, s)| == 1
            && |s.threads| == 2 && s.threads[0].pc == Idle(Pushed) && s.threads[1].pc == Idle(Empty)
  {
    var s0 := Init(p, buf, 2);
    ModUnique(0, p.cap, 0, 0);
    Widths(p);
    var a := PushTurn(p, s0, 0, x, 0);
    var s1 := Run(p, s0, a);
    assert s1.threads[1] == s0.threads[1];
    assert s1.seqs[0][..1] == s0.seqs[0];
    assert s1.seqs[0][0] == s0.seqs[0][0];
    var b := StaleCall(p, s1, 1, BeginPop, 0, 0);
    RunAppend(p, s0, a, b);
    ls := a + b;
    InitInv(p, buf, 2);
    RunInv(p, s0, ls);
  }

  /** And try_push reports full although the queue is empty and nobody else is in a call. */
  lemma {:induction false} FullThoughEmpty<T>(p: Params, buf: seq<T>, x: T) returns (ls: seq<Label<T>>)
    requires p.Ok() && |buf| == p.cap && p.cap >= 2 && 2 * p.cap <= p.Half()
    ensures Legal(p, Init(p, buf, 2), ls)
    ensures var s := Run(p, Init(p, buf, 2), ls);
            && Inv(p, s) && NoOwners(s) && Contents(p, s) == []
            && |s.threads| == 2 && s.threads[0].pc.Idle? && s.threads[1].pc == Idle(Full)
  {
    var s0 := Init(p, buf, 2);
    var a := ReachEven(p, buf, x, p.cap);
    InitInv(p, buf, 2);
    RunInv(p, s0, a);
    var s := Run(p, s0, a);
    var b := StalePush(p, s, x);
    RunInv(p, s, b);
    RunAppend(p, s0, a, b);
    ls := a + b;
  }

  lemma {:induction false} StalePush<T>(p: Params, s: State<T>, x: T) returns (ls: seq<Label<T>>)
    requires Inv(p, s) && Even(p, s, p.cap) && 2 * p.cap <= p.Half()
    ensures Legal(p, s, ls)
    ensures var s' := Run(p, s, ls);
            && E(s') == D(s') == p.cap && |s'.threads| == 2
            && s'.threads[0].pc.Idle? && s'.threads[1].pc == Idle(Full) && NoOwners(s')
  {
    ModUnique(p.cap, p.cap, 1, 0);
    assert SlotInv(p, s, 0);
    ls := StaleCall(p, s, 1, BeginPush(x), p.cap, 0);
  }

  // ---------------------------------------------------------------- calls that never return

  /** Spurious failures: a thread alone can fail its compare-exchange for ever. So the bound of lock-freedom
      fails for every number of steps. */
  lemma {:induction false} SpuriousForever<T>(p: Params, buf: seq<T>, x: T, k: nat) returns (ls: seq<Label<T>>)
    requires p.Ok() && |buf| == p.cap && p.cap >= 2 && p.cap <= p.Half()
    ensures Legal(p, Init(p, buf, 1), ls) && |ls| == 2 * k + 2
    ensures Count(p, Init(p, buf, 1), ls, Return) == 0
  {
    var s0 := Init(p, buf, 1);
    var s1 := Exec(p, s0, 0, BeginPush(x));
    var s2 := Exec(p, s1, 0, LoadPos(0));
    var rest := FailOn(p, s2, 0, x, k);
    Then(p, s1, 0, LoadPos(0), rest);
    Then(p, s0, 0, BeginPush(x), [Label(0, LoadPos(0))] + rest);
    ls := [Label(0, BeginPush(x))] + ([Label(0, LoadPos(0))] + rest);
  }

  lemma {:induction false} FailOn<T>(p: Params, s: State<T>, t: nat, x: T, k: nat) returns (ls: seq<Label<T>>)
    requires p.Ok() && p.cap >= 2 && p.cap <= p.Half() && !s.fault && |s.seqs| == |s.buf| == p.cap
    requires t < |s.threads| && s.threads[t].pc == PushSeq(x, 0) && s.threads[t].seenEnq == 0
    requires |s.threads[t].seenSeq| == p.cap && s.threads[t].seenSeq[0] < |s.seqs[0]|
    requires s.enq == [0] && Last(s.seqs[0]).val == 0
    ensures Legal(p, s, ls) && |ls| == 2 * k && Count(p, s, ls, Return) == 0
    decreases k
  {
    if k == 0 { return []; }
    ModUnique(0, p.cap, 0, 0);
    Widths(p);
    SlotIsMod(p, 0);
    DifExact(p, 0, 0);
    var at := |s.seqs[0]| - 1;
    var s1 := Exec(p, s, t, LoadSeq(at));
    var s2 := Exec(p, s1, t, CasFail(0));
    var rest := FailOn(p, s2, t, x, k - 1);
    Then(p, s1, t, CasFail(0), rest);
    Then(p, s, t, LoadSeq(at), [Label(t, CasFail(0))] + rest);
    ls := [Label(t, LoadSeq(at))] + ([Label(t, CasFail(0))] + rest);
  }

  /** Stale loads: after another thread's push has completed a thread can read the same old position for
      ever, though it runs alone and every sequence it reads is the newest. With newest positions
      it would have returned within six accesses (MpmcProgress.SoloFinishes). */
  lemma {:induction false} StaleForever<T>(p: Params, buf: seq<T>, x: T, k: nat)
    returns (before: seq<Label<T>>, ls: seq<Label<T>>)
    requires p.Ok() && |buf| == p.cap && p.cap >= 2 && p.cap + 1 <= p.Half()
    ensures Legal(p, Init(p, buf, 2), before) && E(Run(p, Init(p, buf, 2), before)) == 1
    ensures var s := Run(p, Init(p, buf, 2), before);
            && |s.threads| == 2 && s.threads[0].pc == Idle(Pushed)
            && Legal(p, s, ls) && |ls| == 2 * k + 1 && Count(p, s, ls, Return) == 0
            && forall l | l in ls :: l.thread == 1
  {
    var s0 := Init(p, buf, 2);
    ModUnique(0, p.cap, 0, 0);
    Widths(p);
    before := PushTurn(p, s0, 0, x, 0);
    var s := Run(p, s0, before);
    assert s.threads[1] == s0.threads[1];
    var rest := ReadOn(p, Exec(p, s, 1, BeginPush(x)), 1, x, k);
    Then(p, s, 1, BeginPush(x), rest);
    ls := [Label(1, BeginPush(x))] + rest;
  }

  lemma {:induction false} ReadOn<T>(p: Params, s: State<T>, t: nat, x: T, k: nat) returns (ls: seq<Label<T>>)
    requires p.Ok() && p.cap >= 2 && p.cap + 1 <= p.Half() && !s.fault && |s.seqs| == |s.buf| == p.cap
    requires t < |s.threads| && s.threads[t].pc == PushPos(x) && s.threads[t].seenEnq == 0
    requires |s.threads[t].seenSeq| == p.cap
    requires s.enq == [0, 1] && s.seqs[0] != [] && Last(s.seqs[0]).val == 1 && s.threads[t].seenSeq[0] < |s.seqs[0]|
    ensures Legal(p, s, ls) && |ls| == 2 * k && Count(p, s, ls, Return) == 0 && forall l | l in ls :: l.thread == t
    decreases k
  {
    if k == 0 { return []; }
    ModUnique(0, p.cap, 0, 0);
    Widths(p);
    SlotIsMod(p, 0);
    DifExact(p, 1, 0);
    var at := |s.seqs[0]| - 1;
    var s1 := Exec(p, s, t, LoadPos(0));
    var s2 := Exec(p, s1, t, LoadSeq(at));
    var rest := ReadOn(p, s2, t, x, k - 1);
    Then(p, s1, t, LoadSeq(at), rest);
    Then(p, s, t, LoadPos(0), [Label(t, LoadSeq(at))] + rest);
    ls := [Label(t, LoadPos(0))] + ([Label(t, LoadSeq(at))] + rest);
  }
}
