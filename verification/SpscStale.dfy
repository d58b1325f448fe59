/** Why failing calls need newest values: a release/acquire run of the shipped queue in which try_push
    returns false and try_pop returns false, and no order of the calls explains both. */
module SpscStale {
  import opened Bits
  import opened Common
  import opened SpscMachine
  import opened SpscInvariant
  import opened SpscTheorems

  /** evs takes every event of ps and of os once, each list in its own order. */
  ghost predicate Merges<T>(ps: seq<Event<T>>, os: seq<Event<T>>, evs: seq<Event<T>>)
    decreases |evs|
  {
    if evs == [] then ps == [] && os == []
    else
      || (ps != [] && evs[0] == ps[0] && Merges(ps[1..], os, evs[1..]))
      || (os != [] && evs[0] == os[0] && Merges(ps, os[1..], evs[1..]))
  }

  /** k pushes that succeed, then one that does not. */
  function PushResults<T>(x: T, k: nat): (es: seq<Event<T>>)
    ensures es != [] && es[0] == PushReturns(x, k > 0)
  {
    if k == 0 then [PushReturns(x, false)] else [PushReturns(x, true)] + PushResults(x, k - 1)
  }

  /** One pop that succeeds, then one that does not. */
  function PopResults<T>(x: T): seq<Event<T>> { [PopReturns(Some(x)), PopReturns(None)] }

  /** The atomic queue cannot return these, in whatever order: for the push to fail no pop may have
      been served, and for the pop to fail all pushes but the last may not have been. */
  lemma {:induction false} NoOrder<T>(
    x: T, cap: nat, k: nat, served: nat, evs: seq<Event<T>>, q: seq<T>, q': seq<T>)
    requires cap >= 2 && k <= cap && served <= 2
    requires |q| == cap - k - (if served == 0 then 0 else 1)
    requires Merges(PushResults(x, k), PopResults(x)[served..], evs)
    ensures !Replays(q, evs, cap, q')
    decreases |evs|
  {
    var ps, os := PushResults(x, k), PopResults(x)[served..];
    if Replays(q, evs, cap, q') {
      if evs[0] == ps[0] && Merges(ps[1..], os, evs[1..]) {
        if k > 0 {
          assert ps[1..] == PushResults(x, k - 1);
          NoOrder(x, cap, k - 1, served, evs[1..], q + [x], q');
        } else {
          assert served == 0;
          OnlyPops(x, evs[1..], q, cap, q');
        }
      } else if served == 0 {
        assert os[1..] == PopResults(x)[1..];
        NoOrder(x, cap, k, 1, evs[1..], q[1..], q');
      } else {
        assert served == 1 && q == [];
        assert os[1..] == PopResults(x)[2..];
        NoOrder(x, cap, k, 2, evs[1..], q, q');
      }
    }
  }

  lemma {:induction false} OnlyPops<T>(x: T, evs: seq<Event<T>>, q: seq<T>, cap: nat, q': seq<T>)
    requires |q| >= 2 && Merges([], PopResults(x), evs)
    ensures !Replays(q, evs, cap, q')
  {
    var none: seq<Event<T>> := [];
    assert PopResults(x)[1..] == [PopReturns(None)];
    assert Merges(none, [PopReturns(None)], evs[1..]);
    assert evs[1..][0] == PopReturns(None);
  }

  // ---------------------------------------------------------------- the run

  /** Both threads are between calls; the producer last read head when it was 0, the consumer tail
      when it was seen. */
  ghost predicate Between<T>(p: Params, s: State<T>, seen: nat) {
    && Inv(p, s) && p.cached && s.prod.pc.PIdle? && s.cons.pc.CIdle?
    && s.prod.seenHead == 0 && s.cons.seenTail == seen
  }

  lemma {:induction false} Then<T>(p: Params, s: State<T>, l: Label<T>, rest: seq<Label<T>>)
    requires Enabled(p, s, l) && Legal(p, Exec(p, s, l), rest)
    ensures var ls := [l] + rest;
            && Legal(p, s, ls) && Run(p, s, ls) == Run(p, Exec(p, s, l), rest)
            && Events(p, s, ls) == StepEvent(p, s, l) + Events(p, Exec(p, s, l), rest)
  {
    assert ([l] + rest)[1..] == rest;
  }

  lemma {:induction false} Joined<T>(p: Params, s: State<T>, a: seq<Label<T>>, b: seq<Label<T>>)
    requires Legal(p, s, a) && Legal(p, Run(p, s, a), b)
    ensures Legal(p, s, a + b) && Run(p, s, a + b) == Run(p, Run(p, s, a), b)
    ensures Events(p, s, a + b) == Events(p, s, a) + Events(p, Run(p, s, a), b)
  {
    RunAppend(p, s, a, b);
    EventsAppend(p, s, a, b);
  }

  /** A push that the cached head lets through. */
  lemma {:induction false} CachedPush<T>(p: Params, s: State<T>, x: T, seen: nat) returns (ls: seq<Label<T>>)
    requires Between(p, s, seen) && N(s) < p.cap
    ensures Legal(p, s, ls) && Events(p, s, ls) == [PushReturns(x, true)]
    ensures var s' := Run(p, s, ls); Between(p, s', seen) && N(s') == N(s) + 1 && s'.head == s.head
    ensures Run(p, s, ls).pushed == s.pushed + [x]
  {
    var s1 := Exec(p, s, PBegin(x));
    StepInv(p, s, PBegin(x));
    WrapSub(N(s), 0, p.bits);
    WrapSmall(0, p.bits);
    var s2 := Exec(p, s1, PTail(N(s)));
    StepInv(p, s1, PTail(N(s)));
    assert s2.prod.pc.PWrite?;
    ProducerKnowsSlot(p, s2);
    StepInv(p, s2, PSlot);
    var s3 := Exec(p, s2, PSlot);
    StepInv(p, s3, PRelease);
    Then(p, s3, PRelease, []);
    Then(p, s2, PSlot, [PRelease] + []);
    Then(p, s1, PTail(N(s)), [PSlot] + ([PRelease] + []));
    ls := [PTail(N(s))] + ([PSlot] + ([PRelease] + []));
    Then(p, s, PBegin(x), ls);
    ls := [PBegin(x)] + ls;
  }

  lemma {:induction false} CachedPushes<T>(p: Params, s: State<T>, x: T, k: nat) returns (ls: seq<Label<T>>)
    requires Between(p, s, 1) && N(s) + k == p.cap
    ensures Legal(p, s, ls) && |Events(p, s, ls)| == k
    ensures Events(p, s, ls) + [PushReturns(x, false)] == PushResults(x, k)
    ensures var s' := Run(p, s, ls); Between(p, s', 1) && N(s') == p.cap && s'.head == s.head
    decreases k
  {
    if k == 0 { return []; }
    var a := CachedPush(p, s, x, 1);
    var b := CachedPushes(p, Run(p, s, a), x, k - 1);
    Joined(p, s, a, b);
    ls := a + b;
    assert Events(p, s, ls) + [PushReturns(x, false)]
        == [PushReturns(x, true)] + (Events(p, Run(p, s, a), b) + [PushReturns(x, false)]);
  }

  lemma {:induction false} FirstPop<T>(p: Params, s: State<T>, x: T) returns (ls: seq<Label<T>>)
    requires Between(p, s, 0) && N(s) == 1 && M(s) == 0 && s.pushed == [x]
    ensures Legal(p, s, ls) && Events(p, s, ls) == [PopReturns(Some(x))]
    ensures var s' := Run(p, s, ls); Between(p, s', 1) && N(s') == 1 && M(s') == 1
  {
    var a := FirstPopLoads(p, s);
    var b := ReadAndRelease(p, Run(p, s, a), x);
    Joined(p, s, a, b);
    ls := a + b;
  }

  lemma {:induction false} FirstPopLoads<T>(p: Params, s: State<T>) returns (ls: seq<Label<T>>)
    requires Between(p, s, 0) && N(s) == 1 && M(s) == 0
    ensures Legal(p, s, ls) && Events(p, s, ls) == []
    ensures var s' := Run(p, s, ls);
            && Inv(p, s') && s'.cons.pc.CRead? && s'.cons.seenTail == 1
            && s'.prod == s.prod && s'.tail == s.tail && s'.head == s.head && s'.pushed == s.pushed
  {
    WrapEq(1, 0, p.bits);
    var s1 := Exec(p, s, CBegin);
    StepInv(p, s, CBegin);
    var s2 := Exec(p, s1, CHead(0));
    StepInv(p, s1, CHead(0));
    StepInv(p, s2, CTail(1));
    Then(p, s2, CTail(1), []);
    Then(p, s1, CHead(0), [CTail(1)] + []);
    Then(p, s, CBegin, [CHead(0)] + ([CTail(1)] + []));
    ls := [CBegin] + ([CHead(0)] + ([CTail(1)] + []));
  }

  lemma {:induction false} ReadAndRelease<T>(p: Params, s: State<T>, x: T) returns (ls: seq<Label<T>>)
    requires Inv(p, s) && s.cons.pc.CRead? && M(s) < |s.pushed| && s.pushed[M(s)] == x && s.prod.pc.PIdle?
    ensures Legal(p, s, ls) && Events(p, s, ls) == [PopReturns(Some(x))]
    ensures var s' := Run(p, s, ls);
            && Inv(p, s') && s'.cons.pc.CIdle? && s'.cons.seenTail == s.cons.seenTail
            && s'.prod == s.prod && s'.tail == s.tail && M(s') == M(s) + 1
  {
    ConsumerKnowsSlot(p, s);
    var s1 := Exec(p, s, CSlot);
    StepInv(p, s, CSlot);
    StepInv(p, s1, CRelease);
    Then(p, s1, CRelease, []);
    Then(p, s, CSlot, [CRelease] + []);
    ls := [CSlot] + ([CRelease] + []);
  }

  /** It reads the old head 0 again, although one item has been popped. */
  lemma {:induction false} StaleFull<T>(p: Params, s: State<T>, x: T) returns (ls: seq<Label<T>>)
    requires Between(p, s, 1) && N(s) == p.cap
    ensures Legal(p, s, ls) && Events(p, s, ls) == [PushReturns(x, false)]
    ensures var s' := Run(p, s, ls);
            Between(p, s', 1) && s'.head == s.head && s'.tail == s.tail && s'.pushed == s.pushed
  {
    WrapSub(N(s), 0, p.bits);
    var s1 := Exec(p, s, PBegin(x));
    StepInv(p, s, PBegin(x));
    var s2 := Exec(p, s1, PTail(N(s)));
    StepInv(p, s1, PTail(N(s)));
    StepInv(p, s2, PHead(0));
    Then(p, s2, PHead(0), []);
    Then(p, s1, PTail(N(s)), [PHead(0)] + []);
    Then(p, s, PBegin(x), [PTail(N(s))] + ([PHead(0)] + []));
    ls := [PBegin(x)] + ([PTail(N(s))] + ([PHead(0)] + []));
  }

  /** It reads the old tail 1 again, although the queue holds items. */
  lemma {:induction false} StaleEmpty<T>(p: Params, s: State<T>) returns (ls: seq<Label<T>>)
    requires Between(p, s, 1) && M(s) == 1
    ensures Legal(p, s, ls) && Events(p, s, ls) == [PopReturns(None)]
    ensures var s' := Run(p, s, ls); Inv(p, s') && s'.head == s.head && s'.pushed == s.pushed
  {
    var s1 := Exec(p, s, CBegin);
    StepInv(p, s, CBegin);
    var s2 := Exec(p, s1, CHead(1));
    StepInv(p, s1, CHead(1));
    StepInv(p, s2, CTail(1));
    Then(p, s2, CTail(1), []);
    Then(p, s1, CHead(1), [CTail(1)] + []);
    Then(p, s, CBegin, [CHead(1)] + ([CTail(1)] + []));
    ls := [CBegin] + ([CHead(1)] + ([CTail(1)] + []));
  }

  lemma {:induction false} OneAfterTheOther<T>(ps: seq<Event<T>>, os: seq<Event<T>>)
    ensures Merges(ps, os, ps + os)
    decreases |ps|, |os|
  {
    if ps != [] {
      assert (ps + os)[1..] == ps[1..] + os;
      OneAfterTheOther(ps[1..], os);
    } else if os != [] {
      assert ps + os == os;
      assert os[1..] == ps + os[1..];
      OneAfterTheOther(ps, os[1..]);
    }
  }

  lemma {:induction false} PushNext<T>(e: Event<T>, ps: seq<Event<T>>, os: seq<Event<T>>, evs: seq<Event<T>>)
    requires Merges(ps, os, evs)
    ensures Merges([e] + ps, os, [e] + evs)
  {
    assert ([e] + ps)[1..] == ps && ([e] + evs)[1..] == evs;
  }

  lemma {:induction false} PopNext<T>(e: Event<T>, ps: seq<Event<T>>, os: seq<Event<T>>, evs: seq<Event<T>>)
    requires Merges(ps, os, evs)
    ensures Merges(ps, [e] + os, [e] + evs)
  {
    assert ([e] + os)[1..] == os && ([e] + evs)[1..] == evs;
  }

  /** The run from the first pop on. */
  lemma {:induction false} StaleEnd<T>(p: Params, s: State<T>, x: T) returns (ls: seq<Label<T>>)
    requires Between(p, s, 1) && N(s) == 1 && M(s) == 1 && p.cap >= 2
    ensures Legal(p, s, ls) && Inv(p, Run(p, s, ls)) && |Contents(Run(p, s, ls))| == p.cap - 1
    ensures Events(p, s, ls) == PushResults(x, p.cap - 1) + [PopReturns(None)]
  {
    var c := CachedPushes(p, s, x, p.cap - 1);
    var s3 := Run(p, s, c);
    var d := StaleFull(p, s3, x);
    Joined(p, s, c, d);
    var s4 := Run(p, s, c + d);
    var e := StaleEmpty(p, s4);
    Joined(p, s, c + d, e);
    ls := c + d + e;
  }

  /** For every Capacity of at least 2: push, pop, push until Capacity pushes have succeeded; then
      try_push reads a stale head and returns false, and try_pop reads a stale tail and returns
      false, with Capacity - 1 items in the queue. The results of the two threads fit no order. */
  lemma {:induction false} StaleFailures<T(!new)>(p: Params, buf: seq<T>, x: T) returns (ls: seq<Label<T>>)
    requires p.Ok() && p.cached && p.cap >= 2 && |buf| == p.cap
    ensures Legal(p, Init(buf), ls) && Inv(p, Run(p, Init(buf), ls))
    ensures |Contents(Run(p, Init(buf), ls))| == p.cap - 1
    ensures Merges(PushResults(x, p.cap), PopResults(x), Events(p, Init(buf), ls))
    ensures forall evs: seq<Event<T>>, q': seq<T> | Merges(PushResults(x, p.cap), PopResults(x), evs) ::
              !Replays([], evs, p.cap, q')
  {
    ls := StaleRun(p, buf, x);
    StaleMerge(x, p.cap);
    forall evs: seq<Event<T>>, q': seq<T> | Merges(PushResults(x, p.cap), PopResults(x), evs)
      ensures !Replays([], evs, p.cap, q')
    {
      NoOrder(x, p.cap, p.cap, 0, evs, [], q');
    }
  }

  function StaleEvents<T>(x: T, cap: nat): seq<Event<T>>
    requires cap >= 2
  {
    [PushReturns(x, true)] + ([PopReturns(Some(x))] + (PushResults(x, cap - 1) + [PopReturns(None)]))
  }

  lemma {:induction false} StaleStart<T>(p: Params, buf: seq<T>, x: T) returns (ls: seq<Label<T>>)
    requires p.Ok() && p.cached && p.cap >= 2 && |buf| == p.cap
    ensures Legal(p, Init(buf), ls) && Events(p, Init(buf), ls) == [PushReturns(x, true)] + [PopReturns(Some(x))]
    ensures var s := Run(p, Init(buf), ls); Between(p, s, 1) && N(s) == 1 && M(s) == 1
  {
    var s0 := Init(buf);
    InitInv(p, buf);
    WrapSmall(0, p.bits);
    var a := CachedPush(p, s0, x, 0);
    var b := FirstPop(p, Run(p, s0, a), x);
    Joined(p, s0, a, b);
    ls := a + b;
  }

  lemma {:induction false} StaleRun<T>(p: Params, buf: seq<T>, x: T) returns (ls: seq<Label<T>>)
    requires p.Ok() && p.cached && p.cap >= 2 && |buf| == p.cap
    ensures Legal(p, Init(buf), ls) && Inv(p, Run(p, Init(buf), ls))
    ensures |Contents(Run(p, Init(buf), ls))| == p.cap - 1
    ensures Events(p, Init(buf), ls) == StaleEvents(x, p.cap)
  {
    var a := StaleStart(p, buf, x);
    var b := StaleEnd(p, Run(p, Init(buf), a), x);
    Joined(p, Init(buf), a, b);
    ls := a + b;
  }

  lemma {:induction false} StaleMerge<T>(x: T, cap: nat)
    requires cap >= 2
    ensures Merges(PushResults(x, cap), PopResults(x), StaleEvents(x, cap))
  {
    var ps, none := PushResults(x, cap - 1), [PopReturns(None)];
    OneAfterTheOther(ps, none);
    PopNext(PopReturns(Some(x)), ps, none, ps + none);
    PushNext(PushReturns(x, true), ps, [PopReturns(Some(x))] + none, [PopReturns(Some(x))] + (ps + none));
    assert PopResults(x) == [PopReturns(Some(x))] + none;
    assert PushResults(x, cap) == [PushReturns(x, true)] + ps;
  }
}
