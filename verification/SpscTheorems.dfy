/** Whole-run results for the SPSC queue. */
module SpscTheorems {
  import opened Bits
  import opened Memory
  import opened Common
  import opened SpscMachine
  import opened SpscInvariant

  lemma {:induction false} RunInv<T>(p: Params, s: State<T>, ls: seq<Label<T>>)
    requires Inv(p, s) && Legal(p, s, ls)
    ensures Inv(p, Run(p, s, ls))
    decreases |ls|
  {
    if ls != [] {
      StepInv(p, s, ls[0]);
      RunInv(p, Exec(p, s, ls[0]), ls[1..]);
    }
  }

  ghost predicate PastOnly<T>(s: State<T>) {
    && Past(s.log, s.prod.hb) && Past(s.log, s.cons.hb) && KnownIsPast(s.log)
    && (forall m | m in s.tail :: Past(s.log, m.hb)) && (forall m | m in s.head :: Past(s.log, m.hb))
  }

  /** The happens-before sets of the machine only ever look back. */
  lemma {:induction false} RunPast<T>(p: Params, s: State<T>, ls: seq<Label<T>>)
    requires PastOnly(s) && Legal(p, s, ls)
    ensures PastOnly(Run(p, s, ls))
    decreases |ls|
  {
    if ls != [] {
      StepPast(p, s, ls[0]);
      RunPast(p, Exec(p, s, ls[0]), ls[1..]);
    }
  }

  lemma {:induction false} StepPast<T>(p: Params, s: State<T>, l: Label<T>)
    requires PastOnly(s) && Enabled(p, s, l)
    ensures PastOnly(Exec(p, s, l))
  {
    match l
    case PHead(i) => assert s.head[i] in s.head;
    case CTail(i) => assert s.tail[i] in s.tail;
    case _ =>
  }

  /** FIFO transfer without races: in every run, for every capacity the assertion admits and any
      number of index overflows, the items popped are the first items pushed, in order; the queue
      never holds more than its capacity; and every slot access happens after all earlier accesses
      of that slot. */
  lemma {:induction false} EveryRun<T>(p: Params, buf: seq<T>, ls: seq<Label<T>>)
    requires p.Ok() && |buf| == p.cap && Legal(p, Init(buf), ls)
    ensures var s := Run(p, Init(buf), ls);
            && s.popped <= s.pushed
            && |s.pushed| - |s.popped| <= p.cap
            && RaceFree(s.log) && KnownIsPast(s.log)
            && s.prod.seenHead <= |s.popped| <= s.cons.seenTail <= |s.pushed| <= s.prod.seenHead + p.cap
            && s.prod.headCache == Wrap(s.prod.seenHead, p.bits)
            && s.cons.tailCache == Wrap(s.cons.seenTail, p.bits)
  {
    InitInv(p, buf);
    RunInv(p, Init(buf), ls);
    RunPast(p, Init(buf), ls);
  }

  /** The race-freedom of a run that stops just before a slot access: the access about to happen
      is ordered after every access of that slot so far, also when the cached index made the call
      skip its acquire load. */
  lemma {:induction false} NextAccessOrdered<T>(p: Params, s: State<T>)
    requires Inv(p, s)
    ensures s.prod.pc.PWrite? ==> Known(s.log, p.Slot(s.prod.pc.t), s.prod.hb)
    ensures s.cons.pc.CRead? ==> Known(s.log, p.Slot(s.cons.pc.h), s.cons.hb)
  {
    if s.prod.pc.PWrite? { ProducerKnowsSlot(p, s); }
    if s.cons.pc.CRead? { ConsumerKnowsSlot(p, s); }
  }

  /** A call never gets stuck and never touches memory outside the buffer: its next access with
      the newest values is possible. With Capacity 0 no call reaches a slot. */
  lemma {:induction false} SlotInRange<T>(p: Params, s: State<T>)
    requires Inv(p, s)
    ensures !s.prod.pc.PIdle? ==> exists l :: Enabled(p, s, l) && Fresh(s, l) && NextOfProducer(s, l)
    ensures !s.cons.pc.CIdle? ==> exists l :: Enabled(p, s, l) && Fresh(s, l) && NextOfConsumer(s, l)
    ensures p.cap == 0 ==> !s.prod.pc.PWrite? && !s.cons.pc.CRead?
  {
    if !s.prod.pc.PIdle? { var l := NextProducer(p, s); }
    if !s.cons.pc.CIdle? { var l := NextConsumer(p, s); }
  }

  ghost predicate NextOfProducer<T>(s: State<T>, l: Label<T>) {
    match s.prod.pc
    case PIdle(_) => l.PBegin?
    case PLoadTail(_) => l.PTail?
    case PLoadHead(_, _) => l.PHead?
    case PWrite(_, _) => l.PSlot?
    case PPublish(_, _) => l.PRelease?
  }

  ghost predicate NextOfConsumer<T>(s: State<T>, l: Label<T>) {
    match s.cons.pc
    case CIdle(_) => l.CBegin?
    case CLoadHead => l.CHead?
    case CLoadTail(_) => l.CTail?
    case CRead(_) => l.CSlot?
    case CPublish(_, _) => l.CRelease?
  }

  lemma {:induction false} NextProducer<T>(p: Params, s: State<T>) returns (l: Label<T>)
    requires Inv(p, s) && !s.prod.pc.PIdle?
    ensures Enabled(p, s, l) && Fresh(s, l) && NextOfProducer(s, l)
  {
    match s.prod.pc
    case PLoadTail(_) => l := PTail(N(s));
    case PLoadHead(_, _) => l := PHead(M(s));
    case PWrite(_, _) => ProducerKnowsSlot(p, s); l := PSlot;
    case PPublish(_, _) => l := PRelease;
  }

  lemma {:induction false} NextConsumer<T>(p: Params, s: State<T>) returns (l: Label<T>)
    requires Inv(p, s) && !s.cons.pc.CIdle?
    ensures Enabled(p, s, l) && Fresh(s, l) && NextOfConsumer(s, l)
  {
    match s.cons.pc
    case CLoadHead => l := CHead(M(s));
    case CLoadTail(_) => l := CTail(N(s));
    case CRead(_) => ConsumerKnowsSlot(p, s); l := CSlot;
    case CPublish(_, _) => l := CRelease;
  }

  // ---------------------------------------------------------------- linearisation

  /** The queue as one atomic operation: what the paper design promises of try_push. */
  function SpecPush<T>(q: seq<T>, x: T, cap: nat): (bool, seq<T>) {
    if |q| == cap then (false, q) else (true, q + [x])
  }

  function SpecPop<T>(q: seq<T>): (Option<T>, seq<T>) {
    if q == [] then (None, q) else (Some(q[0]), q[1..])
  }

  /** The step at which a call takes effect: the release store when it succeeds, the load of the
      other side's index when it fails. */
  ghost predicate PushPoint<T>(p: Params, s: State<T>, l: Label<T>)
    requires Enabled(p, s, l)
  {
    l.PRelease? || (l.PHead? && Exec(p, s, l).prod.pc.PIdle?)
  }

  ghost predicate PopPoint<T>(p: Params, s: State<T>, l: Label<T>)
    requires Enabled(p, s, l)
  {
    l.CRelease? || (l.CTail? && Exec(p, s, l).cons.pc.CIdle?)
  }

  /** With stale loads a successful call still takes effect as the atomic queue's operation: a push
      that succeeds finds room and a pop that succeeds takes the oldest item. */
  lemma {:induction false} PushSucceeds<T>(p: Params, s: State<T>)
    requires Inv(p, s) && Enabled(p, s, PRelease)
    ensures Inv(p, Exec(p, s, PRelease))
    ensures SpecPush(Contents(s), s.prod.pc.item, p.cap) == (true, Contents(Exec(p, s, PRelease)))
  {
    var s' := Exec(p, s, PRelease);
    StepInv(p, s, PRelease);
    assert Contents(s') == Contents(s) + [s.prod.pc.item];
  }

  lemma {:induction false} PopSucceeds<T>(p: Params, s: State<T>)
    requires Inv(p, s) && Enabled(p, s, CRelease)
    ensures Inv(p, Exec(p, s, CRelease))
    ensures SpecPop(Contents(s)) == (Some(s.cons.pc.out), Contents(Exec(p, s, CRelease)))
  {
    var s' := Exec(p, s, CRelease);
    StepInv(p, s, CRelease);
    assert Contents(s)[1..] == Contents(s');
  }

  lemma {:induction false} QuietStep<T>(p: Params, s: State<T>, l: Label<T>)
    requires Inv(p, s) && Enabled(p, s, l) && !l.PRelease? && !l.CRelease?
    ensures var s' := Exec(p, s, l); s'.pushed == s.pushed && s'.head == s.head
  {
  }

  /** The step is a failing call's load of the other side's index. */
  ghost predicate Fails<T>(p: Params, s: State<T>, l: Label<T>)
    requires Enabled(p, s, l)
  {
    (l.PHead? && Exec(p, s, l).prod.pc.PIdle?) || (l.CTail? && Exec(p, s, l).cons.pc.CIdle?)
  }

  /** A failing call has found the queue full, or empty, exactly when that load read the newest value. */
  lemma {:induction false} FailsTruly<T>(p: Params, s: State<T>, l: Label<T>)
    requires Inv(p, s) && Enabled(p, s, l) && Fails(p, s, l)
    ensures Fresh(s, l) <==> if l.PHead? then |Contents(s)| == p.cap else Contents(s) == []
  {
    if l.PHead? { WrapSub(N(s), l.at, p.bits); } else { WrapEq(l.at, M(s), p.bits); }
  }

  /** Each call, cached or uncached, does and returns at its one linearisation point exactly what the
      atomic queue does, and no other step changes the queue; a failing call, if the load that made
      it fail read the newest value, as it does under sequential consistency. In particular false
      then means full and the empty result means empty, at that moment. */
  lemma {:induction false} Linearises<T>(p: Params, s: State<T>, l: Label<T>)
    requires Inv(p, s) && Enabled(p, s, l) && (Fails(p, s, l) ==> Fresh(s, l))
    ensures var s' := Exec(p, s, l);
            && Inv(p, s')
            && (PushPoint(p, s, l) ==> SpecPush(Contents(s), s.prod.pc.item, p.cap) == (s'.prod.pc.ok, Contents(s')))
            && (PopPoint(p, s, l) ==> SpecPop(Contents(s)) == (s'.cons.pc.got, Contents(s')))
            && (!PushPoint(p, s, l) && !PopPoint(p, s, l) ==> Contents(s') == Contents(s))
  {
    if l.PRelease? {
      PushSucceeds(p, s);
    } else if l.CRelease? {
      PopSucceeds(p, s);
    } else {
      StepInv(p, s, l);
      QuietStep(p, s, l);
      if Fails(p, s, l) { FailsTruly(p, s, l); }
    }
  }

  // ---------------------------------------------------------------- cached refines uncached

  datatype Event<T> = PushReturns(item: T, ok: bool) | PopReturns(got: Option<T>)

  /** What the calls of a run return, in the order they return. */
  ghost function Events<T>(p: Params, s: State<T>, ls: seq<Label<T>>): seq<Event<T>>
    requires Legal(p, s, ls)
    decreases |ls|
  {
    if ls == [] then [] else StepEvent(p, s, ls[0]) + Events(p, Exec(p, s, ls[0]), ls[1..])
  }

  ghost function StepEvent<T>(p: Params, s: State<T>, l: Label<T>): seq<Event<T>>
    requires Enabled(p, s, l)
  {
    var s' := Exec(p, s, l);
    if !s.prod.pc.PIdle? && s'.prod.pc.PIdle? then [PushReturns(s.prod.pc.item, s'.prod.pc.ok)]
    else if !s.cons.pc.CIdle? && s'.cons.pc.CIdle? then [PopReturns(s'.cons.pc.got)]
    else []
  }

  /** The atomic queue, given the same calls, returns what the events say and ends with q'. */
  ghost predicate Replays<T>(q: seq<T>, evs: seq<Event<T>>, cap: nat, q': seq<T>)
    decreases |evs|
  {
    if evs == [] then q == q'
    else match evs[0]
      case PushReturns(x, ok) =>
        SpecPush(q, x, cap).0 == ok && Replays(SpecPush(q, x, cap).1, evs[1..], cap, q')
      case PopReturns(got) =>
        SpecPop(q).0 == got && Replays(SpecPop(q).1, evs[1..], cap, q')
  }

  ghost predicate AllFresh<T>(p: Params, s: State<T>, ls: seq<Label<T>>)
    requires Legal(p, s, ls)
    decreases |ls|
  {
    ls == [] || (Fresh(s, ls[0]) && AllFresh(p, Exec(p, s, ls[0]), ls[1..]))
  }

  /** Every failing call's load of the other side's index reads the newest value. */
  ghost predicate FailuresFresh<T>(p: Params, s: State<T>, ls: seq<Label<T>>)
    requires Legal(p, s, ls)
    decreases |ls|
  {
    ls == [] || ((Fails(p, s, ls[0]) ==> Fresh(s, ls[0])) && FailuresFresh(p, Exec(p, s, ls[0]), ls[1..]))
  }

  /** Linearisability, exactly: in a release/acquire run, cached or uncached, the results of all calls
      are those of the atomic bounded queue called in the order the calls return, if and only if
      every failing call has failed on the newest value. Stale loads elsewhere do no harm. */
  lemma {:induction false} LinearisableExact<T>(p: Params, s: State<T>, ls: seq<Label<T>>)
    requires Inv(p, s) && Legal(p, s, ls)
    ensures Inv(p, Run(p, s, ls))
    ensures Replays(Contents(s), Events(p, s, ls), p.cap, Contents(Run(p, s, ls))) <==> FailuresFresh(p, s, ls)
    decreases |ls|
  {
    if ls != [] {
      var l, s' := ls[0], Exec(p, s, ls[0]);
      StepInv(p, s, l);
      LinearisableExact(p, s', ls[1..]);
      StepReplays(p, s, l, Events(p, s', ls[1..]), Contents(Run(p, s', ls[1..])));
    }
  }

  /** So they are in every sequentially consistent run. */
  lemma {:induction false} Linearisable<T>(p: Params, s: State<T>, ls: seq<Label<T>>)
    requires Inv(p, s) && Legal(p, s, ls) && AllFresh(p, s, ls)
    ensures Inv(p, Run(p, s, ls))
    ensures Replays(Contents(s), Events(p, s, ls), p.cap, Contents(Run(p, s, ls)))
  {
    FreshFailures(p, s, ls);
    LinearisableExact(p, s, ls);
  }

  lemma {:induction false} FreshFailures<T>(p: Params, s: State<T>, ls: seq<Label<T>>)
    requires Legal(p, s, ls) && AllFresh(p, s, ls)
    ensures FailuresFresh(p, s, ls)
    decreases |ls|
  {
    if ls != [] { FreshFailures(p, Exec(p, s, ls[0]), ls[1..]); }
  }

  lemma {:induction false} StepReplays<T>(p: Params, s: State<T>, l: Label<T>, rest: seq<Event<T>>, q': seq<T>)
    requires Inv(p, s) && Enabled(p, s, l)
    ensures Inv(p, Exec(p, s, l))
    ensures Replays(Contents(s), StepEvent(p, s, l) + rest, p.cap, q') <==>
              ((Fails(p, s, l) ==> Fresh(s, l)) && Replays(Contents(Exec(p, s, l)), rest, p.cap, q'))
  {
    StepInv(p, s, l);
    var e := StepEvent(p, s, l);
    EventAtPoint(p, s, l);
    if e == [] { assert e + rest == rest; } else { assert (e + rest)[1..] == rest; }
    if Fails(p, s, l) && !Fresh(s, l) { FailsTruly(p, s, l); } else { Linearises(p, s, l); }
  }

  /** A call returns at its linearisation point. */
  lemma {:induction false} EventAtPoint<T>(p: Params, s: State<T>, l: Label<T>)
    requires Inv(p, s) && Enabled(p, s, l)
    ensures PushPoint(p, s, l) ==> StepEvent(p, s, l) == [PushReturns(s.prod.pc.item, Exec(p, s, l).prod.pc.ok)]
    ensures PopPoint(p, s, l) ==> StepEvent(p, s, l) == [PopReturns(Exec(p, s, l).cons.pc.got)]
    ensures !PushPoint(p, s, l) && !PopPoint(p, s, l) ==> StepEvent(p, s, l) == []
  {
  }

  /** Skipping the load because the cached index leaves room is the same as making it and reading
      the old value again, which the memory model allows. So one step of the cached queue is one
      or two steps of the uncached one, to the same state. */
  lemma {:induction false} CachedStep<T>(p: Params, s: State<T>, l: Label<T>) returns (ls: seq<Label<T>>)
    requires p.cached && Inv(p, s) && Enabled(p, s, l)
    ensures var u := p.(cached := false);
            && Legal(u, s, ls)
            && Run(u, s, ls) == Exec(p, s, l)
            && Events(u, s, ls) == StepEvent(p, s, l)
  {
    var u := p.(cached := false);
    if SkipsHead(p, s, l) {
      SkippedLoadPush(p, s, l);
      ls := [l, PHead(s.prod.seenHead)];
    } else if SkipsTail(p, s, l) {
      SkippedLoadPop(p, s, l);
      ls := [l, CTail(s.cons.seenTail)];
    } else {
      ls := [l];
      OneStep(u, s, l);
    }
  }

  /** The cached index spares the call its load of the other side's index. */
  ghost predicate SkipsHead<T>(p: Params, s: State<T>, l: Label<T>)
    requires Enabled(p, s, l)
  {
    l.PTail? && Exec(p, s, l).prod.pc.PWrite?
  }

  ghost predicate SkipsTail<T>(p: Params, s: State<T>, l: Label<T>)
    requires Enabled(p, s, l)
  {
    l.CHead? && Exec(p, s, l).cons.pc.CRead?
  }

  lemma {:induction false} SkippedLoadPush<T>(p: Params, s: State<T>, l: Label<T>)
    requires p.cached && Inv(p, s) && Enabled(p, s, l) && SkipsHead(p, s, l)
    ensures var u, ls := p.(cached := false), [l, PHead(s.prod.seenHead)];
            && Legal(u, s, ls) && Run(u, s, ls) == Exec(p, s, l)
            && Events(u, s, ls) == StepEvent(p, s, l)
  {
    var u := p.(cached := false);
    var again: Label<T> := PHead(s.prod.seenHead);
    var end := Exec(u, Exec(u, s, l), again);
    assert s.prod.hb + s.head[s.prod.seenHead].hb == s.prod.hb;
    assert end.prod == Exec(p, s, l).prod;
    TwoSteps(u, s, l, again);
  }

  lemma {:induction false} SkippedLoadPop<T>(p: Params, s: State<T>, l: Label<T>)
    requires p.cached && Inv(p, s) && Enabled(p, s, l) && SkipsTail(p, s, l)
    ensures var u, ls := p.(cached := false), [l, CTail(s.cons.seenTail)];
            && Legal(u, s, ls) && Run(u, s, ls) == Exec(p, s, l)
            && Events(u, s, ls) == StepEvent(p, s, l)
  {
    var u := p.(cached := false);
    var again: Label<T> := CTail(s.cons.seenTail);
    var end := Exec(u, Exec(u, s, l), again);
    assert s.cons.hb + s.tail[s.cons.seenTail].hb == s.cons.hb;
    assert end.cons == Exec(p, s, l).cons;
    TwoSteps(u, s, l, again);
  }

  lemma {:induction false} OneStep<T>(p: Params, s: State<T>, l: Label<T>)
    requires Enabled(p, s, l)
    ensures Legal(p, s, [l]) && Run(p, s, [l]) == Exec(p, s, l) && Events(p, s, [l]) == StepEvent(p, s, l)
  {
    assert Legal(p, Exec(p, s, l), [l][1..]);
  }

  lemma {:induction false} TwoSteps<T>(p: Params, s: State<T>, a: Label<T>, b: Label<T>)
    requires Enabled(p, s, a) && Enabled(p, Exec(p, s, a), b)
    ensures Legal(p, s, [a, b]) && Run(p, s, [a, b]) == Exec(p, Exec(p, s, a), b)
    ensures Events(p, s, [a, b]) == StepEvent(p, s, a) + StepEvent(p, Exec(p, s, a), b)
  {
    OneStep(p, Exec(p, s, a), b);
    assert [a, b][1..] == [b];
  }

  lemma {:induction false} EventsAppend<T>(p: Params, s: State<T>, a: seq<Label<T>>, b: seq<Label<T>>)
    requires Legal(p, s, a) && Legal(p, Run(p, s, a), b) && Legal(p, s, a + b)
    ensures Events(p, s, a + b) == Events(p, s, a) + Events(p, Run(p, s, a), b)
    decreases |a|
  {
    if a == [] {
      assert a + b == b;
    } else {
      assert (a + b)[1..] == a[1..] + b;
      EventsAppend(p, Exec(p, s, a[0]), a[1..], b);
    }
  }

  /** Cached refines uncached: every run of the cached queue is matched by a run of the uncached
      queue that ends in the same state and whose calls return the same, in the same order. */
  lemma {:induction false} CachedRefinesUncached<T>(p: Params, s: State<T>, ls: seq<Label<T>>)
    returns (us: seq<Label<T>>)
    requires p.cached && Inv(p, s) && Legal(p, s, ls)
    ensures var u := p.(cached := false);
            && Legal(u, s, us)
            && Run(u, s, us) == Run(p, s, ls)
            && Events(u, s, us) == Events(p, s, ls)
    decreases |ls|
  {
    var u := p.(cached := false);
    if ls == [] {
      us := [];
    } else {
      var s' := Exec(p, s, ls[0]);
      var first := CachedStep(p, s, ls[0]);
      StepInv(p, s, ls[0]);
      var rest := CachedRefinesUncached(p, s', ls[1..]);
      us := first + rest;
      RunAppend(u, s, first, rest);
      EventsAppend(u, s, first, rest);
    }
  }

  // ---------------------------------------------------------------- the same, sequentially consistent

  /** Equal but for the caches and for what has been acquired along the way. */
  ghost predicate SameButCaches<T>(s: State<T>, w: State<T>) {
    && |s.tail| == |w.tail| && |s.head| == |w.head| && s.buf == w.buf
    && s.pushed == w.pushed && s.popped == w.popped
    && s.prod.pc == w.prod.pc && s.cons.pc == w.cons.pc
  }

  /** A step that skips no load is the same step of the uncached queue. */
  lemma {:induction false} FreshPlainStep<T>(p: Params, s: State<T>, w: State<T>, l: Label<T>)
    requires p.cached && Inv(p, s) && Inv(p.(cached := false), w) && SameButCaches(s, w)
    requires Enabled(p, s, l) && Fresh(s, l) && !SkipsHead(p, s, l) && !SkipsTail(p, s, l)
    ensures var u := p.(cached := false);
            && Enabled(u, w, l) && Fresh(w, l)
            && SameButCaches(Exec(p, s, l), Exec(u, w, l)) && StepEvent(u, w, l) == StepEvent(p, s, l)
  {
  }

  lemma {:induction false} FreshSkippedPush<T>(p: Params, s: State<T>, w: State<T>, l: Label<T>)
    requires p.cached && Inv(p, s) && Inv(p.(cached := false), w) && SameButCaches(s, w)
    requires Enabled(p, s, l) && Fresh(s, l) && SkipsHead(p, s, l)
    ensures var u, ls := p.(cached := false), [l, PHead(M(w))];
            && Legal(u, w, ls) && AllFresh(u, w, ls)
            && SameButCaches(Exec(p, s, l), Run(u, w, ls)) && Events(u, w, ls) == StepEvent(p, s, l)
  {
    var u := p.(cached := false);
    WrapSub(N(s), s.prod.seenHead, p.bits);
    WrapSub(N(s), M(s), p.bits);
    TwoSteps(u, w, l, PHead(M(w)));
    TwoFresh(u, w, l, PHead(M(w)));
  }

  lemma {:induction false} FreshSkippedPop<T>(p: Params, s: State<T>, w: State<T>, l: Label<T>)
    requires p.cached && Inv(p, s) && Inv(p.(cached := false), w) && SameButCaches(s, w)
    requires Enabled(p, s, l) && Fresh(s, l) && SkipsTail(p, s, l)
    ensures var u, ls := p.(cached := false), [l, CTail(N(w))];
            && Legal(u, w, ls) && AllFresh(u, w, ls)
            && SameButCaches(Exec(p, s, l), Run(u, w, ls)) && Events(u, w, ls) == StepEvent(p, s, l)
  {
    var u := p.(cached := false);
    WrapEq(s.cons.seenTail, M(s), p.bits);
    WrapEq(N(s), M(s), p.bits);
    TwoSteps(u, w, l, CTail(N(w)));
    TwoFresh(u, w, l, CTail(N(w)));
  }

  lemma {:induction false} TwoFresh<T>(p: Params, s: State<T>, a: Label<T>, b: Label<T>)
    requires Enabled(p, s, a) && Enabled(p, Exec(p, s, a), b) && Fresh(s, a) && Fresh(Exec(p, s, a), b)
    ensures Legal(p, s, [a, b]) && AllFresh(p, s, [a, b])
  {
    var s' := Exec(p, s, a);
    assert [a, b][1..] == [b];
    assert Legal(p, Exec(p, s', b), [b][1..]);
  }

  lemma {:induction false} FreshAppend<T>(p: Params, s: State<T>, a: seq<Label<T>>, b: seq<Label<T>>)
    requires Legal(p, s, a) && AllFresh(p, s, a) && Legal(p, Run(p, s, a), b) && AllFresh(p, Run(p, s, a), b)
    ensures Legal(p, s, a + b) && AllFresh(p, s, a + b)
    decreases |a|
  {
    RunAppend(p, s, a, b);
    if a == [] {
      assert a + b == b;
    } else {
      assert (a + b)[1..] == a[1..] + b;
      FreshAppend(p, Exec(p, s, a[0]), a[1..], b);
    }
  }

  lemma {:induction false} FreshStep<T>(p: Params, s: State<T>, w: State<T>, l: Label<T>) returns (ls: seq<Label<T>>)
    requires p.cached && Inv(p, s) && Inv(p.(cached := false), w) && SameButCaches(s, w)
    requires Enabled(p, s, l) && Fresh(s, l)
    ensures var u := p.(cached := false);
            && Legal(u, w, ls) && AllFresh(u, w, ls)
            && SameButCaches(Exec(p, s, l), Run(u, w, ls)) && Events(u, w, ls) == StepEvent(p, s, l)
  {
    var u := p.(cached := false);
    if SkipsHead(p, s, l) {
      FreshSkippedPush(p, s, w, l);
      ls := [l, PHead(M(w))];
    } else if SkipsTail(p, s, l) {
      FreshSkippedPop(p, s, w, l);
      ls := [l, CTail(N(w))];
    } else {
      FreshPlainStep(p, s, w, l);
      OneStep(u, w, l);
      ls := [l];
    }
  }

  /** Under sequential consistency too: a cached run that reads only newest values is matched by an
      uncached run that reads only newest values, with the same results and contents. */
  lemma {:induction false} FreshRefinesFresh<T>(p: Params, s: State<T>, w: State<T>, ls: seq<Label<T>>)
    returns (us: seq<Label<T>>)
    requires p.cached && Inv(p, s) && Inv(p.(cached := false), w) && SameButCaches(s, w)
    requires Legal(p, s, ls) && AllFresh(p, s, ls)
    ensures var u := p.(cached := false);
            && Legal(u, w, us) && AllFresh(u, w, us)
            && SameButCaches(Run(p, s, ls), Run(u, w, us)) && Events(u, w, us) == Events(p, s, ls)
    decreases |ls|
  {
    var u := p.(cached := false);
    if ls == [] {
      us := [];
    } else {
      var first := FreshStep(p, s, w, ls[0]);
      StepInv(p, s, ls[0]);
      RunInv(u, w, first);
      var rest := FreshRefinesFresh(p, Exec(p, s, ls[0]), Run(u, w, first), ls[1..]);
      us := first + rest;
      RunAppend(u, w, first, rest);
      EventsAppend(u, w, first, rest);
      FreshAppend(u, w, first, rest);
    }
  }
}
