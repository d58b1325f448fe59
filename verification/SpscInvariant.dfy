/** What every step of the release/acquire SPSC machine keeps, and what that gives for every run:
    FIFO transfer, no data race, no slot outside the buffer, for every capacity the assertion
    admits, for indices that wrap any number of times and for arbitrarily stale loads. */
module SpscInvariant {
  import opened Bits
  import opened Memory
  import opened SpscMachine

  /** Unbounded number of completed pushes and pops. */
  function N<T>(s: State<T>): int { |s.tail| - 1 }
  function M<T>(s: State<T>): int { |s.head| - 1 }

  /** The queue's contents. */
  ghost function Contents<T>(s: State<T>): seq<T>
    requires 0 <= M(s) <= |s.pushed|
  {
    s.pushed[M(s)..]
  }

  ghost predicate Counts(hist: seq<Msg>, bits: nat) {
    && |hist| >= 1
    && forall i | 0 <= i < |hist| :: hist[i].val == Wrap(i, bits)
  }

  /** The order of the stale caches and the live indices. */
  ghost predicate Indices<T>(p: Params, s: State<T>) {
    && Counts(s.tail, p.bits) && Counts(s.head, p.bits)
    && s.prod.seenTail == N(s) && s.cons.seenHead == M(s)
    && s.prod.seenHead <= M(s) <= s.cons.seenTail <= N(s) <= s.prod.seenHead + p.cap
    && s.prod.headCache == Wrap(s.prod.seenHead, p.bits)
    && s.cons.tailCache == Wrap(s.cons.seenTail, p.bits)
  }

  ghost predicate Items<T>(p: Params, s: State<T>) {
    && |s.buf| == p.cap
    && |s.pushed| == N(s) && 0 <= M(s) <= N(s) <= M(s) + p.cap
    && s.popped == s.pushed[..M(s)]
    && forall i | M(s) <= i < N(s) :: s.buf[i % p.cap] == s.pushed[i]
  }

  ghost predicate ProdInv<T>(p: Params, s: State<T>)
    requires Indices(p, s) && Items(p, s)
  {
    match s.prod.pc
    case PIdle(_) => true
    case PLoadTail(_) => true
    case PLoadHead(_, t) => t == Wrap(N(s), p.bits)
    case PWrite(_, t) => t == Wrap(N(s), p.bits) && N(s) < s.prod.seenHead + p.cap
    case PPublish(x, t) => t == Wrap(N(s), p.bits) && N(s) < s.prod.seenHead + p.cap && s.buf[N(s) % p.cap] == x
  }

  ghost predicate ConsInv<T>(p: Params, s: State<T>)
    requires Indices(p, s) && Items(p, s)
  {
    match s.cons.pc
    case CIdle(_) => true
    case CLoadHead => true
    case CLoadTail(h) => h == Wrap(M(s), p.bits)
    case CRead(h) => h == Wrap(M(s), p.bits) && M(s) < s.cons.seenTail
    case CPublish(h, out) => h == Wrap(M(s), p.bits) && M(s) < s.cons.seenTail && out == s.pushed[M(s)]
  }

  /** Which accesses the messages and the threads know: the pushes below a published tail and the
      pops below a published head, with everything either side has acquired or done itself. */
  ghost predicate LogEntry<T>(p: Params, s: State<T>, e: nat)
    requires e < |s.log| && p.cap > 0
  {
    var a := s.log[e];
    && a.cell == a.pos % p.cap
    && (a.write ==>
          && e in s.prod.hb && a.pos <= N(s)
          && (a.pos == N(s) ==> s.prod.pc.PPublish?)
          && (forall i | a.pos < i < |s.tail| :: e in s.tail[i].hb))
    && (!a.write ==>
          && e in s.cons.hb && a.pos <= M(s)
          && (a.pos == M(s) ==> s.cons.pc.CPublish?)
          && (forall i | a.pos < i < |s.head| :: e in s.head[i].hb))
  }

  ghost predicate LogInv<T>(p: Params, s: State<T>)
    requires Indices(p, s)
  {
    && (s.log != [] ==> p.cap > 0)
    && (forall e: nat | e < |s.log| :: LogEntry(p, s, e))
    && s.head[s.prod.seenHead].hb <= s.prod.hb
    && s.tail[s.cons.seenTail].hb <= s.cons.hb
    && RaceFree(s.log)
  }

  ghost predicate Inv<T>(p: Params, s: State<T>) {
    && p.Ok()
    && Indices(p, s)
    && Items(p, s)
    && ProdInv(p, s) && ConsInv(p, s)
    && LogInv(p, s)
  }

  lemma {:induction false} InitInv<T>(p: Params, buf: seq<T>)
    requires p.Ok() && |buf| == p.cap
    ensures Inv(p, Init(buf))
  {
    WrapSmall(0, p.bits);
  }

  lemma {:induction false} ProducerKnowsSlot<T>(p: Params, s: State<T>)
    requires Inv(p, s) && s.prod.pc.PWrite?
    ensures p.cap > 0 && p.Slot(s.prod.pc.t) == N(s) % p.cap
    ensures Known(s.log, N(s) % p.cap, s.prod.hb)
  {
    SlotSurvivesWrap(N(s), p.cap, p.bits);
    forall e | 0 <= e < |s.log| && s.log[e].cell == N(s) % p.cap
      ensures e in s.prod.hb
    {
      assert LogEntry(p, s, e);
      var a := s.log[e];
      if !a.write && a.pos < N(s) {
        LapApart(a.pos, N(s), p.cap);
        assert a.pos < s.prod.seenHead;
      }
    }
  }

  lemma {:induction false} ConsumerKnowsSlot<T>(p: Params, s: State<T>)
    requires Inv(p, s) && s.cons.pc.CRead?
    ensures p.cap > 0 && p.Slot(s.cons.pc.h) == M(s) % p.cap
    ensures Known(s.log, M(s) % p.cap, s.cons.hb)
  {
    SlotSurvivesWrap(M(s), p.cap, p.bits);
    forall e | 0 <= e < |s.log| && s.log[e].cell == M(s) % p.cap
      ensures e in s.cons.hb
    {
      assert LogEntry(p, s, e);
      var a := s.log[e];
      if a.write && a.pos >= s.cons.seenTail {
        LapApart(M(s), a.pos, p.cap);
        assert false;
      }
    }
  }

  lemma {:induction false} ProducerLoads<T>(p: Params, s: State<T>, l: Label<T>)
    requires Inv(p, s) && Enabled(p, s, l) && (l.PTail? || l.PHead?)
    ensures var s' := Exec(p, s, l); Indices(p, s') && Items(p, s') && ProdInv(p, s') && ConsInv(p, s')
  {
    WrapSub(N(s), if l.PTail? then s.prod.seenHead else l.at, p.bits);
  }

  lemma {:induction false} ProducerStep<T>(p: Params, s: State<T>, l: Label<T>)
    requires Inv(p, s) && Enabled(p, s, l) && (l.PBegin? || l.PTail? || l.PHead? || l.PRelease?)
    ensures var s' := Exec(p, s, l); Indices(p, s') && Items(p, s') && ProdInv(p, s') && ConsInv(p, s')
  {
    match l
    case PBegin(_) =>
    case PRelease => WrapSucc(N(s), p.bits);
    case _ => ProducerLoads(p, s, l);
  }

  lemma {:induction false} WriteStep<T>(p: Params, s: State<T>)
    requires Inv(p, s) && Enabled(p, s, PSlot)
    ensures var s' := Exec(p, s, PSlot); Indices(p, s') && Items(p, s') && ProdInv(p, s') && ConsInv(p, s')
  {
    ProducerKnowsSlot(p, s);
    LanesApart(M(s), N(s), p.cap);
  }

  lemma {:induction false} ConsumerLoads<T>(p: Params, s: State<T>, l: Label<T>)
    requires Inv(p, s) && Enabled(p, s, l) && (l.CHead? || l.CTail?)
    ensures var s' := Exec(p, s, l); Indices(p, s') && Items(p, s') && ProdInv(p, s') && ConsInv(p, s')
  {
    WrapEq(if l.CHead? then s.cons.seenTail else l.at, M(s), p.bits);
  }

  lemma {:induction false} ConsumerStep<T>(p: Params, s: State<T>, l: Label<T>)
    requires Inv(p, s) && Enabled(p, s, l) && (l.CBegin? || l.CHead? || l.CTail? || l.CSlot? || l.CRelease?)
    ensures var s' := Exec(p, s, l); Indices(p, s') && Items(p, s') && ProdInv(p, s') && ConsInv(p, s')
  {
    match l
    case CBegin =>
    case CSlot => ConsumerKnowsSlot(p, s);
    case CRelease => WrapSucc(M(s), p.bits);
    case _ => ConsumerLoads(p, s, l);
  }

  /** Every step keeps the invariant. */
  lemma {:induction false} StepInv<T>(p: Params, s: State<T>, l: Label<T>)
    requires Inv(p, s) && Enabled(p, s, l)
    ensures Inv(p, Exec(p, s, l))
  {
    if l.PSlot? {
      WriteStep(p, s);
    } else if l.PBegin? || l.PTail? || l.PHead? || l.PRelease? {
      ProducerStep(p, s, l);
    } else {
      ConsumerStep(p, s, l);
    }
    StepLog(p, s, l);
  }

  /** A plain access keeps the log ordered. */
  lemma {:induction false} AccessLog<T>(p: Params, s: State<T>, l: Label<T>)
    requires Inv(p, s) && Enabled(p, s, l) && (l.PSlot? || l.CSlot?) && Indices(p, Exec(p, s, l))
    ensures LogInv(p, Exec(p, s, l))
  {
    var s' := Exec(p, s, l);
    if l.PSlot? { ProducerKnowsSlot(p, s); } else { ConsumerKnowsSlot(p, s); }
    forall e: nat | e < |s'.log|
      ensures LogEntry(p, s', e)
    {
      if e < |s.log| { assert LogEntry(p, s, e); }
    }
  }

  /** An atomic access only adds to what messages and threads know. */
  lemma {:induction false} StepLog<T>(p: Params, s: State<T>, l: Label<T>)
    requires Inv(p, s) && Enabled(p, s, l) && Indices(p, Exec(p, s, l))
    ensures LogInv(p, Exec(p, s, l))
  {
    if l.PSlot? || l.CSlot? {
      AccessLog(p, s, l);
    } else {
      forall e: nat | e < |s.log|
        ensures LogEntry(p, Exec(p, s, l), e)
      {
        assert LogEntry(p, s, e);
      }
    }
  }
}
