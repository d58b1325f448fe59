/** What happens before what in the SPSC queue, exactly. The invariant says which earlier accesses a
    thread is ordered after; here is the other half: it is ordered after no others. */
module SpscOrder {
  import opened Memory
  import opened SpscMachine
  import opened SpscInvariant
  import opened SpscTheorems

  /** hb holds reads below head only, respectively writes below tail only. */
  ghost predicate ReadsBelow(log: seq<Access>, hb: set<nat>, head: nat) {
    forall e | e in hb && e < |log| && !log[e].write :: log[e].pos < head
  }

  ghost predicate WritesBelow(log: seq<Access>, hb: set<nat>, tail: nat) {
    forall e | e in hb && e < |log| && log[e].write :: log[e].pos < tail
  }

  /** Nothing is known that was not published: a tail message tells of the pushes below it, a head
      message of the pops below it, and either of nothing its own thread does not know. */
  ghost predicate Tells<T>(s: State<T>) {
    && (forall i | 0 <= i < |s.tail| :: s.tail[i].hb <= s.prod.hb && WritesBelow(s.log, s.tail[i].hb, i))
    && (forall i | 0 <= i < |s.head| :: s.head[i].hb <= s.cons.hb && ReadsBelow(s.log, s.head[i].hb, i))
  }

  /** An access follows nothing that its thread does not know. */
  ghost predicate Follows<T>(s: State<T>) {
    forall j | 0 <= j < |s.log| :: s.log[j].known <= if s.log[j].write then s.prod.hb else s.cons.hb
  }

  ghost predicate NothingElse<T>(s: State<T>) {
    && PastOnly(s)
    && ReadsBelow(s.log, s.prod.hb, s.prod.seenHead) && WritesBelow(s.log, s.cons.hb, s.cons.seenTail)
    && Tells(s) && Follows(s)
  }

  lemma {:induction false} LoadStep<T>(p: Params, s: State<T>, l: Label<T>)
    requires NothingElse(s) && Enabled(p, s, l) && !l.PSlot? && !l.CSlot? && !l.PRelease? && !l.CRelease?
    ensures NothingElse(Exec(p, s, l))
  {
    StepPast(p, s, l);
  }

  lemma {:induction false} WriteOrder<T>(p: Params, s: State<T>)
    requires NothingElse(s) && Enabled(p, s, PSlot)
    ensures NothingElse(Exec(p, s, PSlot))
  {
    StepPast(p, s, PSlot);
  }

  lemma {:induction false} ReadOrder<T>(p: Params, s: State<T>)
    requires NothingElse(s) && Enabled(p, s, CSlot)
    ensures NothingElse(Exec(p, s, CSlot))
  {
    StepPast(p, s, CSlot);
  }

  lemma {:induction false} PushRelease<T>(p: Params, s: State<T>)
    requires Inv(p, s) && NothingElse(s) && Enabled(p, s, PRelease)
    ensures NothingElse(Exec(p, s, PRelease))
  {
    StepPast(p, s, PRelease);
    forall e | e in s.prod.hb
      ensures s.log[e].write ==> s.log[e].pos < |s.tail|
    {
      assert LogEntry(p, s, e);
    }
  }

  lemma {:induction false} PopRelease<T>(p: Params, s: State<T>)
    requires Inv(p, s) && NothingElse(s) && Enabled(p, s, CRelease)
    ensures NothingElse(Exec(p, s, CRelease))
  {
    StepPast(p, s, CRelease);
    forall e | e in s.cons.hb
      ensures !s.log[e].write ==> s.log[e].pos < |s.head|
    {
      assert LogEntry(p, s, e);
    }
  }

  lemma {:induction false} NothingElseStep<T>(p: Params, s: State<T>, l: Label<T>)
    requires Inv(p, s) && NothingElse(s) && Enabled(p, s, l)
    ensures NothingElse(Exec(p, s, l))
  {
    match l
    case PSlot => WriteOrder(p, s);
    case CSlot => ReadOrder(p, s);
    case PRelease => PushRelease(p, s);
    case CRelease => PopRelease(p, s);
    case _ => LoadStep(p, s, l);
  }

  lemma {:induction false} NothingElseRun<T>(p: Params, s: State<T>, ls: seq<Label<T>>)
    requires Inv(p, s) && NothingElse(s) && Legal(p, s, ls)
    ensures Inv(p, Run(p, s, ls)) && NothingElse(Run(p, s, ls))
    decreases |ls|
  {
    if ls != [] {
      StepInv(p, s, ls[0]);
      NothingElseStep(p, s, ls[0]);
      NothingElseRun(p, Exec(p, s, ls[0]), ls[1..]);
    }
  }

  /** What the positions say a thread is ordered after. */
  ghost predicate BeforeProducer<T>(s: State<T>, e: nat) {
    e < |s.log| && (s.log[e].write || s.log[e].pos < s.prod.seenHead)
  }

  ghost predicate BeforeConsumer<T>(s: State<T>, e: nat) {
    e < |s.log| && (!s.log[e].write || s.log[e].pos < s.cons.seenTail)
  }

  lemma {:induction false} OrderHere<T>(p: Params, s: State<T>, e: nat)
    requires Inv(p, s) && NothingElse(s)
    ensures e in s.prod.hb <==> BeforeProducer(s, e)
    ensures e in s.cons.hb <==> BeforeConsumer(s, e)
  {
    if e < |s.log| { assert LogEntry(p, s, e); }
  }

  /** In every run the order is exactly the one that the queue's positions give: the producer comes
      after its own writes and after the reads below the newest head it has acquired, the consumer
      after its own reads and after the writes below the newest tail it has acquired. The relaxed
      loads of a thread's own index order nothing. */
  lemma {:induction false} OrderExact<T>(p: Params, buf: seq<T>, ls: seq<Label<T>>)
    requires p.Ok() && |buf| == p.cap && Legal(p, Init(buf), ls)
    ensures var s := Run(p, Init(buf), ls);
            && (forall e: nat :: e in s.prod.hb <==> BeforeProducer(s, e))
            && (forall e: nat :: e in s.cons.hb <==> BeforeConsumer(s, e))
            && Follows(s) && KnownIsPast(s.log)
  {
    InitInv(p, buf);
    NothingElseRun(p, Init(buf), ls);
    var s := Run(p, Init(buf), ls);
    forall e: nat
      ensures e in s.prod.hb <==> BeforeProducer(s, e)
      ensures e in s.cons.hb <==> BeforeConsumer(s, e)
    {
      OrderHere(p, s, e);
    }
  }
}
