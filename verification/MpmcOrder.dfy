/** What happens before what in the MPMC queue, exactly: a thread's happens-before set is made of its
    own accesses and of what the sequence messages publish that it has read or written. Nothing
    else orders anything, in particular neither counter does. */
module MpmcOrder {
  import opened Memory
  import opened MpmcMachine
  import opened MpmcInvariant
  import opened MpmcSteps
  import opened MpmcTheorems

  ghost predicate Own<T>(s: State<T>, t: nat, e: nat) { e < |s.log| && s.log[e].tid == t }

  ghost predicate HasSeen(seqs: seq<seq<Msg>>, seen: seq<nat>, c: nat) {
    c < |seqs| && c < |seen| && seen[c] < |seqs[c]|
  }

  /** Published by the newest message of some slot that a thread which has seen so much has read or
      written. */
  ghost predicate Acquired(seqs: seq<seq<Msg>>, seen: seq<nat>, e: nat) {
    exists c: nat :: HasSeen(seqs, seen, c) && e in seqs[c][seen[c]].hb
  }

  ghost predicate ThreadOrder<T>(s: State<T>, t: nat)
    requires t < |s.threads|
  {
    forall e: nat :: e in s.threads[t].hb <==> Own(s, t, e) || Acquired(s.seqs, s.threads[t].seenSeq, e)
  }

  lemma {:induction false} AcquiredLoad(seqs: seq<seq<Msg>>, seen: seq<nat>, d: nat, i: nat, e: nat)
    requires HasSeen(seqs, seen, d) && seen[d] <= i < |seqs[d]| && seqs[d][seen[d]].hb <= seqs[d][i].hb
    ensures Acquired(seqs, seen[d := i], e) <==> Acquired(seqs, seen, e) || e in seqs[d][i].hb
  {
    if e in seqs[d][i].hb { assert HasSeen(seqs, seen[d := i], d); }
    forall c: nat
      ensures HasSeen(seqs, seen[d := i], c) <==> HasSeen(seqs, seen, c)
    {
    }
  }

  /** A message of one's own covers what one had acquired from the slot. */
  lemma {:induction false} AcquiredStore(seqs: seq<seq<Msg>>, seen: seq<nat>, d: nat, m: Msg, e: nat)
    requires HasSeen(seqs, seen, d) && seqs[d][seen[d]].hb <= m.hb
    requires |seen| == |seqs| && forall c | 0 <= c < |seqs| :: seen[c] < |seqs[c]|
    ensures Acquired(seqs[d := seqs[d] + [m]], seen[d := |seqs[d]|], e) <==> Acquired(seqs, seen, e) || e in m.hb
  {
    AcquiredByOthers(seqs, seen, d, m, e);
    AcquiredLoad(seqs[d := seqs[d] + [m]], seen, d, |seqs[d]|, e);
  }

  lemma {:induction false} AcquiredByOthers(seqs: seq<seq<Msg>>, seen: seq<nat>, d: nat, m: Msg, e: nat)
    requires d < |seqs| && |seen| == |seqs| && forall c | 0 <= c < |seqs| :: seen[c] < |seqs[c]|
    ensures Acquired(seqs[d := seqs[d] + [m]], seen, e) <==> Acquired(seqs, seen, e)
  {
    forall c: nat
      ensures HasSeen(seqs[d := seqs[d] + [m]], seen, c) <==> HasSeen(seqs, seen, c)
    {
    }
  }

  /** A slot's messages publish more and more, the first nothing, and each only what its thread knows. */
  ghost predicate SlotOrder<T>(s: State<T>, c: nat)
    requires c < |s.seqs|
  {
    var h := s.seqs[c];
    && h != [] && h[0].hb == {}
    && (forall i, j | 0 <= i <= j < |h| :: h[i].hb <= h[j].hb)
    && (forall j | 1 <= j < |h| :: h[j].tid < |s.threads| && h[j].hb <= s.threads[h[j].tid].hb)
  }

  ghost predicate Order<T>(s: State<T>) {
    && PastOnly(s)
    && (forall t: nat | t < |s.threads| :: ThreadOrder(s, t))
    && (forall c: nat | c < |s.seqs| :: SlotOrder(s, c))
    && (forall j: nat | j < |s.log| ::
          s.log[j].tid < |s.threads| && s.log[j].known <= s.threads[s.log[j].tid].hb)
  }

  /** A step that changes no set, no message and no access. */
  lemma {:induction false} PositionOrder<T>(p: Params, s: State<T>, t: nat, a: Step<T>)
    requires Inv(p, s) && Order(s) && Enabled(p, s, t, a) && !a.LoadSeq? && !a.Touch? && !a.Publish?
    ensures Order(Exec(p, s, t, a))
  {
    var s' := Exec(p, s, t, a);
    StepPast(p, s, t, a);
    forall u: nat | u < |s'.threads|
      ensures ThreadOrder(s', u)
    {
      SameOrder(s, s', u);
    }
    forall c: nat | c < |s'.seqs|
      ensures SlotOrder(s', c)
    {
      assert SlotOrder(s, c);
    }
  }

  lemma {:induction false} SameOrder<T>(s: State<T>, s': State<T>, u: nat)
    requires u < |s.threads| && u < |s'.threads| && ThreadOrder(s, u)
    requires s'.log == s.log && s'.seqs == s.seqs
    requires s'.threads[u].hb == s.threads[u].hb && s'.threads[u].seenSeq == s.threads[u].seenSeq
    ensures ThreadOrder(s', u)
  {
    forall e: nat
      ensures e in s'.threads[u].hb <==> Own(s', u, e) || Acquired(s'.seqs, s'.threads[u].seenSeq, e)
    {
      assert Own(s', u, e) <==> Own(s, u, e);
    }
  }

  /** An acquire load: it adds what the message publishes, which covers what an older one did. */
  lemma {:induction false} LoadOrder<T>(p: Params, s: State<T>, t: nat, i: nat)
    requires Inv(p, s) && Order(s) && Enabled(p, s, t, LoadSeq(i))
    ensures Order(Exec(p, s, t, LoadSeq(i)))
  {
    var s' := Exec(p, s, t, LoadSeq(i));
    StepPast(p, s, t, LoadSeq(i));
    LoadSeqBranch(p, s, t, i);
    assert ThreadInv(p, s, t);
    forall u: nat | u < |s'.threads|
      ensures ThreadOrder(s', u)
    {
      if u == t { LoadOwnOrder(p, s, t, i); } else { SameOrder(s, s', u); }
    }
    forall c: nat | c < |s'.seqs|
      ensures SlotOrder(s', c)
    {
      assert SlotOrder(s, c);
    }
  }

  lemma {:induction false} LoadOwnOrder<T>(p: Params, s: State<T>, t: nat, i: nat)
    requires Inv(p, s) && Order(s) && Enabled(p, s, t, LoadSeq(i)) && !Exec(p, s, t, LoadSeq(i)).fault
    ensures ThreadOrder(Exec(p, s, t, LoadSeq(i)), t)
  {
    var s' := Exec(p, s, t, LoadSeq(i));
    var d := p.Slot(s.threads[t].pc.pos);
    assert ThreadInv(p, s, t);
    assert SlotOrder(s, d);
    assert ThreadOrder(s, t);
    forall e: nat
      ensures e in s'.threads[t].hb <==> Own(s', t, e) || Acquired(s'.seqs, s'.threads[t].seenSeq, e)
    {
      AcquiredLoad(s.seqs, s.threads[t].seenSeq, d, i, e);
      assert Own(s', t, e) <==> Own(s, t, e);
    }
  }

  /** An access: it follows what its thread knows, and no other thread is ordered after it yet. */
  lemma {:induction false} TouchOrder<T>(p: Params, s: State<T>, t: nat)
    requires Inv(p, s) && Order(s) && Enabled(p, s, t, Touch)
    ensures Order(Exec(p, s, t, Touch))
  {
    var s' := Exec(p, s, t, Touch);
    StepPast(p, s, t, Touch);
    forall u: nat | u < |s'.threads|
      ensures ThreadOrder(s', u)
    {
      TouchThreadOrder(p, s, t, u);
    }
    forall c: nat | c < |s'.seqs|
      ensures SlotOrder(s', c)
    {
      assert SlotOrder(s, c);
    }
  }

  lemma {:induction false} TouchThreadOrder<T>(p: Params, s: State<T>, t: nat, u: nat)
    requires Order(s) && Enabled(p, s, t, Touch) && u < |s.threads|
    ensures ThreadOrder(Exec(p, s, t, Touch), u)
  {
    var s' := Exec(p, s, t, Touch);
    assert ThreadOrder(s, u);
    forall e: nat
      ensures e in s'.threads[u].hb <==> Own(s', u, e) || Acquired(s'.seqs, s'.threads[u].seenSeq, e)
    {
      assert Own(s', u, e) <==> Own(s, u, e) || (u == t && e == |s.log|);
    }
  }

  /** A release store: it publishes what its thread knows. */
  lemma {:induction false} PublishOrder<T>(p: Params, s: State<T>, t: nat)
    requires Inv(p, s) && Order(s) && Enabled(p, s, t, Publish)
    ensures Order(Exec(p, s, t, Publish))
  {
    var s' := Exec(p, s, t, Publish);
    StepPast(p, s, t, Publish);
    OwnerSlot(p, s, t);
    forall u: nat | u < |s'.threads|
      ensures ThreadOrder(s', u)
    {
      PublishThreadOrder(p, s, t, u);
    }
    forall c: nat | c < |s'.seqs|
      ensures SlotOrder(s', c)
    {
      PublishSlotOrder(p, s, t, c);
    }
  }

  /** The storing thread knows what the slot's last message publishes. */
  lemma {:induction false} KnowsLast<T>(p: Params, s: State<T>, t: nat)
    requires Inv(p, s) && Order(s) && t < |s.threads| && Owner(s.threads[t].pc)
    ensures var d := p.Slot(s.threads[t].pc.pos);
            && d < |s.seqs| && HasSeen(s.seqs, s.threads[t].seenSeq, d)
            && s.threads[t].seenSeq[d] == |s.seqs[d]| - 1 && s.seqs[d][|s.seqs[d]| - 1].hb <= s.threads[t].hb
  {
    OwnerSlot(p, s, t);
    var d := p.Slot(s.threads[t].pc.pos);
    assert ThreadOrder(s, t);
    forall e | e in s.seqs[d][|s.seqs[d]| - 1].hb
      ensures e in s.threads[t].hb
    {
      assert HasSeen(s.seqs, s.threads[t].seenSeq, d);
      assert Acquired(s.seqs, s.threads[t].seenSeq, e);
    }
  }

  lemma {:induction false} PublishSlotOrder<T>(p: Params, s: State<T>, t: nat, c: nat)
    requires Inv(p, s) && Order(s) && Enabled(p, s, t, Publish) && c < |s.seqs|
    ensures SlotOrder(Exec(p, s, t, Publish), c)
  {
    KnowsLast(p, s, t);
    assert SlotOrder(s, c);
  }

  lemma {:induction false} PublishThreadOrder<T>(p: Params, s: State<T>, t: nat, u: nat)
    requires Inv(p, s) && Order(s) && Enabled(p, s, t, Publish) && u < |s.threads|
    ensures ThreadOrder(Exec(p, s, t, Publish), u)
  {
    var s' := Exec(p, s, t, Publish);
    KnowsLast(p, s, t);
    var d := p.Slot(s.threads[t].pc.pos);
    var m := s'.seqs[d][|s.seqs[d]|];
    assert ThreadOrder(s, u) && ThreadInv(p, s, u);
    forall e: nat
      ensures e in s'.threads[u].hb <==> Own(s', u, e) || Acquired(s'.seqs, s'.threads[u].seenSeq, e)
    {
      assert Own(s', u, e) <==> Own(s, u, e);
      if u == t {
        AcquiredStore(s.seqs, s.threads[u].seenSeq, d, m, e);
      } else {
        AcquiredByOthers(s.seqs, s.threads[u].seenSeq, d, m, e);
      }
    }
  }

  lemma {:induction false} OrderStep<T>(p: Params, s: State<T>, t: nat, a: Step<T>)
    requires Inv(p, s) && Order(s) && Enabled(p, s, t, a)
    ensures Order(Exec(p, s, t, a))
  {
    match a
    case LoadSeq(i) => LoadOrder(p, s, t, i);
    case Touch => TouchOrder(p, s, t);
    case Publish => PublishOrder(p, s, t);
    case _ => PositionOrder(p, s, t, a);
  }

  lemma {:induction false} OrderRun<T>(p: Params, s: State<T>, ls: seq<Label<T>>)
    requires Inv(p, s) && Order(s) && Legal(p, s, ls) && E(Run(p, s, ls)) + p.cap <= p.Half()
    ensures Order(Run(p, s, ls))
    decreases |ls|
  {
    if ls != [] {
      var s' := Exec(p, s, ls[0].thread, ls[0].step);
      EnqueueGrows(p, s', ls[1..]);
      StepInv(p, s, ls[0].thread, ls[0].step);
      OrderStep(p, s, ls[0].thread, ls[0].step);
      OrderRun(p, s', ls[1..]);
    }
  }

  /** In every run: a thread is ordered after exactly its own accesses and those that the sequence
      messages publish which it has acquired or stored; an access follows only what its thread
      knows, and a message publishes only that. */
  lemma {:induction false} OrderExact<T>(p: Params, buf: seq<T>, n: nat, ls: seq<Label<T>>)
    requires p.Ok() && p.cap >= 2 && |buf| == p.cap && Legal(p, Init(p, buf, n), ls)
    requires E(Run(p, Init(p, buf, n), ls)) + p.cap <= p.Half()
    ensures Order(Run(p, Init(p, buf, n), ls))
  {
    EnqueueGrows(p, Init(p, buf, n), ls);
    InitInv(p, buf, n);
    OrderRun(p, Init(p, buf, n), ls);
  }
}
