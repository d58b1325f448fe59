/** Every step of the MPMC machine keeps the invariant. */
module MpmcSteps {
  import opened Bits
  import opened Memory
  import opened MpmcMachine
  import opened MpmcInvariant

  lemma {:induction false} InitInv<T>(p: Params, buf: seq<T>, n: nat)
    requires p.Ok() && p.cap >= 2 && |buf| == p.cap && p.cap <= p.Half()
    ensures Inv(p, Init(p, buf, n))
  {
    var s := Init(p, buf, n);
    forall c: nat | c < p.cap
      ensures SlotInv(p, s, c)
    {
      assert s.seqs[c] == [Msg(c, {}, 0)];
      ModUnique(c, p.cap, 0, c);
    }
  }

  predicate Owner<T>(pc: Pc<T>) {
    pc.PushWrite? || pc.PushPublish? || pc.PopRead? || pc.PopPublish?
  }

  /** A step that changes only its own thread, which owns no slot before or after. */
  lemma {:induction false} LocalStep<T>(p: Params, s: State<T>, s': State<T>, t: nat)
    requires Inv(p, s) && t < |s.threads| && |s'.threads| == |s.threads|
    requires s' == s.(threads := s.threads[t := s'.threads[t]])
    requires !Owner(s.threads[t].pc) && !Owner(s'.threads[t].pc) && ThreadInv(p, s', t)
    ensures Inv(p, s')
  {
    forall c: nat | c < p.cap
      ensures SlotInv(p, s', c)
    {
      assert SlotInv(p, s, c);
    }
    forall u: nat | u < |s'.threads|
      ensures ThreadInv(p, s', u)
    {
      if u != t { assert ThreadInv(p, s, u); }
    }
    forall k: nat | k < D(s)
      ensures PopInv(p, s', k)
    {
      assert PopInv(p, s, k);
    }
  }

  lemma {:induction false} PositionStep<T>(p: Params, s: State<T>, t: nat, a: Step<T>)
    requires Inv(p, s) && Enabled(p, s, t, a)
    requires a.BeginPush? || a.BeginPop? || a.LoadPos? || a.CasFail?
    ensures Inv(p, Exec(p, s, t, a))
  {
    assert ThreadInv(p, s, t);
    LocalStep(p, s, Exec(p, s, t, a), t);
  }

  /** The outcome of the sequence load in terms of the values, free of widths and masks. */
  lemma {:induction false} LoadSeqBranch<T>(p: Params, s: State<T>, t: nat, i: nat)
    requires Inv(p, s) && Enabled(p, s, t, LoadSeq(i))
    ensures var pc := s.threads[t].pc;
            var c := pc.pos % p.cap;
            && p.Slot(pc.pos) == c && i < |s.seqs[c]| && !Exec(p, s, t, LoadSeq(i)).fault
            && Exec(p, s, t, LoadSeq(i)).threads[t].pc
                 == Branch(pc, s.seqs[c][i].val - (if pc.PushSeq? then pc.pos else pc.pos + 1))
            && pc.pos <= (if pc.PushSeq? then E(s) else D(s))
  {
    assert ThreadInv(p, s, t);
    var pos := s.threads[t].pc.pos;
    Widths(p);
    SlotIsMod(p, pos);
    var c := pos % p.cap;
    ValueBound(p, s, c, i);
    if s.threads[t].pc.PopSeq? { WrapSmall(pos + 1, p.bits); }
    DifExact(p, s.seqs[c][i].val, if s.threads[t].pc.PushSeq? then pos else pos + 1);
  }

  lemma {:induction false} LoadSeqStep<T>(p: Params, s: State<T>, t: nat, i: nat)
    requires Inv(p, s) && Enabled(p, s, t, LoadSeq(i))
    ensures Inv(p, Exec(p, s, t, LoadSeq(i)))
  {
    LoadSeqBranch(p, s, t, i);
    LoadSeqThread(p, s, t, i);
    LocalStep(p, s, Exec(p, s, t, LoadSeq(i)), t);
  }

  /** What the thread has read when it goes for the claim. */
  lemma {:induction false} LoadSeqThread<T>(p: Params, s: State<T>, t: nat, i: nat)
    requires Inv(p, s) && Enabled(p, s, t, LoadSeq(i))
    ensures Shape(p, Exec(p, s, t, LoadSeq(i))) && ThreadInv(p, Exec(p, s, t, LoadSeq(i)), t)
  {
    LoadSeqBranch(p, s, t, i);
    assert ThreadInv(p, s, t);
  }

  /** Winning the push CAS: the thread takes over the slot from its last owner. */
  lemma {:induction false} ClaimPushShape<T>(p: Params, s: State<T>, t: nat)
    requires Inv(p, s) && Enabled(p, s, t, CasOk) && s.threads[t].pc.PushCas? && E(s) + 1 + p.cap <= p.Half()
    ensures Shape(p, Exec(p, s, t, CasOk)) && Owns(p, s, t, E(s), false) && s.threads[t].pc.pos == E(s)
  {
    var pos := E(s);
    assert ThreadInv(p, s, t);
    Widths(p);
    WrapSmall(pos + 1, p.bits);
    ClaimPushReadsLast(p, s, s.threads[t].seenSeq[pos % p.cap]);
    assert SlotInv(p, s, pos % p.cap);
    var h := s.seqs[pos % p.cap];
    assert pos < D(s) + p.cap by {
      if |h| == 1 { assert History(h, pos % p.cap, p.cap); }
    }
  }

  lemma {:induction false} ClaimPushSlot<T>(p: Params, s: State<T>, t: nat, c: nat)
    requires Inv(p, s) && Enabled(p, s, t, CasOk) && s.threads[t].pc.PushCas? && Shape(p, Exec(p, s, t, CasOk))
    requires Owns(p, s, t, E(s), false) && s.threads[t].pc.pos == E(s) && c < p.cap
    ensures SlotInv(p, Exec(p, s, t, CasOk), c)
  {
    assert SlotInv(p, s, c);
    if c != E(s) % p.cap {
      CurLane(s.seqs[c], c, p.cap);
      AddLap(Cur(s.seqs[c]), p.cap);
    }
  }

  lemma {:induction false} ClaimPushStep<T>(p: Params, s: State<T>, t: nat)
    requires Inv(p, s) && Enabled(p, s, t, CasOk) && s.threads[t].pc.PushCas? && E(s) + 1 + p.cap <= p.Half()
    ensures Inv(p, Exec(p, s, t, CasOk))
  {
    var s' := Exec(p, s, t, CasOk);
    ClaimPushShape(p, s, t);
    forall c: nat | c < p.cap
      ensures SlotInv(p, s', c)
    {
      ClaimPushSlot(p, s, t, c);
    }
    forall u: nat | u < |s'.threads|
      ensures ThreadInv(p, s', u)
    {
      assert ThreadInv(p, s, u);
    }
    forall k: nat | k < D(s')
      ensures PopInv(p, s', k)
    {
      assert PopInv(p, s, k);
    }
  }

  lemma {:induction false} ClaimPopShape<T>(p: Params, s: State<T>, t: nat)
    requires Inv(p, s) && Enabled(p, s, t, CasOk) && s.threads[t].pc.PopCas?
    ensures Shape(p, Exec(p, s, t, CasOk)) && Owns(p, s, t, D(s), true) && s.threads[t].pc.pos == D(s)
  {
    var pos := D(s);
    assert ThreadInv(p, s, t);
    Widths(p);
    WrapSmall(pos + 1, p.bits);
    ClaimPopReadsLast(p, s, s.threads[t].seenSeq[pos % p.cap]);
    assert SlotInv(p, s, pos % p.cap);
  }

  lemma {:induction false} ClaimPopSlot<T>(p: Params, s: State<T>, t: nat, c: nat)
    requires Inv(p, s) && Enabled(p, s, t, CasOk) && s.threads[t].pc.PopCas? && Shape(p, Exec(p, s, t, CasOk))
    requires Owns(p, s, t, D(s), true) && s.threads[t].pc.pos == D(s) && c < p.cap
    ensures SlotInv(p, Exec(p, s, t, CasOk), c)
  {
    assert SlotInv(p, s, c);
    if c != D(s) % p.cap { CurLane(s.seqs[c], c, p.cap); }
  }

  lemma {:induction false} ClaimPopStep<T>(p: Params, s: State<T>, t: nat)
    requires Inv(p, s) && Enabled(p, s, t, CasOk) && s.threads[t].pc.PopCas?
    ensures Inv(p, Exec(p, s, t, CasOk))
  {
    var s' := Exec(p, s, t, CasOk);
    ClaimPopShape(p, s, t);
    forall c: nat | c < p.cap
      ensures SlotInv(p, s', c)
    {
      ClaimPopSlot(p, s, t, c);
    }
    forall u: nat | u < |s'.threads|
      ensures ThreadInv(p, s', u)
    {
      assert ThreadInv(p, s, u);
    }
    forall k: nat | k < D(s')
      ensures PopInv(p, s', k)
    {
      if k < D(s) { assert PopInv(p, s, k); }
    }
  }

  /** Two owners never share a slot. */
  lemma {:induction false} OwnersApart<T>(p: Params, s: State<T>, t: nat, u: nat)
    requires Inv(p, s) && t < |s.threads| && u < |s.threads| && t != u
    requires Owner(s.threads[t].pc) && Owner(s.threads[u].pc)
    ensures s.threads[t].pc.pos % p.cap != s.threads[u].pc.pos % p.cap
  {
    assert ThreadInv(p, s, t);
    assert ThreadInv(p, s, u);
  }

  /** The owner is the thread the claim records name, so only it changes the slot. */
  lemma {:induction false} OwnerSlot<T>(p: Params, s: State<T>, t: nat)
    requires Inv(p, s) && t < |s.threads| && Owner(s.threads[t].pc)
    ensures var pos := s.threads[t].pc.pos;
            && pos < E(s) && p.Slot(pos) == pos % p.cap
            && pos + 1 < p.Half() && pos + p.cap < p.Half()
            && Owns(p, s, t, pos, s.threads[t].pc.PopRead? || s.threads[t].pc.PopPublish?)
  {
    assert ThreadInv(p, s, t);
    Widths(p);
    SlotIsMod(p, s.threads[t].pc.pos);
  }

  lemma {:induction false} TouchSlot<T>(p: Params, s: State<T>, t: nat, c: nat)
    requires Inv(p, s) && Enabled(p, s, t, Touch) && c < p.cap && Shape(p, Exec(p, s, t, Touch))
    ensures SlotInv(p, Exec(p, s, t, Touch), c)
  {
    OwnerSlot(p, s, t);
    assert ThreadInv(p, s, t);
    assert SlotInv(p, s, c);
  }

  lemma {:induction false} TouchThread<T>(p: Params, s: State<T>, t: nat, u: nat)
    requires Inv(p, s) && Enabled(p, s, t, Touch) && u < |s.threads| && Shape(p, Exec(p, s, t, Touch))
    ensures ThreadInv(p, Exec(p, s, t, Touch), u)
  {
    OwnerSlot(p, s, t);
    assert ThreadInv(p, s, t);
    assert ThreadInv(p, s, u);
    if u == t {
      assert SlotInv(p, s, s.threads[t].pc.pos % p.cap);
    } else if Owner(s.threads[u].pc) {
      OwnersApart(p, s, t, u);
    }
  }

  /** The owner's plain access. It follows every earlier access of the slot. */
  lemma {:induction false} TouchStep<T>(p: Params, s: State<T>, t: nat)
    requires Inv(p, s) && Enabled(p, s, t, Touch)
    ensures Inv(p, Exec(p, s, t, Touch))
  {
    var s' := Exec(p, s, t, Touch);
    OwnerSlot(p, s, t);
    assert Shape(p, s');
    forall c: nat | c < p.cap
      ensures SlotInv(p, s', c)
    {
      TouchSlot(p, s, t, c);
    }
    forall u: nat | u < |s'.threads|
      ensures ThreadInv(p, s', u)
    {
      TouchThread(p, s, t, u);
    }
    forall k: nat | k < D(s')
      ensures PopInv(p, s', k)
    {
      assert PopInv(p, s, k);
    }
  }

  /** What the release store publishes. */
  function Publishes<T>(p: Params, s: State<T>, t: nat): Msg
    requires t < |s.threads| && (s.threads[t].pc.PushPublish? || s.threads[t].pc.PopPublish?)
  {
    Msg(s.threads[t].pc.pos + (if s.threads[t].pc.PopPublish? then p.cap else 1), s.threads[t].hb, t)
  }

  lemma {:induction false} PublishShape<T>(p: Params, s: State<T>, t: nat)
    requires Inv(p, s) && Enabled(p, s, t, Publish)
    ensures var s' := Exec(p, s, t, Publish);
            var d := s.threads[t].pc.pos % p.cap;
            Shape(p, s') && s'.seqs == s.seqs[d := s.seqs[d] + [Publishes(p, s, t)]]
  {
    OwnerSlot(p, s, t);
    assert ThreadInv(p, s, t);
    var pos := s.threads[t].pc.pos;
    Widths(p);
    WrapSmall(pos + 1, p.bits);
    WrapSmall(pos + p.cap, p.bits);
  }

  lemma {:induction false} PublishEffect<T>(p: Params, s: State<T>, t: nat)
    requires Inv(p, s) && Enabled(p, s, t, Publish)
    ensures var s' := Exec(p, s, t, Publish);
            var pos := s.threads[t].pc.pos;
            var d := pos % p.cap;
            var pop := s.threads[t].pc.PopPublish?;
            && Shape(p, s')
            && s'.seqs == s.seqs[d := s.seqs[d] + [Publishes(p, s, t)]]
            && History(s'.seqs[d], d, p.cap) && Filled(s'.seqs[d]) == !pop
            && Cur(s'.seqs[d]) == (if pop then pos + p.cap else pos)
  {
    PublishShape(p, s, t);
    OwnerSlot(p, s, t);
    var pos := s.threads[t].pc.pos;
    assert SlotInv(p, s, pos % p.cap);
    HistoryAppend(s.seqs[pos % p.cap], pos % p.cap, p.cap, Publishes(p, s, t));
  }

  lemma {:induction false} PublishOwnSlot<T>(p: Params, s: State<T>, t: nat)
    requires Inv(p, s) && Enabled(p, s, t, Publish) && Shape(p, Exec(p, s, t, Publish))
    ensures SlotInv(p, Exec(p, s, t, Publish), s.threads[t].pc.pos % p.cap)
  {
    PublishEffect(p, s, t);
    OwnerSlot(p, s, t);
    assert ThreadInv(p, s, t);
    assert SlotInv(p, s, s.threads[t].pc.pos % p.cap);
  }

  lemma {:induction false} PublishOtherSlot<T>(p: Params, s: State<T>, t: nat, c: nat)
    requires Inv(p, s) && Enabled(p, s, t, Publish) && c < p.cap && Shape(p, Exec(p, s, t, Publish))
    requires c != s.threads[t].pc.pos % p.cap
    ensures SlotInv(p, Exec(p, s, t, Publish), c)
  {
    PublishShape(p, s, t);
    assert ThreadInv(p, s, t);
    assert SlotInv(p, s, c);
    CurLane(s.seqs[c], c, p.cap);
  }

  lemma {:induction false} PublishOtherThread<T>(p: Params, s: State<T>, t: nat, u: nat)
    requires Inv(p, s) && Enabled(p, s, t, Publish) && u < |s.threads| && u != t && Shape(p, Exec(p, s, t, Publish))
    requires Owner(s.threads[u].pc) ==> s.threads[u].pc.pos % p.cap != s.threads[t].pc.pos % p.cap
    ensures ThreadInv(p, Exec(p, s, t, Publish), u)
  {
    PublishShape(p, s, t);
    assert ThreadInv(p, s, u);
  }

  lemma {:induction false} PublishThread<T>(p: Params, s: State<T>, t: nat, u: nat)
    requires Inv(p, s) && Enabled(p, s, t, Publish) && u < |s.threads| && Shape(p, Exec(p, s, t, Publish))
    ensures ThreadInv(p, Exec(p, s, t, Publish), u)
  {
    if u == t {
      PublishShape(p, s, t);
      assert ThreadInv(p, s, t);
    } else {
      if Owner(s.threads[u].pc) { OwnersApart(p, s, t, u); }
      PublishOtherThread(p, s, t, u);
    }
  }

  /** Storing the sequence hands the slot on, with everything that happened to it. */
  lemma {:induction false} PublishStep<T>(p: Params, s: State<T>, t: nat)
    requires Inv(p, s) && Enabled(p, s, t, Publish)
    ensures Inv(p, Exec(p, s, t, Publish))
  {
    var s' := Exec(p, s, t, Publish);
    PublishEffect(p, s, t);
    assert ThreadInv(p, s, t);
    forall c: nat | c < p.cap
      ensures SlotInv(p, s', c)
    {
      if c == s.threads[t].pc.pos % p.cap { PublishOwnSlot(p, s, t); } else { PublishOtherSlot(p, s, t, c); }
    }
    forall u: nat | u < |s'.threads|
      ensures ThreadInv(p, s', u)
    {
      PublishThread(p, s, t, u);
    }
    forall k: nat | k < D(s')
      ensures PopInv(p, s', k)
    {
      assert PopInv(p, s, k);
    }
  }

  /** Every step keeps the invariant, as long as the positions stay in the signed range. */
  lemma {:induction false} StepInv<T>(p: Params, s: State<T>, t: nat, a: Step<T>)
    requires Inv(p, s) && Enabled(p, s, t, a) && E(Exec(p, s, t, a)) + p.cap <= p.Half()
    ensures Inv(p, Exec(p, s, t, a))
  {
    match a
    case CasOk => if s.threads[t].pc.PushCas? { ClaimPushStep(p, s, t); } else { ClaimPopStep(p, s, t); }
    case LoadSeq(i) => LoadSeqStep(p, s, t, i);
    case Touch => TouchStep(p, s, t);
    case Publish => PublishStep(p, s, t);
    case _ => PositionStep(p, s, t, a);
  }
}
