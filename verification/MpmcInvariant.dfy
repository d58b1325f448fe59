/** The inductive invariant of the MPMC machine, for Capacity at least two and as long as the
    positions stay below the signed range (enqueue position plus Capacity at most 2^(bits-1)). */
module MpmcInvariant {
  import opened Bits
  import opened Memory
  import opened Common
  import opened MpmcMachine

  /** Number of positions claimed by pushes and by pops: the live counters. */
  function E<T>(s: State<T>): int { |s.enq| - 1 }
  function D<T>(s: State<T>): int { |s.deq| - 1 }

  ghost predicate Counts(hist: seq<nat>) {
    && |hist| >= 1
    && forall i | 0 <= i < |hist| :: hist[i] == i
  }

  /** A slot's sequence takes, for each position of the slot, the value pos (free) and then the
      value pos + 1 (filled); the parity of the place in the history tells which. */
  function Filled(h: seq<Msg>): bool { (|h| - 1) % 2 == 1 }

  function Cur(h: seq<Msg>): int
    requires |h| >= 1
  {
    h[|h| - 1].val - (|h| - 1) % 2
  }

  ghost predicate History(h: seq<Msg>, c: nat, cap: nat)
    requires cap >= 2
  {
    && |h| >= 1 && h[0].val == c
    && Linked(h, cap)
    && Lane(h, c, cap)
    && Growing(h)
  }

  ghost predicate Linked(h: seq<Msg>, cap: nat) {
    forall j | 0 <= j < |h| - 1 :: h[j + 1].val == if j % 2 == 0 then h[j].val + 1 else h[j].val - 1 + cap
  }

  ghost predicate Lane(h: seq<Msg>, c: nat, cap: nat)
    requires cap >= 2
  {
    forall j | 0 <= j < |h| :: (h[j].val - j % 2) % cap == c
  }

  ghost predicate Growing(h: seq<Msg>) {
    forall i, j | 0 <= i < j < |h| :: h[i].val < h[j].val
  }

  ghost predicate Pushing<T>(s: State<T>, t: nat, pos: int) {
    t < |s.threads| && (s.threads[t].pc.PushWrite? || s.threads[t].pc.PushPublish?) && s.threads[t].pc.pos == pos
  }

  ghost predicate Popping<T>(s: State<T>, t: nat, pos: int) {
    t < |s.threads| && (s.threads[t].pc.PopRead? || s.threads[t].pc.PopPublish?) && s.threads[t].pc.pos == pos
  }

  ghost predicate Shape<T>(p: Params, s: State<T>) {
    && p.Ok() && p.cap >= 2
    && Counts(s.enq) && Counts(s.deq)
    && D(s) <= E(s) <= D(s) + p.cap && E(s) + p.cap <= p.Half()
    && |s.pushes| == E(s) && |s.pops| == D(s)
    && |s.seqs| == p.cap && |s.buf| == p.cap
    && !s.fault
  }

  /** Where a slot stands against the counters, who owns it, and what its last message orders. */
  ghost predicate SlotInv<T>(p: Params, s: State<T>, c: nat)
    requires Shape(p, s) && c < p.cap
  {
    var h := s.seqs[c];
    History(h, c, p.cap) &&
    var cur, last := Cur(h), h[|h| - 1];
    && 0 <= cur && E(s) <= cur + p.cap
    && (!Filled(h) ==>
          && D(s) <= cur
          && (|h| > 1 ==> cur - p.cap < D(s))
          && (cur < E(s) ==> Pushing(s, s.pushes[cur].tid, cur))
          && (cur >= E(s) ==> Known(s.log, c, last.hb)))
    && (Filled(h) ==>
          && cur < E(s)
          && (cur < D(s) ==> Popping(s, s.pops[cur].tid, cur))
          && (cur >= D(s) ==> Known(s.log, c, last.hb))
          && s.buf[c] == s.pushes[cur].item)
  }

  /** The message a claim relies on: the thread has read it and knows what it publishes. */
  ghost predicate HasRead<T>(p: Params, s: State<T>, t: nat, pos: nat, val: nat)
    requires Shape(p, s) && t < |s.threads| && |s.threads[t].seenSeq| == p.cap
  {
    var me, h := s.threads[t], s.seqs[pos % p.cap];
    var j := me.seenSeq[pos % p.cap];
    j < |h| && h[j].val == val && h[j].hb <= me.hb
  }

  /** The thread owns the slot of its claimed position: nobody else may touch slot.value, and the
      slot's sequence has no message that it has not read. */
  ghost predicate Owns<T>(p: Params, s: State<T>, t: nat, pos: nat, filled: bool)
    requires Shape(p, s) && t < |s.threads|
  {
    var h := s.seqs[pos % p.cap];
    && |h| >= 1 && Filled(h) == filled && Cur(h) == pos && Known(s.log, pos % p.cap, s.threads[t].hb)
    && |s.threads[t].seenSeq| == p.cap && s.threads[t].seenSeq[pos % p.cap] == |h| - 1
  }

  ghost predicate ThreadInv<T>(p: Params, s: State<T>, t: nat)
    requires Shape(p, s) && t < |s.threads|
  {
    var me := s.threads[t];
    && me.seenEnq < |s.enq| && me.seenDeq < |s.deq| && |me.seenSeq| == p.cap
    && (forall c | 0 <= c < p.cap :: me.seenSeq[c] < |s.seqs[c]|)
    && match me.pc
       case Idle(_) => true
       case PushPos(_) => true
       case PushSeq(_, pos) => pos <= E(s)
       case PushCas(_, pos) => pos <= E(s) && HasRead(p, s, t, pos, pos)
       case PushWrite(x, pos) => pos < E(s) && s.pushes[pos] == PushClaim(t, x) && Owns(p, s, t, pos, false)
       case PushPublish(x, pos) =>
         pos < E(s) && s.pushes[pos] == PushClaim(t, x) && Owns(p, s, t, pos, false) && s.buf[pos % p.cap] == x
       case PopPos => true
       case PopSeq(pos) => pos <= D(s)
       case PopCas(pos) => pos <= D(s) && HasRead(p, s, t, pos, pos + 1)
       case PopRead(pos) => pos < D(s) && s.pops[pos] == PopClaim(t, None) && Owns(p, s, t, pos, true)
       case PopPublish(pos, out) =>
         pos < D(s) && s.pops[pos] == PopClaim(t, None) && Owns(p, s, t, pos, true) && out == s.pushes[pos].item
  }

  /** Finished pops returned the item of the push of the same position; the others are under way. */
  ghost predicate PopInv<T>(p: Params, s: State<T>, k: nat)
    requires Shape(p, s) && k < D(s)
  {
    match s.pops[k].got
    case Some(v) => v == s.pushes[k].item
    case None => Popping(s, s.pops[k].tid, k)
  }

  ghost predicate Inv<T>(p: Params, s: State<T>) {
    && Shape(p, s)
    && (forall c: nat | c < p.cap :: SlotInv(p, s, c))
    && (forall t: nat | t < |s.threads| :: ThreadInv(p, s, t))
    && (forall k: nat | k < D(s) :: PopInv(p, s, k))
    && RaceFree(s.log)
  }

  // ---------------------------------------------------------------- facts about one state

  lemma {:induction false} SlotIsMod(p: Params, pos: nat)
    requires p.Ok() && pos < Pow2(p.bits)
    ensures p.Slot(pos) == pos % p.cap
  {
    SlotSurvivesWrap(pos, p.cap, p.bits);
    WrapSmall(pos, p.bits);
  }

  lemma {:induction false} Widths(p: Params)
    requires p.Ok()
    ensures Pow2(p.bits) == 2 * p.Half()
  {
  }

  /** dif is the true difference while both values are non-negative as signed ones. */
  lemma {:induction false} DifExact(p: Params, a: nat, b: nat)
    requires p.bits >= 1 && a < p.Half() && b < p.Half()
    ensures p.Dif(a, b) == Some(a - b)
  {
  }

  /** A value pos read from the slot of pos stands for "free for pos", never for "filled" of an
      earlier lap: the sequence cannot match a wrong-lap position. Needs Capacity >= 2. */
  lemma {:induction false} FreeHere(h: seq<Msg>, c: nat, cap: nat, pos: nat, j: nat)
    requires cap >= 2 && History(h, c, cap) && pos % cap == c && j < |h| && h[j].val == pos
    ensures j % 2 == 0
  {
    if j % 2 == 1 {
      assert (h[j].val - j % 2) % cap == c;
      NextDiffers(pos - 1, cap);
    }
  }

  lemma {:induction false} FilledHere(h: seq<Msg>, c: nat, cap: nat, pos: nat, j: nat)
    requires cap >= 2 && History(h, c, cap) && pos % cap == c && j < |h| && h[j].val == pos + 1
    ensures j % 2 == 1
  {
    if j % 2 == 0 {
      assert (h[j].val - j % 2) % cap == c;
      NextDiffers(pos, cap);
    }
  }

  lemma {:induction false} CurLane(h: seq<Msg>, c: nat, cap: nat)
    requires cap >= 2 && History(h, c, cap)
    ensures Cur(h) % cap == c
  {
    assert (h[|h| - 1].val - (|h| - 1) % 2) % cap == c;
  }

  /** Every value in a slot's history is below the sign boundary. */
  lemma {:induction false} ValueBound<T>(p: Params, s: State<T>, c: nat, j: nat)
    requires Inv(p, s) && c < p.cap && j < |s.seqs[c]|
    ensures s.seqs[c][j].val < p.Half() && s.seqs[c][j].val < E(s) + p.cap
  {
    assert SlotInv(p, s, c);
    var h := s.seqs[c];
    assert h[j].val <= h[|h| - 1].val;
    if |h| == 1 { assert h[0].val == c; }
  }

  /** A push that wins the CAS for the live position had read the slot's newest message. */
  lemma {:induction false} ClaimPushReadsLast<T>(p: Params, s: State<T>, j: nat)
    requires Inv(p, s)
    requires var h := s.seqs[E(s) % p.cap]; j < |h| && h[j].val == E(s)
    ensures var h := s.seqs[E(s) % p.cap]; j == |h| - 1 && !Filled(h) && Cur(h) == E(s)
  {
    var c := E(s) % p.cap;
    var h := s.seqs[c];
    assert SlotInv(p, s, c);
    FreeHere(h, c, p.cap, E(s), j);
    CurLane(h, c, p.cap);
    if j < |h| - 1 {
      assert h[j].val < h[|h| - 1].val;
      if !Filled(h) { LapApart(E(s), Cur(h), p.cap); }
      assert false;
    }
  }

  lemma {:induction false} ClaimPopReadsLast<T>(p: Params, s: State<T>, j: nat)
    requires Inv(p, s)
    requires var h := s.seqs[D(s) % p.cap]; j < |h| && h[j].val == D(s) + 1
    ensures var h := s.seqs[D(s) % p.cap]; j == |h| - 1 && Filled(h) && Cur(h) == D(s)
  {
    var c := D(s) % p.cap;
    var h := s.seqs[c];
    assert SlotInv(p, s, c);
    FilledHere(h, c, p.cap, D(s), j);
    CurLane(h, c, p.cap);
    if j < |h| - 1 {
      assert h[j].val < h[|h| - 1].val;
      LapApart(D(s), Cur(h), p.cap);
      assert false;
    }
  }

  lemma {:induction false} LaneAppend(h: seq<Msg>, c: nat, cap: nat, m: Msg)
    requires cap >= 2 && |h| >= 1 && Lane(h, c, cap)
    requires m.val == Cur(h) + (if Filled(h) then cap else 1)
    ensures Lane(h + [m], c, cap)
  {
    assert (h[|h| - 1].val - (|h| - 1) % 2) % cap == c;
    AddLap(Cur(h), cap);
    assert (m.val - |h| % 2) % cap == c;
  }

  lemma {:induction false} GrowingAppend(h: seq<Msg>, m: Msg)
    requires |h| >= 1 && Growing(h) && m.val > h[|h| - 1].val
    ensures Growing(h + [m])
  {
  }

  lemma {:induction false} LinkedAppend(h: seq<Msg>, cap: nat, m: Msg)
    requires |h| >= 1 && Linked(h, cap)
    requires m.val == Cur(h) + (if Filled(h) then cap else 1)
    ensures Linked(h + [m], cap)
    ensures Filled(h + [m]) == !Filled(h)
    ensures Cur(h + [m]) == Cur(h) + (if Filled(h) then cap else 0)
  {
  }

  lemma {:induction false} HistoryAppend(h: seq<Msg>, c: nat, cap: nat, m: Msg)
    requires cap >= 2 && History(h, c, cap)
    requires m.val == Cur(h) + (if Filled(h) then cap else 1)
    ensures History(h + [m], c, cap)
    ensures Filled(h + [m]) == !Filled(h)
    ensures Cur(h + [m]) == Cur(h) + (if Filled(h) then cap else 0)
  {
    LaneAppend(h, c, cap, m);
    LinkedAppend(h, cap, m);
    GrowingAppend(h, m);
  }
}
