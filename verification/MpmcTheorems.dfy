/** Whole-run results for the MPMC queue: linearisation to a bounded FIFO, exclusive and race-free
    slots, nothing lost, and what a failing call means. */
module MpmcTheorems {
  import opened Bits
  import opened Memory
  import opened Common
  import opened MpmcMachine
  import opened MpmcInvariant
  import opened MpmcSteps

  lemma {:induction false} EnqueueGrows<T>(p: Params, s: State<T>, ls: seq<Label<T>>)
    requires Legal(p, s, ls)
    ensures E(s) <= E(Run(p, s, ls))
    decreases |ls|
  {
    if ls != [] { EnqueueGrows(p, Exec(p, s, ls[0].thread, ls[0].step), ls[1..]); }
  }

  lemma {:induction false} RunInv<T>(p: Params, s: State<T>, ls: seq<Label<T>>)
    requires Inv(p, s) && Legal(p, s, ls) && E(Run(p, s, ls)) + p.cap <= p.Half()
    ensures Inv(p, Run(p, s, ls))
    decreases |ls|
  {
    if ls != [] {
      var s' := Exec(p, s, ls[0].thread, ls[0].step);
      EnqueueGrows(p, s', ls[1..]);
      StepInv(p, s, ls[0].thread, ls[0].step);
      RunInv(p, s', ls[1..]);
    }
  }

  ghost predicate PastOnly<T>(s: State<T>) {
    && KnownIsPast(s.log)
    && (forall t | 0 <= t < |s.threads| :: Past(s.log, s.threads[t].hb))
    && (forall c, j | 0 <= c < |s.seqs| && 0 <= j < |s.seqs[c]| :: Past(s.log, s.seqs[c][j].hb))
  }

  /** The happens-before sets of the machine only ever look back. */
  lemma {:induction false} RunPast<T>(p: Params, s: State<T>, ls: seq<Label<T>>)
    requires PastOnly(s) && Legal(p, s, ls)
    ensures PastOnly(Run(p, s, ls))
    decreases |ls|
  {
    if ls != [] {
      StepPast(p, s, ls[0].thread, ls[0].step);
      RunPast(p, Exec(p, s, ls[0].thread, ls[0].step), ls[1..]);
    }
  }

  lemma {:induction false} StepPast<T>(p: Params, s: State<T>, t: nat, a: Step<T>)
    requires PastOnly(s) && Enabled(p, s, t, a)
    ensures PastOnly(Exec(p, s, t, a))
  {
  }

  /** For any number of threads, any interleaving and any stale loads: the pop that claims the k-th
      position returns the item of the push that claimed the k-th position, at most Capacity
      claimed items are ever outstanding, no slot access is a data race and no signed subtraction
      overflows, while the positions stay in the signed range. */
  lemma {:induction false} EveryRun<T>(p: Params, buf: seq<T>, n: nat, ls: seq<Label<T>>)
    requires p.Ok() && p.cap >= 2 && |buf| == p.cap && Legal(p, Init(p, buf, n), ls)
    requires E(Run(p, Init(p, buf, n), ls)) + p.cap <= p.Half()
    ensures var s := Run(p, Init(p, buf, n), ls);
            && 0 <= E(s) - D(s) <= p.cap && |s.pushes| == E(s) && |s.pops| == D(s)
            && (forall k | 0 <= k < D(s) :: s.pops[k].got.Some? ==> s.pops[k].got.value == s.pushes[k].item)
            && RaceFree(s.log) && KnownIsPast(s.log)
            && !s.fault
  {
    var s0, s := Init(p, buf, n), Run(p, Init(p, buf, n), ls);
    EnqueueGrows(p, s0, ls);
    InitInv(p, buf, n);
    RunInv(p, s0, ls);
    RunPast(p, s0, ls);
    forall k | 0 <= k < D(s) && s.pops[k].got.Some?
      ensures s.pops[k].got.value == s.pushes[k].item
    {
      assert PopInv(p, s, k);
    }
  }

  // ---------------------------------------------------------------- linearisation

  function Items<T>(cs: seq<PushClaim<T>>): seq<T> { seq(|cs|, i requires 0 <= i < |cs| => cs[i].item) }

  /** The abstract queue: the items whose push has claimed and whose pop has not. */
  ghost function Contents<T>(p: Params, s: State<T>): seq<T>
    requires Shape(p, s)
  {
    Items(s.pushes)[D(s)..]
  }

  /** A successful call takes effect at its CAS, as the operation of a bounded FIFO; no other step
      changes the queue. The item a pop will return is fixed at its CAS: the oldest one. */
  lemma {:induction false} Linearises<T>(p: Params, s: State<T>, t: nat, a: Step<T>)
    requires Inv(p, s) && Enabled(p, s, t, a) && Inv(p, Exec(p, s, t, a))
    ensures var s' := Exec(p, s, t, a);
            if a.CasOk? && s.threads[t].pc.PushCas? then
              |Contents(p, s)| < p.cap && Contents(p, s') == Contents(p, s) + [s.threads[t].pc.item]
            else if a.CasOk? then
              Contents(p, s) == [s.pushes[s.threads[t].pc.pos].item] + Contents(p, s')
            else Contents(p, s') == Contents(p, s)
  {
    var s' := Exec(p, s, t, a);
    if a.CasOk? && s.threads[t].pc.PushCas? {
      assert Items(s'.pushes) == Items(s.pushes) + [s.threads[t].pc.item];
    } else if a.CasOk? {
      assert Items(s.pushes)[D(s)..] == [Items(s.pushes)[D(s)]] + Items(s.pushes)[D(s) + 1..];
    }
  }

  /** The value a pop returns is the item of the push with the same position, and it is recorded
      against that position. */
  lemma {:induction false} PopReturns<T>(p: Params, s: State<T>, t: nat)
    requires Inv(p, s) && Enabled(p, s, t, Publish) && s.threads[t].pc.PopPublish?
    ensures var s' := Exec(p, s, t, Publish);
            var pos := s.threads[t].pc.pos;
            && pos < |s.pushes| && pos < |s'.pops|
            && s'.threads[t].pc == Idle(Popped(s.pushes[pos].item))
            && s.pops[pos] == PopClaim(t, None)
            && s'.pops == s.pops[pos := PopClaim(t, Some(s.pushes[pos].item))]
  {
    assert ThreadInv(p, s, t);
  }

  /** The successful calls of a run in the order of their claims, each pop with the result that stands
      against its position at the end of the run: None while it has not returned. */
  datatype Op<T> = Enqueue(item: T) | Dequeue(got: Option<T>)

  ghost function Claims<T>(p: Params, s: State<T>, ls: seq<Label<T>>, end: State<T>): seq<Op<T>>
    requires Legal(p, s, ls)
    decreases |ls|
  {
    if ls == [] then [] else
    var t, a := ls[0].thread, ls[0].step;
    ClaimOf(s, t, a, end) + Claims(p, Exec(p, s, t, a), ls[1..], end)
  }

  ghost function ClaimOf<T>(s: State<T>, t: nat, a: Step<T>, end: State<T>): seq<Op<T>>
    requires t < |s.threads|
  {
    var pc := s.threads[t].pc;
    if a.CasOk? && pc.PushCas? then [Enqueue(pc.item)]
    else if a.CasOk? && pc.PopCas? then [Dequeue(if pc.pos < |end.pops| then end.pops[pc.pos].got else None)]
    else []
  }

  /** A FIFO of the given capacity can do these operations one by one, from q to q', and what a pop
      returned is what the FIFO gives out. */
  ghost predicate Fifo<T>(q: seq<T>, ops: seq<Op<T>>, cap: nat, q': seq<T>)
    decreases |ops|
  {
    if ops == [] then q == q'
    else match ops[0]
      case Enqueue(x) => |q| < cap && Fifo(q + [x], ops[1..], cap, q')
      case Dequeue(got) => q != [] && (got.Some? ==> got.value == q[0]) && Fifo(q[1..], ops[1..], cap, q')
  }

  /** Linearisability of the successful calls of any run: in the order of their CASes, with the values
      their pops returned, they are a history of a FIFO of capacity Capacity; and only a pop that
      is still under way has no value. */
  lemma {:induction false} Linearisable<T>(p: Params, buf: seq<T>, n: nat, ls: seq<Label<T>>)
    requires p.Ok() && p.cap >= 2 && |buf| == p.cap && Legal(p, Init(p, buf, n), ls)
    requires E(Run(p, Init(p, buf, n), ls)) + p.cap <= p.Half()
    ensures var s := Run(p, Init(p, buf, n), ls);
            && Inv(p, s)
            && Fifo([], Claims(p, Init(p, buf, n), ls, s), p.cap, Contents(p, s))
            && forall k | 0 <= k < D(s) && s.pops[k].got.None? :: Popping(s, s.pops[k].tid, k)
  {
    var s0, s := Init(p, buf, n), Run(p, Init(p, buf, n), ls);
    EnqueueGrows(p, s0, ls);
    InitInv(p, buf, n);
    RunInv(p, s0, ls);
    ClaimsLinearise(p, s0, ls, s);
    assert Contents(p, s0) == [];
    forall k | 0 <= k < D(s) && s.pops[k].got.None?
      ensures Popping(s, s.pops[k].tid, k)
    {
      assert PopInv(p, s, k);
    }
  }

  lemma {:induction false} ClaimsLinearise<T>(p: Params, s: State<T>, ls: seq<Label<T>>, end: State<T>)
    requires Inv(p, s) && Legal(p, s, ls) && Run(p, s, ls) == end && Inv(p, end)
    ensures Fifo(Contents(p, s), Claims(p, s, ls, end), p.cap, Contents(p, end))
    decreases |ls|
  {
    if ls != [] {
      var t, a := ls[0].thread, ls[0].step;
      var s' := Exec(p, s, t, a);
      EnqueueGrows(p, s', ls[1..]);
      StepInv(p, s, t, a);
      ClaimsLinearise(p, s', ls[1..], end);
      ClaimsGrow(p, s, ls);
      ClaimsGrow(p, s', ls[1..]);
      FifoStep(p, s, t, a, end, Claims(p, s', ls[1..], end));
    }
  }

  lemma {:induction false} ClaimsGrow<T>(p: Params, s: State<T>, ls: seq<Label<T>>)
    requires Legal(p, s, ls)
    ensures s.pushes <= Run(p, s, ls).pushes && |s.pops| <= |Run(p, s, ls).pops|
    decreases |ls|
  {
    if ls != [] { ClaimsGrow(p, Exec(p, s, ls[0].thread, ls[0].step), ls[1..]); }
  }

  lemma {:induction false} FifoStep<T>(p: Params, s: State<T>, t: nat, a: Step<T>, end: State<T>, rest: seq<Op<T>>)
    requires Inv(p, s) && Enabled(p, s, t, a) && Inv(p, Exec(p, s, t, a)) && Inv(p, end)
    requires s.pushes <= end.pushes && |Exec(p, s, t, a).pops| <= |end.pops|
    requires Fifo(Contents(p, Exec(p, s, t, a)), rest, p.cap, Contents(p, end))
    ensures Fifo(Contents(p, s), ClaimOf(s, t, a, end) + rest, p.cap, Contents(p, end))
  {
    Linearises(p, s, t, a);
    assert ThreadInv(p, s, t);
    var c := ClaimOf(s, t, a, end);
    if c == [] { assert c + rest == rest; } else { assert (c + rest)[1..] == rest; }
    if a.CasOk? && s.threads[t].pc.PopCas? {
      assert Contents(p, s)[1..] == Contents(p, Exec(p, s, t, a));
      assert PopInv(p, end, s.threads[t].pc.pos);
    }
  }

  // ---------------------------------------------------------------- exclusivity

  /** Between winning a CAS and storing the sequence one thread may touch the slot, and what it is
      about to do there comes after everything done there before. */
  lemma {:induction false} ExclusiveSlot<T>(p: Params, s: State<T>, t: nat)
    requires Inv(p, s) && t < |s.threads| && Owner(s.threads[t].pc)
    ensures var c := s.threads[t].pc.pos % p.cap;
            && p.Slot(s.threads[t].pc.pos) == c
            && Known(s.log, c, s.threads[t].hb)
            && forall u: nat | u < |s.threads| && u != t && Owner(s.threads[u].pc) :: p.Slot(s.threads[u].pc.pos) != c
  {
    OwnerSlot(p, s, t);
    forall u: nat | u < |s.threads| && u != t && Owner(s.threads[u].pc)
      ensures p.Slot(s.threads[u].pc.pos) != s.threads[t].pc.pos % p.cap
    {
      OwnerSlot(p, s, u);
      OwnersApart(p, s, t, u);
    }
  }

  /** A release store of the sequence goes last in the slot's modification order whatever order
      coherence would allow: its thread has already read or written the message that is last now. */
  lemma {:induction false} StoreGoesLast<T>(p: Params, s: State<T>, t: nat)
    requires Inv(p, s) && Enabled(p, s, t, Publish)
    ensures var c := p.Slot(s.threads[t].pc.pos);
            && s.threads[t].seenSeq[c] == |s.seqs[c]| - 1
            && Exec(p, s, t, Publish).seqs[c][..|s.seqs[c]|] == s.seqs[c]
  {
    OwnerSlot(p, s, t);
  }

  // ---------------------------------------------------------------- nothing lost

  /** A position that is claimed by a push and by no pop is the current one of its slot. */
  lemma {:induction false} OutstandingIsCurrent<T>(p: Params, s: State<T>, k: nat)
    requires Inv(p, s) && D(s) <= k < E(s)
    ensures var h := s.seqs[k % p.cap]; |h| >= 1 && Cur(h) == k
  {
    var c := k % p.cap;
    var h := s.seqs[c];
    assert SlotInv(p, s, c);
    CurLane(h, c, p.cap);
    ModLe(k, p.cap);
    if Cur(h) < k { LapApart(Cur(h), k, p.cap); }
    if Cur(h) > k { LapApart(k, Cur(h), p.cap); }
  }

  /** When no call is in progress every claimed pop has returned its item and every other item is
      in its slot, ready to be popped. */
  lemma {:induction false} NothingLost<T>(p: Params, s: State<T>)
    requires Inv(p, s) && forall t | 0 <= t < |s.threads| :: s.threads[t].pc.Idle?
    ensures forall k | 0 <= k < D(s) :: s.pops[k].got == Some(s.pushes[k].item)
    ensures forall k | D(s) <= k < E(s) ::
              var h := s.seqs[k % p.cap];
              |h| >= 1 && Filled(h) && h[|h| - 1].val == k + 1 && s.buf[k % p.cap] == s.pushes[k].item
  {
    forall k | 0 <= k < D(s)
      ensures s.pops[k].got == Some(s.pushes[k].item)
    {
      assert PopInv(p, s, k);
    }
    forall k | D(s) <= k < E(s)
      ensures var h := s.seqs[k % p.cap];
              |h| >= 1 && Filled(h) && h[|h| - 1].val == k + 1 && s.buf[k % p.cap] == s.pushes[k].item
    {
      OutstandingIsCurrent(p, s, k);
      assert SlotInv(p, s, k % p.cap);
    }
  }

  // ---------------------------------------------------------------- what failure means

  /** The pop of position k has stored the sequence: the slot is free for the next lap. */
  ghost predicate Drained<T>(p: Params, s: State<T>, k: int)
    requires Inv(p, s)
  {
    var h := s.seqs[k % p.cap];
    |h| >= 1 && Cur(h) > k
  }

  /** The push of position k has stored the sequence. */
  ghost predicate Published<T>(p: Params, s: State<T>, k: int)
    requires Inv(p, s)
  {
    var h := s.seqs[k % p.cap];
    |h| >= 1 && (Cur(h) > k || (Cur(h) == k && Filled(h)))
  }

  /** Where the slot of a position not beyond the push counter stands. */
  lemma {:induction false} SlotOfPush<T>(p: Params, s: State<T>, pos: nat)
    requires Inv(p, s) && pos <= E(s)
    ensures var h := s.seqs[pos % p.cap];
            && |h| >= 1 && (h[|h| - 1].val < pos <==> Cur(h) == pos - p.cap)
            && (Cur(h) == pos - p.cap ==> pos == E(s))
            && (pos == E(s) ==> h[|h| - 1].val <= pos)
  {
    var c := pos % p.cap;
    var h := s.seqs[c];
    assert SlotInv(p, s, c);
    CurLane(h, c, p.cap);
    if Cur(h) < pos {
      LapApart(Cur(h), pos, p.cap);
    } else if Cur(h) > pos {
      LapApart(pos, Cur(h), p.cap);
      if |h| == 1 { ModUnique(pos, p.cap, 0, pos); }
    }
  }

  lemma {:induction false} SlotOfPop<T>(p: Params, s: State<T>, pos: nat)
    requires Inv(p, s) && pos <= D(s)
    ensures var h := s.seqs[pos % p.cap];
            && |h| >= 1 && (h[|h| - 1].val < pos + 1 <==> !Published(p, s, pos))
            && (!Published(p, s, pos) ==> pos == D(s))
            && (pos == D(s) ==> h[|h| - 1].val <= pos + 1)
  {
    var c := pos % p.cap;
    var h := s.seqs[c];
    assert SlotInv(p, s, c);
    CurLane(h, c, p.cap);
    if Cur(h) < pos {
      LapApart(Cur(h), pos, p.cap);
    } else if Cur(h) > pos {
      LapApart(pos, Cur(h), p.cap);
      if |h| == 1 { ModUnique(pos, p.cap, 0, pos); }
    }
  }

  /** Under sequential consistency try_push returns false exactly when its position is the live one
      and the pop of that slot's previous position has not finished. In particular a full queue
      is always refused; a queue that is not full may be, while a pop is under way. */
  lemma {:induction false} PushFails<T>(p: Params, s: State<T>, t: nat, i: nat)
    requires Inv(p, s) && Enabled(p, s, t, LoadSeq(i)) && Newest(p, s, t, LoadSeq(i)) && s.threads[t].pc.PushSeq?
    ensures var pos := s.threads[t].pc.pos;
            && (Exec(p, s, t, LoadSeq(i)).threads[t].pc.Idle? <==>
                  (pos == E(s) && pos >= p.cap && !Drained(p, s, pos - p.cap)))
            && (pos == E(s) && |Contents(p, s)| == p.cap ==> !Drained(p, s, pos - p.cap))
  {
    var pos := s.threads[t].pc.pos;
    LoadSeqBranch(p, s, t, i);
    SlotOfPush(p, s, pos);
    if pos >= p.cap {
      AddLap(pos - p.cap, p.cap);
      assert SlotInv(p, s, pos % p.cap);
      CurLane(s.seqs[pos % p.cap], pos % p.cap, p.cap);
      if Cur(s.seqs[pos % p.cap]) < pos { LapApart(Cur(s.seqs[pos % p.cap]), pos, p.cap); }
      if pos == E(s) == D(s) + p.cap { OutstandingIsCurrent(p, s, pos - p.cap); }
    } else {
      assert SlotInv(p, s, pos % p.cap);
    }
  }

  /** try_pop returns false exactly when its position is the live one and the push of that very
      position has not finished: the queue may hold later items that are already complete. */
  lemma {:induction false} PopFails<T>(p: Params, s: State<T>, t: nat, i: nat)
    requires Inv(p, s) && Enabled(p, s, t, LoadSeq(i)) && Newest(p, s, t, LoadSeq(i)) && s.threads[t].pc.PopSeq?
    ensures var pos := s.threads[t].pc.pos;
            && (Exec(p, s, t, LoadSeq(i)).threads[t].pc.Idle? <==> (pos == D(s) && !Published(p, s, pos)))
            && (pos == D(s) && Contents(p, s) == [] ==> !Published(p, s, pos))
  {
    var pos := s.threads[t].pc.pos;
    LoadSeqBranch(p, s, t, i);
    SlotOfPop(p, s, pos);
    if pos == D(s) == E(s) {
      SlotOfPush(p, s, pos);
      assert SlotInv(p, s, pos % p.cap);
    }
  }
}
