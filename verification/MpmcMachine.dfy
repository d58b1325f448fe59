/** The multi-producer multi-consumer ring buffer as a machine whose steps are the single memory
    accesses of the code blocks of try_push and try_pop, under release/acquire, for any number of
    threads of which each may push and pop.

    A load may return any value in the modification order that is not older than what the thread
    itself has read or written there. A successful compare-exchange reads the newest value; a weak
    one may also fail spuriously. The signed difference is computed as the code does, on values
    `bits` wide; overflow of the signed subtraction is undefined behaviour and sets `fault`. */
module MpmcMachine {
  import opened Bits
  import opened Memory
  import opened Common

  datatype Params = Params(cap: nat, bits: nat) {
    ghost predicate Ok() {
      bits >= 1 && 1 <= cap < Pow2(bits) && PassesAssert(cap, bits)
    }

    /** 2^(bits-1), the first value whose cast to the signed type is negative. */
    function Half(): nat
      requires bits >= 1
    {
      Pow2(bits - 1)
    }

    function Slot(pos: nat): nat { And(pos, Wrap(cap - 1, bits)) }

    function Signed(x: nat): int
      requires bits >= 1
    {
      if x < Half() then x else x - 2 * Half()
    }

    /** static_cast<ptrdiff_t>(a) - static_cast<ptrdiff_t>(b); None when that overflows. */
    function Dif(a: nat, b: nat): Option<int>
      requires bits >= 1
    {
      var d := Signed(a) - Signed(b);
      if d < Half() && -d <= Half() then Some(d) else None
    }
  }

  // The next access of a thread, with the locals of the call.
  datatype Pc<T> =
    | Idle(last: Outcome<T>)
    | PushPos(item: T)
    | PushSeq(item: T, pos: nat)
    | PushCas(item: T, pos: nat)
    | PushWrite(item: T, pos: nat)
    | PushPublish(item: T, pos: nat)
    | PopPos
    | PopSeq(pos: nat)
    | PopCas(pos: nat)
    | PopRead(pos: nat)
    | PopPublish(pos: nat, out: T)

  datatype Outcome<T> = Pushed | Full | Popped(out: T) | Empty | Fresh

  /** seen*: the newest place in each modification order the thread has read or written. */
  datatype Thread<T> = Thread(pc: Pc<T>, seenEnq: nat, seenDeq: nat, seenSeq: seq<nat>, hb: set<nat>)

  // Who claimed each position, in order of the claims; recorded for the statements only.
  datatype PushClaim<T> = PushClaim(tid: nat, item: T)
  datatype PopClaim<T> = PopClaim(tid: nat, got: Option<T>)

  datatype State<T> = State(
    enq: seq<nat>, deq: seq<nat>,      // modification orders of enqueue_pos_ and dequeue_pos_
    seqs: seq<seq<Msg>>,               // of each slot's sequence
    buf: seq<T>,
    threads: seq<Thread<T>>,
    log: seq<Access>,
    pushes: seq<PushClaim<T>>, pops: seq<PopClaim<T>>,
    fault: bool)

  function Init<T>(p: Params, buf: seq<T>, n: nat): State<T> {
    State([0], [0], seq(p.cap, i requires 0 <= i => [Msg(i, {}, 0)]), buf,
          seq(n, i => Thread(Idle(Fresh), 0, 0, seq(p.cap, j => 0), {})), [], [], [], false)
  }

  datatype Step<T> =
    | BeginPush(item: T)
    | BeginPop
    | LoadPos(at: nat)                 // enqueue_pos_ or dequeue_pos_, relaxed
    | LoadSeq(at: nat)                 // the slot's sequence, acquire
    | CasOk
    | CasFail(at: nat)                 // the value the failed compare-exchange reads back
    | Touch                            // the plain access of slot.value
    | Publish                          // the release store of sequence

  predicate Readable<V>(hist: seq<V>, seen: nat, at: nat) {
    seen <= at < |hist|
  }

  predicate InPush<T>(pc: Pc<T>) {
    pc.PushPos? || pc.PushSeq? || pc.PushCas? || pc.PushWrite? || pc.PushPublish?
  }

  predicate SlotsOk<T>(p: Params, s: State<T>, t: nat, pos: nat)
    requires t < |s.threads|
  {
    var c := p.Slot(pos);
    c < |s.seqs| && c < |s.buf| && c < |s.threads[t].seenSeq|
  }

  predicate Enabled<T>(p: Params, s: State<T>, t: nat, a: Step<T>) {
    t < |s.threads| && !s.fault && p.bits >= 1 &&
    var me := s.threads[t];
    match a
    case BeginPush(_) => me.pc.Idle?
    case BeginPop => me.pc.Idle?
    case LoadPos(i) =>
      || (me.pc.PushPos? && Readable(s.enq, me.seenEnq, i))
      || (me.pc.PopPos? && Readable(s.deq, me.seenDeq, i))
    case LoadSeq(i) =>
      && (me.pc.PushSeq? || me.pc.PopSeq?) && SlotsOk(p, s, t, me.pc.pos)
      && Readable(s.seqs[p.Slot(me.pc.pos)], me.seenSeq[p.Slot(me.pc.pos)], i)
    case CasOk =>
      || (me.pc.PushCas? && s.enq != [] && s.enq[|s.enq| - 1] == me.pc.pos)
      || (me.pc.PopCas? && s.deq != [] && s.deq[|s.deq| - 1] == me.pc.pos)
    case CasFail(i) =>
      || (me.pc.PushCas? && Readable(s.enq, me.seenEnq, i))
      || (me.pc.PopCas? && Readable(s.deq, me.seenDeq, i))
    case Touch => (me.pc.PushWrite? || me.pc.PopRead?) && SlotsOk(p, s, t, me.pc.pos)
    case Publish => (me.pc.PushPublish? || me.pc.PopPublish?) && SlotsOk(p, s, t, me.pc.pos)
  }

  function SetPc<T>(s: State<T>, t: nat, pc: Pc<T>): State<T>
    requires t < |s.threads|
  {
    s.(threads := s.threads[t := s.threads[t].(pc := pc)])
  }

  /** The branch on dif: claim, give up, or reload the position. */
  function Branch<T>(pc: Pc<T>, dif: int): Pc<T>
    requires pc.PushSeq? || pc.PopSeq?
  {
    if pc.PushSeq? then
      if dif == 0 then PushCas(pc.item, pc.pos) else if dif < 0 then Idle(Full) else PushPos(pc.item)
    else
      if dif == 0 then PopCas(pc.pos) else if dif < 0 then Idle(Empty) else PopPos
  }

  function Exec<T>(p: Params, s: State<T>, t: nat, a: Step<T>): State<T>
    requires Enabled(p, s, t, a)
  {
    var me := s.threads[t];
    match a
    case BeginPush(x) => SetPc(s, t, PushPos(x))
    case BeginPop => SetPc(s, t, PopPos)
    case LoadPos(i) =>
      if me.pc.PushPos? then
        s.(threads := s.threads[t := me.(pc := PushSeq(me.pc.item, s.enq[i]), seenEnq := i)])
      else
        s.(threads := s.threads[t := me.(pc := PopSeq(s.deq[i]), seenDeq := i)])
    case LoadSeq(i) =>
      var c := p.Slot(me.pc.pos);
      var m := s.seqs[c][i];
      var want := if me.pc.PushSeq? then me.pc.pos else Wrap(me.pc.pos + 1, p.bits);
      var dif := p.Dif(m.val, want);
      if dif.None? then s.(fault := true)
      else s.(threads := s.threads[t := me.(pc := Branch(me.pc, dif.value),
        seenSeq := me.seenSeq[c := i], hb := me.hb + m.hb)])
    case CasOk =>
      if me.pc.PushCas? then
        s.(enq := s.enq + [Wrap(me.pc.pos + 1, p.bits)],
           pushes := s.pushes + [PushClaim(t, me.pc.item)],
           threads := s.threads[t := me.(pc := PushWrite(me.pc.item, me.pc.pos), seenEnq := |s.enq|)])
      else
        s.(deq := s.deq + [Wrap(me.pc.pos + 1, p.bits)],
           pops := s.pops + [PopClaim(t, None)],
           threads := s.threads[t := me.(pc := PopRead(me.pc.pos), seenDeq := |s.deq|)])
    case CasFail(i) =>
      if me.pc.PushCas? then
        s.(threads := s.threads[t := me.(pc := PushSeq(me.pc.item, s.enq[i]), seenEnq := i)])
      else
        s.(threads := s.threads[t := me.(pc := PopSeq(s.deq[i]), seenDeq := i)])
    case Touch =>
      var c := p.Slot(me.pc.pos);
      var pc' := if me.pc.PushWrite? then PushPublish(me.pc.item, me.pc.pos) else PopPublish(me.pc.pos, s.buf[c]);
      s.(buf := if me.pc.PushWrite? then s.buf[c := me.pc.item] else s.buf,
         log := s.log + [Memory.Access(me.pc.PushWrite?, c, me.pc.pos, me.hb, t)],
         threads := s.threads[t := me.(pc := pc', hb := me.hb + {|s.log|})])
    case Publish =>
      var c := p.Slot(me.pc.pos);
      var val := Wrap(me.pc.pos + (if me.pc.PushPublish? then 1 else p.cap), p.bits);
      var done := me.(pc := if me.pc.PushPublish? then Idle(Pushed) else Idle(Popped(me.pc.out)),
                      seenSeq := me.seenSeq[c := |s.seqs[c]|]);
      s.(seqs := s.seqs[c := s.seqs[c] + [Msg(val, me.hb, t)]],
         threads := s.threads[t := done],
         pops := if me.pc.PopPublish? && me.pc.pos < |s.pops|
           then s.pops[me.pc.pos := PopClaim(t, Some(me.pc.out))] else s.pops)
  }

  datatype Label<T> = Label(thread: nat, step: Step<T>)

  predicate Legal<T>(p: Params, s: State<T>, ls: seq<Label<T>>)
    decreases |ls|
  {
    ls == [] || (Enabled(p, s, ls[0].thread, ls[0].step) && Legal(p, Exec(p, s, ls[0].thread, ls[0].step), ls[1..]))
  }

  function Run<T>(p: Params, s: State<T>, ls: seq<Label<T>>): State<T>
    requires Legal(p, s, ls)
    decreases |ls|
  {
    if ls == [] then s else Run(p, Exec(p, s, ls[0].thread, ls[0].step), ls[1..])
  }

  /** Sequential consistency and a compare-exchange that fails only for cause. */
  predicate Newest<T>(p: Params, s: State<T>, t: nat, a: Step<T>)
    requires Enabled(p, s, t, a)
  {
    var me := s.threads[t];
    match a
    case LoadPos(i) => i == |if me.pc.PushPos? then s.enq else s.deq| - 1
    case LoadSeq(i) => i == |s.seqs[p.Slot(me.pc.pos)]| - 1
    case CasFail(i) =>
      && i == |if me.pc.PushCas? then s.enq else s.deq| - 1
      && (if me.pc.PushCas? then s.enq else s.deq)[i] != me.pc.pos
    case _ => true
  }

  lemma {:induction false} RunAppend<T>(p: Params, s: State<T>, a: seq<Label<T>>, b: seq<Label<T>>)
    requires Legal(p, s, a) && Legal(p, Run(p, s, a), b)
    ensures Legal(p, s, a + b) && Run(p, s, a + b) == Run(p, Run(p, s, a), b)
    decreases |a|
  {
    if a == [] {
      assert a + b == b;
    } else {
      assert (a + b)[1..] == a[1..] + b;
      RunAppend(p, Exec(p, s, a[0].thread, a[0].step), a[1..], b);
    }
  }
}
