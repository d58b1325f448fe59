/** The single-producer single-consumer ring buffer as a machine whose steps are the single
    memory accesses of try_push and try_pop, under release/acquire.

    Loads of an atomic may return any value in its modification order that is not older than
    what the loading thread has already read or written there; this allows every stale read the
    language allows. Indices are `bits` wide and wrap. With cached == false the machine is the
    uncached queue of the paper design, which loads the other side's index on every call. */
module SpscMachine {
  import opened Bits
  import opened Memory
  import opened Common

  datatype Params = Params(cap: nat, bits: nat, cached: bool) {
    ghost predicate Ok() {
      cap < Pow2(bits) && PassesAssert(cap, bits)
    }

    function Slot(index: nat): nat {
      And(index, Wrap(cap - 1, bits))
    }

    function Full(t: nat, h: nat): bool {
      Wrap(t - h, bits) == cap
    }
  }

  // A program counter names the access the thread makes next and holds the call's locals.
  datatype ProdPc<T> =
    | PIdle(ok: bool)                 // ok: what the last call returned
    | PLoadTail(item: T)
    | PLoadHead(item: T, t: nat)
    | PWrite(item: T, t: nat)
    | PPublish(item: T, t: nat)

  datatype ConsPc<T> =
    | CIdle(got: Option<T>)           // got: what the last call returned
    | CLoadHead
    | CLoadTail(h: nat)
    | CRead(h: nat)
    | CPublish(h: nat, out: T)

  // seenTail and seenHead are the newest modification-order places the thread has read or written.
  datatype Producer<T> = Producer(pc: ProdPc<T>, headCache: nat, seenTail: nat, seenHead: nat, hb: set<nat>)
  datatype Consumer<T> = Consumer(pc: ConsPc<T>, tailCache: nat, seenTail: nat, seenHead: nat, hb: set<nat>)

  /** pushed and popped record, for the statements only, the items of the completed operations. */
  datatype State<T> = State(
    tail: seq<Msg>, head: seq<Msg>, buf: seq<T>,
    prod: Producer<T>, cons: Consumer<T>,
    log: seq<Access>, pushed: seq<T>, popped: seq<T>)

  function Init<T>(buf: seq<T>): State<T> {
    State([Msg(0, {}, 0)], [Msg(0, {}, 1)], buf,
          Producer(PIdle(true), 0, 0, 0, {}), Consumer(CIdle(None), 0, 0, 0, {}), [], [], [])
  }

  // The number carried by a load is the modification-order place it reads.
  datatype Label<T> =
    | PBegin(item: T) | PTail(at: nat) | PHead(at: nat) | PSlot | PRelease
    | CBegin | CHead(at: nat) | CTail(at: nat) | CSlot | CRelease

  predicate Readable(hist: seq<Msg>, seen: nat, at: nat) {
    seen <= at < |hist|
  }

  /** The accesses possible next. Touching a slot outside the buffer is never possible;
      SpscTheorems.SlotInRange shows that no reachable state wants to. */
  predicate Enabled<T>(p: Params, s: State<T>, l: Label<T>) {
    match l
    case PBegin(_) => s.prod.pc.PIdle?
    case PTail(i) => s.prod.pc.PLoadTail? && Readable(s.tail, s.prod.seenTail, i)
    case PHead(i) => s.prod.pc.PLoadHead? && Readable(s.head, s.prod.seenHead, i)
    case PSlot => s.prod.pc.PWrite? && p.Slot(s.prod.pc.t) < |s.buf|
    case PRelease => s.prod.pc.PPublish?
    case CBegin => s.cons.pc.CIdle?
    case CHead(i) => s.cons.pc.CLoadHead? && Readable(s.head, s.cons.seenHead, i)
    case CTail(i) => s.cons.pc.CLoadTail? && Readable(s.tail, s.cons.seenTail, i)
    case CSlot => s.cons.pc.CRead? && p.Slot(s.cons.pc.h) < |s.buf|
    case CRelease => s.cons.pc.CPublish?
  }

  function ExecProd<T>(p: Params, s: State<T>, l: Label<T>): State<T>
    requires Enabled(p, s, l) && (l.PBegin? || l.PTail? || l.PHead? || l.PSlot? || l.PRelease?)
  {
    var me := s.prod;
    match l
    case PBegin(x) =>
      s.(prod := me.(pc := PLoadTail(x)))
    case PTail(i) =>
      var t := s.tail[i].val;
      var pc := if p.cached && !p.Full(t, me.headCache) then PWrite(me.pc.item, t) else PLoadHead(me.pc.item, t);
      s.(prod := me.(pc := pc, seenTail := i))
    case PHead(i) =>
      var m := s.head[i];
      var pc := if p.Full(me.pc.t, m.val) then PIdle(false) else PWrite(me.pc.item, me.pc.t);
      s.(prod := me.(pc := pc, headCache := m.val, seenHead := i, hb := me.hb + m.hb))
    case PSlot =>
      var c := p.Slot(me.pc.t);
      s.(buf := s.buf[c := me.pc.item],
         log := s.log + [Access(true, c, |s.pushed|, me.hb, 0)],
         prod := me.(pc := PPublish(me.pc.item, me.pc.t), hb := me.hb + {|s.log|}))
    case PRelease =>
      s.(tail := s.tail + [Msg(Wrap(me.pc.t + 1, p.bits), me.hb, 0)],
         prod := me.(pc := PIdle(true), seenTail := |s.tail|),
         pushed := s.pushed + [me.pc.item])
  }

  function ExecCons<T>(p: Params, s: State<T>, l: Label<T>): State<T>
    requires Enabled(p, s, l) && (l.CBegin? || l.CHead? || l.CTail? || l.CSlot? || l.CRelease?)
  {
    var me := s.cons;
    match l
    case CBegin =>
      s.(cons := me.(pc := CLoadHead))
    case CHead(i) =>
      var h := s.head[i].val;
      s.(cons := me.(pc := if p.cached && h != me.tailCache then CRead(h) else CLoadTail(h), seenHead := i))
    case CTail(i) =>
      var m := s.tail[i];
      var pc := if me.pc.h == m.val then CIdle(None) else CRead(me.pc.h);
      s.(cons := me.(pc := pc, tailCache := m.val, seenTail := i, hb := me.hb + m.hb))
    case CSlot =>
      var c := p.Slot(me.pc.h);
      s.(log := s.log + [Access(false, c, |s.popped|, me.hb, 1)],
         cons := me.(pc := CPublish(me.pc.h, s.buf[c]), hb := me.hb + {|s.log|}))
    case CRelease =>
      s.(head := s.head + [Msg(Wrap(me.pc.h + 1, p.bits), me.hb, 1)],
         cons := me.(pc := CIdle(Some(me.pc.out)), seenHead := |s.head|),
         popped := s.popped + [me.pc.out])
  }

  function Exec<T>(p: Params, s: State<T>, l: Label<T>): State<T>
    requires Enabled(p, s, l)
  {
    if l.PBegin? || l.PTail? || l.PHead? || l.PSlot? || l.PRelease? then ExecProd(p, s, l) else ExecCons(p, s, l)
  }

  predicate Legal<T>(p: Params, s: State<T>, ls: seq<Label<T>>)
    decreases |ls|
  {
    ls == [] || (Enabled(p, s, ls[0]) && Legal(p, Exec(p, s, ls[0]), ls[1..]))
  }

  function Run<T>(p: Params, s: State<T>, ls: seq<Label<T>>): State<T>
    requires Legal(p, s, ls)
    decreases |ls|
  {
    if ls == [] then s else Run(p, Exec(p, s, ls[0]), ls[1..])
  }

  /** Sequential consistency, as a restriction: every load reads the newest value. */
  predicate Fresh<T>(s: State<T>, l: Label<T>) {
    match l
    case PTail(i) => i == |s.tail| - 1
    case PHead(i) => i == |s.head| - 1
    case CHead(i) => i == |s.head| - 1
    case CTail(i) => i == |s.tail| - 1
    case _ => true
  }

  lemma {:induction false} RunAppend<T>(p: Params, s: State<T>, a: seq<Label<T>>, b: seq<Label<T>>)
    requires Legal(p, s, a) && Legal(p, Run(p, s, a), b)
    ensures Legal(p, s, a + b) && Run(p, s, a + b) == Run(p, Run(p, s, a), b)
    decreases |a|
  {
    if a == [] {
      assert a + b == b;
    } else {
      assert (a + b)[1..] == a[1..] + b;
      RunAppend(p, Exec(p, s, a[0]), a[1..], b);
    }
  }
}
