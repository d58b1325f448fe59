/** The programs that use the SPSC queue: the in-order stream, the bursts and the request/response
    pair over two queues. */
module SpscClients {
  import opened Bits
  import opened Memory
  import opened Common
  import opened SpscMachine
  import opened SpscInvariant
  import opened SpscTheorems

  // ---------------------------------------------------------------- progress of one call

  function ProdRank<T>(pc: ProdPc<T>): nat {
    match pc case PIdle(_) => 5 case PLoadTail(_) => 4 case PLoadHead(_, _) => 3
    case PWrite(_, _) => 2 case PPublish(_, _) => 1
  }

  function ConsRank<T>(pc: ConsPc<T>): nat {
    match pc case CIdle(_) => 5 case CLoadHead => 4 case CLoadTail(_) => 3 case CRead(_) => 2 case CPublish(_, _) => 1
  }

  ghost predicate ProducerLabel<T>(l: Label<T>) { l.PBegin? || l.PTail? || l.PHead? || l.PSlot? || l.PRelease? }

  /** While there is room a producer that reads the newest values only gets closer to success. */
  lemma {:induction false} ProducerProgress<T>(p: Params, s: State<T>, x: T) returns (l: Label<T>)
    requires Inv(p, s) && N(s) - M(s) < p.cap
    ensures Enabled(p, s, l) && Fresh(s, l) && ProducerLabel(l) && (l.PBegin? <==> s.prod.pc.PIdle?)
    ensures l.PBegin? ==> l.item == x
    ensures var s' := Exec(p, s, l);
            if l.PRelease? then |s'.pushed| == |s.pushed| + 1
            else s'.pushed == s.pushed && ProdRank(s'.prod.pc) < ProdRank(s.prod.pc)
  {
    if s.prod.pc.PIdle? {
      l := PBegin(x);
    } else {
      l := NextProducer(p, s);
      WrapSub(N(s), M(s), p.bits);
    }
  }

  lemma {:induction false} ConsumerProgress<T>(p: Params, s: State<T>) returns (l: Label<T>)
    requires Inv(p, s) && M(s) < N(s)
    ensures Enabled(p, s, l) && Fresh(s, l) && !ProducerLabel(l) && (l.CBegin? <==> s.cons.pc.CIdle?)
    ensures var s' := Exec(p, s, l);
            if l.CRelease? then |s'.popped| == |s.popped| + 1
            else s'.popped == s.popped && ConsRank(s'.cons.pc) < ConsRank(s.cons.pc)
  {
    if s.cons.pc.CIdle? {
      l := CBegin;
    } else {
      l := NextConsumer(p, s);
      WrapEq(N(s), M(s), p.bits);
    }
  }

  // ---------------------------------------------------------------- one queue: stream and burst

  /** A producer that pushes item(0), item(1), ... retrying each until it succeeds, and a consumer
      that pops until it has n; both as their loops decide it from their counters. */
  ghost predicate ClientStep<T>(s: State<T>, l: Label<T>, item: nat -> T, n: nat) {
    && (l.PBegin? ==> |s.pushed| < n && l.item == item(|s.pushed|))
    && (l.CBegin? ==> |s.popped| < n)
  }

  ghost predicate ClientRun<T>(p: Params, s: State<T>, ls: seq<Label<T>>, item: nat -> T, n: nat)
    requires Legal(p, s, ls)
    decreases |ls|
  {
    ls == [] || (ClientStep(s, ls[0], item, n) && ClientRun(p, Exec(p, s, ls[0]), ls[1..], item, n))
  }

  ghost predicate ClientInv<T>(p: Params, s: State<T>, item: nat -> T, n: nat) {
    && Inv(p, s)
    && |s.pushed| <= n && |s.popped| <= n
    && (forall i | 0 <= i < |s.pushed| :: s.pushed[i] == item(i))
    && (!s.prod.pc.PIdle? ==> |s.pushed| < n && s.prod.pc.item == item(|s.pushed|))
    && (!s.cons.pc.CIdle? ==> |s.popped| < n)
  }

  lemma {:induction false} ClientStepInv<T>(p: Params, s: State<T>, l: Label<T>, item: nat -> T, n: nat)
    requires ClientInv(p, s, item, n) && Enabled(p, s, l) && ClientStep(s, l, item, n)
    ensures ClientInv(p, Exec(p, s, l), item, n)
    ensures l.CRelease? ==> s.cons.pc.out == item(|s.popped|)
  {
    StepInv(p, s, l);
  }

  lemma {:induction false} ClientRunInv<T>(p: Params, s: State<T>, ls: seq<Label<T>>, item: nat -> T, n: nat)
    requires ClientInv(p, s, item, n) && Legal(p, s, ls) && ClientRun(p, s, ls, item, n)
    ensures ClientInv(p, Run(p, s, ls), item, n)
    decreases |ls|
  {
    if ls != [] {
      ClientStepInv(p, s, ls[0], item, n);
      ClientRunInv(p, Exec(p, s, ls[0]), ls[1..], item, n);
    }
  }

  /** The in-order assertion of the consumer never fails, in any run, stale loads included: the
      item of the pop in progress is the one the consumer's counter expects. */
  lemma {:induction false} InOrder<T>(p: Params, buf: seq<T>, ls: seq<Label<T>>, item: nat -> T, n: nat)
    requires p.Ok() && |buf| == p.cap && Legal(p, Init(buf), ls) && ClientRun(p, Init(buf), ls, item, n)
    ensures var s := Run(p, Init(buf), ls);
            && s.cons.pc.CPublish? ==> s.cons.pc.out == item(|s.popped|)
    ensures var s := Run(p, Init(buf), ls);
            forall i | 0 <= i < |s.popped| :: s.popped[i] == item(i)
  {
    InitInv(p, buf);
    ClientRunInv(p, Init(buf), ls, item, n);
  }

  /** From every state of a client run, with capacity at least one, the threads can complete all n
      transfers; they are never both blocked. */
  lemma {:induction false} ClientCanFinish<T>(p: Params, s: State<T>, item: nat -> T, n: nat)
    returns (ls: seq<Label<T>>)
    requires ClientInv(p, s, item, n) && p.cap >= 1
    ensures Legal(p, s, ls) && ClientRun(p, s, ls, item, n) && AllFresh(p, s, ls)
    ensures |Run(p, s, ls).pushed| == n && Run(p, s, ls).popped == seq(n, i requires 0 <= i => item(i))
    decreases 2 * n - |s.pushed| - |s.popped|, ProdRank(s.prod.pc) + ConsRank(s.cons.pc)
  {
    var l;
    if M(s) < N(s) {
      l := ConsumerProgress(p, s);
    } else if |s.pushed| < n {
      l := ProducerProgress(p, s, item(|s.pushed|));
    } else {
      assert s.popped == seq(n, i requires 0 <= i => item(i));
      return [];
    }
    ClientStepInv(p, s, l, item, n);
    var rest := ClientCanFinish(p, Exec(p, s, l), item, n);
    ls := [l] + rest;
    assert ls[1..] == rest;
  }

  /** static_cast<int> of a loop counter, and the item of the i-th push of the burst client. */
  function StreamItem(i: nat): int {
    if Wrap(i, 32) < Pow2(31) then Wrap(i, 32) else Wrap(i, 32) - Pow2(32)
  }

  /** The cast repeats with the width of int and stays within its range. */
  lemma {:induction false} StreamItemIsCast(i: nat)
    ensures -(Pow2(31) as int) <= StreamItem(i) < Pow2(31)
    ensures StreamItem(i + Pow2(32)) == StreamItem(i)
    ensures exists q: int :: i == StreamItem(i) + q * Pow2(32)
  {
    var m, q := Pow2(32), i / Pow2(32);
    assert i == m * q + i % m;
    assert i + m == m * (q + 1) + i % m by { Distribute(m, q, 1); }
    ModUnique(i + m, m, q + 1, i % m);
    if Wrap(i, 32) < Pow2(31) {
      assert i == StreamItem(i) + q * m;
    } else {
      assert i == StreamItem(i) + (q + 1) * m by { Distribute(m, q, 1); }
    }
  }

  /** batch: BATCH_SIZE, 64 in the benchmark. */
  function BurstItem(batch: nat, i: nat): int
    requires batch >= 1
  {
    i % batch
  }

  /** Burst: the i-th pop of every batch yields i, whatever the size of the batches. */
  lemma {:induction false} BurstBatches(
    p: Params, buf: seq<int>, ls: seq<Label<int>>, batch: nat, batches: nat, b: nat, i: nat)
    requires p.Ok() && |buf| == p.cap && Legal(p, Init(buf), ls) && i < batch
    requires ClientRun(p, Init(buf), ls, k => BurstItem(batch, k), batches * batch)
    requires batch * b + i < |Run(p, Init(buf), ls).popped|
    ensures Run(p, Init(buf), ls).popped[batch * b + i] == i
  {
    InOrder(p, buf, ls, k => BurstItem(batch, k), batches * batch);
    ModUnique(batch * b + i, batch, b, i);
  }

  /** Stream: every pop yields the cast of its own index, also past the range of int. */
  lemma {:induction false} StreamInOrder(p: Params, buf: seq<int>, ls: seq<Label<int>>, n: nat, i: nat)
    requires p.Ok() && |buf| == p.cap && Legal(p, Init(buf), ls) && ClientRun(p, Init(buf), ls, StreamItem, n)
    requires i < |Run(p, Init(buf), ls).popped|
    ensures Run(p, Init(buf), ls).popped[i] == StreamItem(i)
    ensures i < Pow2(31) ==> StreamItem(i) == i
  {
    InOrder(p, buf, ls, StreamItem, n);
    if i < Pow2(31) { WrapSmall(i, 32); }
  }

  // ---------------------------------------------------------------- request / response

  /** The requester's loop variable and whether its push of round i is done; the responder's loop
      variable and the value it holds between its pop and its push.

      A thread may not read a value older than one that happens before the read, also when it
      learned of it through the other queue. So a message in q0's tail carries how far the requester
      had popped q1 (view0), a message in q1's tail how far the responder had popped q0 (view1), and
      the floors are the newest such news a thread has acquired. No other order between the queues
      is used, which leaves at least every read that the language allows. */
  datatype Pair<T> = Pair(
    q0: State<T>, q1: State<T>, i: nat, sent: bool, j: nat, held: Option<T>,
    view0: seq<nat>, view1: seq<nat>, requesterFloor: nat, responderFloor: nat)

  function PairInit<T>(buf0: seq<T>, buf1: seq<T>): Pair<T> {
    Pair(Init(buf0), Init(buf1), 0, false, 0, None, [0], [0], 0, 0)
  }

  datatype Side<T> = Request(l: Label<T>) | Echo(l: Label<T>) | Take(l: Label<T>) | Reply(l: Label<T>)

  /** Each thread is in one call at a time, begun where its loop says; loads may be stale. The
      conditions on CTail always hold: there is a view per message (ViewInv). */
  ghost predicate PairEnabled<T>(p: Params, s: Pair<T>, a: Side<T>, item: nat -> T, n: nat) {
    match a
    case Request(l) =>
      && ProducerLabel(l) && Enabled(p, s.q0, l) && (l.PHead? ==> l.at >= s.requesterFloor)
      && (l.PBegin? ==> s.q1.cons.pc.CIdle? && !s.sent && s.i < n && l.item == item(s.i))
    case Echo(l) =>
      && !ProducerLabel(l) && Enabled(p, s.q1, l) && (l.CTail? ==> l.at < |s.view1|)
      && (l.CBegin? ==> s.q0.prod.pc.PIdle? && s.sent)
    case Take(l) =>
      && !ProducerLabel(l) && Enabled(p, s.q0, l) && (l.CTail? ==> l.at < |s.view0|)
      && (l.CBegin? ==> s.q1.prod.pc.PIdle? && s.held.None? && s.j < n)
    case Reply(l) =>
      && ProducerLabel(l) && Enabled(p, s.q1, l) && (l.PHead? ==> l.at >= s.responderFloor)
      && (l.PBegin? ==> s.q0.cons.pc.CIdle? && s.held == Some(l.item))
  }

  function Max(a: nat, b: nat): nat { if a < b then b else a }

  /** The pair after a step that leaves the queue it works on as q. */
  function After<T>(s: Pair<T>, a: Side<T>, q: State<T>): Pair<T>
    requires a.Echo? && a.l.CTail? ==> a.l.at < |s.view1|
    requires a.Take? && a.l.CTail? ==> a.l.at < |s.view0|
    requires a.Take? && a.l.CRelease? ==> s.q0.cons.pc.CPublish?
  {
    match a
    case Request(l) =>
      s.(q0 := q, sent := s.sent || l.PRelease?,
         view0 := if l.PRelease? then s.view0 + [s.q1.cons.seenHead] else s.view0)
    case Echo(l) =>
      s.(q1 := q, sent := s.sent && !l.CRelease?, i := s.i + One(l.CRelease?),
         requesterFloor := if l.CTail? then Max(s.requesterFloor, s.view1[l.at]) else s.requesterFloor)
    case Take(l) =>
      s.(q0 := q, held := if l.CRelease? then Some(s.q0.cons.pc.out) else s.held,
         responderFloor := if l.CTail? then Max(s.responderFloor, s.view0[l.at]) else s.responderFloor)
    case Reply(l) =>
      s.(q1 := q, held := if l.PRelease? then None else s.held, j := s.j + One(l.PRelease?),
         view1 := if l.PRelease? then s.view1 + [s.q0.cons.seenHead] else s.view1)
  }

  ghost function PairExec<T>(p: Params, s: Pair<T>, a: Side<T>, item: nat -> T, n: nat): Pair<T>
    requires PairEnabled(p, s, a, item, n)
  {
    After(s, a, Exec(p, if a.Request? || a.Take? then s.q0 else s.q1, a.l))
  }

  /** What each side has learned of the other's pops, in terms of the messages it has acquired. */
  ghost predicate ViewInv<T>(s: Pair<T>) {
    && |s.view0| == |s.q0.tail| && |s.view1| == |s.q1.tail|
    && (forall k | 0 <= k < |s.view0| :: s.view0[k] == if k == 0 then 0 else k - 1)
    && (forall k | 0 <= k < |s.view1| :: s.view1[k] == k)
    && s.requesterFloor == s.q1.cons.seenTail
    && s.responderFloor == (if s.q0.cons.seenTail == 0 then 0 else s.q0.cons.seenTail - 1)
  }

  /** Where the messages are, from the counters of both loops. */
  ghost predicate Rounds<T>(s: Pair<T>, item: nat -> T, n: nat) {
    && |s.q0.pushed| == s.i + One(s.sent) <= n && |s.q1.popped| == s.i
    && |s.q0.popped| == s.j + One(s.held.Some?) && |s.q1.pushed| == s.j
    && s.i <= s.j
    && (forall k | 0 <= k < |s.q0.pushed| :: s.q0.pushed[k] == item(k))
    && (forall k | 0 <= k < |s.q1.pushed| :: s.q1.pushed[k] == item(k))
    && (s.held.Some? ==> s.held.value == item(s.j))
    && (!s.q0.prod.pc.PIdle? ==> !s.sent && s.i < n && s.q0.prod.pc.item == item(s.i) && s.q1.cons.pc.CIdle?)
    && (!s.q1.cons.pc.CIdle? ==> s.sent)
    && (!s.q0.cons.pc.CIdle? ==> s.held.None? && s.j < n && s.q1.prod.pc.PIdle?)
    && (!s.q1.prod.pc.PIdle? ==> s.held == Some(s.q1.prod.pc.item))
  }

  ghost predicate PairInv<T>(p: Params, s: Pair<T>, item: nat -> T, n: nat) {
    Inv(p, s.q0) && Inv(p, s.q1) && p.cap >= 1 && Rounds(s, item, n) && ViewInv(s)
  }

  lemma {:induction false} PairInitInv<T>(p: Params, buf0: seq<T>, buf1: seq<T>, item: nat -> T, n: nat)
    requires p.Ok() && p.cap >= 1 && |buf0| == |buf1| == p.cap
    ensures PairInv(p, PairInit(buf0, buf1), item, n)
  {
    InitInv(p, buf0);
    InitInv(p, buf1);
  }

  ghost predicate PushEffect<T>(s: State<T>, l: Label<T>, s': State<T>)
    requires l.PRelease? ==> s.prod.pc.PPublish?
    requires !l.PBegin? && ProducerLabel(l) ==> !s.prod.pc.PIdle?
  {
    && (s'.prod.pc.PIdle? <==> l.PRelease?)
    && (!s'.prod.pc.PIdle? ==> ProducerLabel(l) && s'.prod.pc.item == if l.PBegin? then l.item else s.prod.pc.item)
    && s'.pushed == (if l.PRelease? then s.pushed + [s.prod.pc.item] else s.pushed)
    && |s'.tail| == |s.tail| + One(l.PRelease?)
    && s'.popped == s.popped && s'.cons == s.cons
  }

  /** A producer that cannot read a head older than its queue's emptiness never fails. */
  lemma {:induction false} PushIntoEmpty<T>(p: Params, s: State<T>, l: Label<T>)
    requires Inv(p, s) && p.cap >= 1 && ProducerLabel(l) && Enabled(p, s, l)
    requires l.PHead? ==> l.at >= N(s)
    ensures PushEffect(s, l, Exec(p, s, l))
  {
    WrapSub(N(s), M(s), p.bits);
  }

  ghost predicate PopEffect<T>(s: State<T>, l: Label<T>, s': State<T>)
    requires l.CRelease? ==> s.cons.pc.CPublish?
  {
    && (l.CRelease? ==> s'.cons.pc.CIdle? && |s.popped| < |s.pushed| && s.cons.pc.out == s.pushed[|s.popped|])
    && (!s'.cons.pc.CIdle? && !l.CBegin? ==> !s.cons.pc.CIdle?)
    && |s'.popped| == |s.popped| + One(l.CRelease?)
    && s'.cons.seenTail == (if l.CTail? then l.at else s.cons.seenTail) && s.cons.seenTail <= s'.cons.seenTail
    && s'.tail == s.tail && s'.pushed == s.pushed && s'.prod == s.prod
  }

  lemma {:induction false} ConsumerEffect<T>(p: Params, s: State<T>, l: Label<T>)
    requires Inv(p, s) && !ProducerLabel(l) && Enabled(p, s, l)
    ensures PopEffect(s, l, Exec(p, s, l))
  {
  }

  lemma {:induction false} PairShape<T>(p: Params, s: Pair<T>, item: nat -> T, n: nat)
    requires PairInv(p, s, item, n)
    ensures |Contents(s.q0)| + One(s.held.Some?) + |Contents(s.q1)| == One(s.sent) <= 1
    ensures s.j <= s.i + 1
    ensures !s.q0.prod.pc.PIdle? ==> N(s.q0) == M(s.q0) == s.requesterFloor == s.q1.cons.seenHead
    ensures !s.q1.prod.pc.PIdle? ==> N(s.q1) == M(s.q1) == s.responderFloor == s.q0.cons.seenHead - 1
    ensures s.requesterFloor <= M(s.q0) && s.responderFloor <= M(s.q1)
  {
  }

  // What a step means for the pair, from its effect q on the one queue it works on.
  lemma {:induction false} RequestRounds<T>(p: Params, s: Pair<T>, l: Label<T>, q: State<T>, item: nat -> T, n: nat)
    requires Rounds(s, item, n) && PairEnabled(p, s, Request(l), item, n) && PushEffect(s.q0, l, q)
    ensures Rounds(After(s, Request(l), q), item, n)
  {
  }

  lemma {:induction false} EchoRounds<T>(p: Params, s: Pair<T>, l: Label<T>, q: State<T>, item: nat -> T, n: nat)
    requires Rounds(s, item, n) && PairEnabled(p, s, Echo(l), item, n) && PopEffect(s.q1, l, q)
    ensures Rounds(After(s, Echo(l), q), item, n)
    ensures l.CRelease? ==> s.q1.cons.pc.out == item(s.i)
  {
  }

  lemma {:induction false} TakeRounds<T>(p: Params, s: Pair<T>, l: Label<T>, q: State<T>, item: nat -> T, n: nat)
    requires Rounds(s, item, n) && PairEnabled(p, s, Take(l), item, n) && PopEffect(s.q0, l, q)
    ensures Rounds(After(s, Take(l), q), item, n)
  {
  }

  lemma {:induction false} ReplyRounds<T>(p: Params, s: Pair<T>, l: Label<T>, q: State<T>, item: nat -> T, n: nat)
    requires Rounds(s, item, n) && PairEnabled(p, s, Reply(l), item, n) && PushEffect(s.q1, l, q)
    ensures Rounds(After(s, Reply(l), q), item, n)
  {
  }

  /** The views follow the pops: a message tells of all pops its sender has made. */
  lemma {:induction false} ViewOfPush<T>(s: Pair<T>, a: Side<T>, q: State<T>)
    requires ViewInv(s) && (a.Request? || a.Reply?) && |s.q0.tail| >= 1 && |s.q1.tail| >= 1
    requires var was := if a.Request? then s.q0 else s.q1;
             |q.tail| == |was.tail| + One(a.l.PRelease?) && q.cons == was.cons
    requires a.l.PRelease? ==> if a.Request? then s.q1.cons.seenHead == N(s.q0) else s.q0.cons.seenHead == N(s.q1) + 1
    ensures ViewInv(After(s, a, q))
  {
  }

  lemma {:induction false} ViewOfPop<T>(s: Pair<T>, a: Side<T>, q: State<T>)
    requires ViewInv(s) && (a.Echo? || a.Take?)
    requires a.Take? && a.l.CRelease? ==> s.q0.cons.pc.CPublish?
    requires var was := if a.Take? then s.q0 else s.q1;
             && (a.l.CTail? ==> a.l.at < |was.tail|)
             && q.tail == was.tail && was.cons.seenTail <= q.cons.seenTail
             && q.cons.seenTail == (if a.l.CTail? then a.l.at else was.cons.seenTail)
    ensures ViewInv(After(s, a, q))
  {
  }

  /** What a push does to its queue, with loads no older than the floor. */
  lemma {:induction false} FlooredPush<T>(p: Params, q: State<T>, l: Label<T>, floor: nat)
    requires Inv(p, q) && p.cap >= 1 && ProducerLabel(l) && Enabled(p, q, l)
    requires !q.prod.pc.PIdle? ==> floor == N(q)
    requires l.PHead? ==> l.at >= floor
    ensures Inv(p, Exec(p, q, l)) && PushEffect(q, l, Exec(p, q, l))
  {
    StepInv(p, q, l);
    PushIntoEmpty(p, q, l);
  }

  lemma {:induction false} RequestStep<T>(p: Params, s: Pair<T>, l: Label<T>, q: State<T>, item: nat -> T, n: nat)
    requires PairInv(p, s, item, n) && PairEnabled(p, s, Request(l), item, n) && Inv(p, q) && PushEffect(s.q0, l, q)
    ensures PairInv(p, After(s, Request(l), q), item, n)
  {
    PairShape(p, s, item, n);
    RequestRounds(p, s, l, q, item, n);
    ViewOfPush(s, Request(l), q);
  }

  lemma {:induction false} ReplyStep<T>(p: Params, s: Pair<T>, l: Label<T>, q: State<T>, item: nat -> T, n: nat)
    requires PairInv(p, s, item, n) && PairEnabled(p, s, Reply(l), item, n) && Inv(p, q) && PushEffect(s.q1, l, q)
    ensures PairInv(p, After(s, Reply(l), q), item, n)
  {
    PairShape(p, s, item, n);
    ReplyRounds(p, s, l, q, item, n);
    ViewOfPush(s, Reply(l), q);
  }

  lemma {:induction false} PushStep<T>(p: Params, s: Pair<T>, a: Side<T>, item: nat -> T, n: nat)
    requires PairInv(p, s, item, n) && PairEnabled(p, s, a, item, n) && (a.Request? || a.Reply?)
    ensures PairInv(p, PairExec(p, s, a, item, n), item, n)
    ensures Exec(p, if a.Request? then s.q0 else s.q1, a.l).prod.pc.PIdle? <==> a.l.PRelease?
  {
    PairShape(p, s, item, n);
    var q := if a.Request? then s.q0 else s.q1;
    FlooredPush(p, q, a.l, if a.Request? then s.requesterFloor else s.responderFloor);
    if a.Request? {
      RequestStep(p, s, a.l, Exec(p, q, a.l), item, n);
    } else {
      ReplyStep(p, s, a.l, Exec(p, q, a.l), item, n);
    }
  }

  lemma {:induction false} PopStep<T>(p: Params, s: Pair<T>, a: Side<T>, item: nat -> T, n: nat)
    requires PairInv(p, s, item, n) && PairEnabled(p, s, a, item, n) && (a.Echo? || a.Take?)
    ensures PairInv(p, PairExec(p, s, a, item, n), item, n)
    ensures a.Echo? && a.l.CRelease? ==> s.q1.cons.pc.out == item(s.i)
  {
    var q := if a.Take? then s.q0 else s.q1;
    StepInv(p, q, a.l);
    ConsumerEffect(p, q, a.l);
    var q' := Exec(p, q, a.l);
    if a.Take? { TakeRounds(p, s, a.l, q', item, n); } else { EchoRounds(p, s, a.l, q', item, n); }
    ViewOfPop(s, a, q');
  }

  /** Every step of every release/acquire run keeps the pair's invariant: at most one message exists
      in both queues and the responder's hands together, no push ever fails, however stale the
      loads, and the echo of round i is item i. */
  lemma {:induction false} PairStep<T>(p: Params, s: Pair<T>, a: Side<T>, item: nat -> T, n: nat)
    requires PairInv(p, s, item, n) && PairEnabled(p, s, a, item, n)
    ensures PairInv(p, PairExec(p, s, a, item, n), item, n)
    ensures |Contents(s.q0)| + One(s.held.Some?) + |Contents(s.q1)| <= 1
    ensures a.Request? ==> (PairExec(p, s, a, item, n).q0.prod.pc.PIdle? <==> a.l.PRelease?)
    ensures a.Reply? ==> (PairExec(p, s, a, item, n).q1.prod.pc.PIdle? <==> a.l.PRelease?)
    ensures a.Echo? && a.l.CRelease? ==> s.q1.cons.pc.out == item(s.i)
  {
    PairShape(p, s, item, n);
    if a.Request? || a.Reply? { PushStep(p, s, a, item, n); } else { PopStep(p, s, a, item, n); }
  }

  ghost function PairRank<T>(s: Pair<T>): nat {
    ProdRank(s.q0.prod.pc) + ConsRank(s.q0.cons.pc) + ProdRank(s.q1.prod.pc) + ConsRank(s.q1.cons.pc)
  }

  ghost function PairLeft<T>(s: Pair<T>, n: nat): int {
    4 * n - |s.q0.pushed| - |s.q0.popped| - |s.q1.pushed| - |s.q1.popped|
  }

  ghost predicate PairLegal<T>(p: Params, s: Pair<T>, acts: seq<Side<T>>, item: nat -> T, n: nat)
    decreases |acts|
  {
    acts == [] || (PairEnabled(p, s, acts[0], item, n)
      && PairLegal(p, PairExec(p, s, acts[0], item, n), acts[1..], item, n))
  }

  ghost function PairRun<T>(p: Params, s: Pair<T>, acts: seq<Side<T>>, item: nat -> T, n: nat): Pair<T>
    requires PairLegal(p, s, acts, item, n)
    decreases |acts|
  {
    if acts == [] then s else PairRun(p, PairExec(p, s, acts[0], item, n), acts[1..], item, n)
  }

  lemma {:induction false} PairRunInv<T>(p: Params, s: Pair<T>, acts: seq<Side<T>>, item: nat -> T, n: nat)
    requires PairInv(p, s, item, n) && PairLegal(p, s, acts, item, n)
    ensures PairInv(p, PairRun(p, s, acts, item, n), item, n)
    decreases |acts|
  {
    if acts != [] {
      PairStep(p, s, acts[0], item, n);
      PairRunInv(p, PairExec(p, s, acts[0], item, n), acts[1..], item, n);
    }
  }

  /** Every run of the two programs, stale loads included: the echoes are the requests, in order; at
      most one message is under way; no slot access of either queue is a race. */
  lemma {:induction false} PairEveryRun<T>(
    p: Params, buf0: seq<T>, buf1: seq<T>, acts: seq<Side<T>>, item: nat -> T, n: nat)
    requires p.Ok() && p.cap >= 1 && |buf0| == |buf1| == p.cap && PairLegal(p, PairInit(buf0, buf1), acts, item, n)
    ensures var s := PairRun(p, PairInit(buf0, buf1), acts, item, n);
            && s.i == |s.q1.popped| <= n && s.i <= s.j <= s.i + 1
            && (forall k | 0 <= k < s.i :: s.q1.popped[k] == item(k))
            && |s.q0.pushed| - |s.q0.popped| + One(s.held.Some?) + |s.q1.pushed| - |s.q1.popped| <= 1
            && RaceFree(s.q0.log) && RaceFree(s.q1.log)
  {
    PairInitInv(p, buf0, buf1, item, n);
    PairRunInv(p, PairInit(buf0, buf1), acts, item, n);
    PairShape(p, PairRun(p, PairInit(buf0, buf1), acts, item, n), item, n);
  }

  ghost predicate Closer<T>(p: Params, s: Pair<T>, a: Side<T>, item: nat -> T, n: nat)
    requires PairEnabled(p, s, a, item, n)
  {
    var s' := PairExec(p, s, a, item, n);
    if a.l.PRelease? || a.l.CRelease? then PairLeft(s', n) < PairLeft(s, n)
    else PairLeft(s', n) == PairLeft(s, n) && PairRank(s') < PairRank(s)
  }

  lemma {:induction false} NextPush<T>(p: Params, s: Pair<T>, item: nat -> T, n: nat) returns (a: Side<T>)
    requires PairInv(p, s, item, n) && if s.sent then s.j == s.i && s.held.Some? else s.i < n
    ensures PairEnabled(p, s, a, item, n) && Closer(p, s, a, item, n)
  {
    PairShape(p, s, item, n);
    var l := ProducerProgress(p, if s.sent then s.q1 else s.q0, if s.sent then s.held.value else item(s.i));
    a := if s.sent then Reply(l) else Request(l);
  }

  lemma {:induction false} NextTake<T>(p: Params, s: Pair<T>, item: nat -> T, n: nat) returns (a: Side<T>)
    requires PairInv(p, s, item, n) && s.sent && s.held.None? && s.j == s.i
    ensures PairEnabled(p, s, a, item, n) && Closer(p, s, a, item, n)
  {
    PairShape(p, s, item, n);
    var l := ConsumerProgress(p, s.q0);
    a := Take(l);
  }

  lemma {:induction false} NextEcho<T>(p: Params, s: Pair<T>, item: nat -> T, n: nat) returns (a: Side<T>)
    requires PairInv(p, s, item, n) && s.sent && s.held.None? && s.j != s.i
    ensures PairEnabled(p, s, a, item, n) && Closer(p, s, a, item, n)
  {
    PairShape(p, s, item, n);
    var l := ConsumerProgress(p, s.q1);
    a := Echo(l);
  }

  /** Whoever's turn it is can get closer to the end of its call. */
  lemma {:induction false} PairNext<T>(p: Params, s: Pair<T>, item: nat -> T, n: nat) returns (a: Side<T>)
    requires PairInv(p, s, item, n) && !(s.i == n == s.j)
    ensures PairEnabled(p, s, a, item, n) && Closer(p, s, a, item, n)
  {
    PairShape(p, s, item, n);
    if !s.sent || s.held.Some? {
      a := NextPush(p, s, item, n);
    } else if s.j == s.i {
      a := NextTake(p, s, item, n);
    } else {
      a := NextEcho(p, s, item, n);
    }
  }

  /** No reachable state is a deadlock: from each of them both threads can complete all n rounds. */
  lemma {:induction false} PairCanFinish<T>(p: Params, s: Pair<T>, item: nat -> T, n: nat) returns (acts: seq<Side<T>>)
    requires PairInv(p, s, item, n)
    ensures PairLegal(p, s, acts, item, n)
    ensures PairRun(p, s, acts, item, n).i == n == PairRun(p, s, acts, item, n).j
    decreases PairLeft(s, n), PairRank(s)
  {
    if s.i == n == s.j { return []; }
    var a := PairNext(p, s, item, n);
    PairStep(p, s, a, item, n);
    var rest := PairCanFinish(p, PairExec(p, s, a, item, n), item, n);
    acts := [a] + rest;
    assert acts[1..] == rest;
  }

  // ---------------------------------------------------------------- stale polls

  lemma {:induction false} PairThen<T>(p: Params, s: Pair<T>, a: Side<T>, rest: seq<Side<T>>, item: nat -> T, n: nat)
    requires PairEnabled(p, s, a, item, n) && PairLegal(p, PairExec(p, s, a, item, n), rest, item, n)
    ensures PairLegal(p, s, [a] + rest, item, n)
    ensures PairRun(p, s, [a] + rest, item, n) == PairRun(p, PairExec(p, s, a, item, n), rest, item, n)
  {
    assert ([a] + rest)[1..] == rest;
  }

  /** The requester can get its push of the round done while the responder does nothing. */
  lemma {:induction false} Send<T>(p: Params, s: Pair<T>, item: nat -> T, n: nat) returns (acts: seq<Side<T>>)
    requires PairInv(p, s, item, n) && (s.sent || s.i < n)
    ensures PairLegal(p, s, acts, item, n)
    ensures var s' := PairRun(p, s, acts, item, n);
            && PairInv(p, s', item, n) && s'.sent
            && s'.q0.cons == s.q0.cons && s'.q0.head == s.q0.head && s'.q1 == s.q1 && s'.held == s.held && s'.j == s.j
    decreases !s.sent, ProdRank(s.q0.prod.pc)
  {
    if s.sent { return []; }
    PairShape(p, s, item, n);
    var l := ProducerProgress(p, s.q0, item(s.i));
    PairStep(p, s, Request(l), item, n);
    ConsumerUntouched(p, s.q0, l);
    var rest := Send(p, PairExec(p, s, Request(l), item, n), item, n);
    PairThen(p, s, Request(l), rest, item, n);
    acts := [Request(l)] + rest;
  }

  lemma {:induction false} ConsumerUntouched<T>(p: Params, s: State<T>, l: Label<T>)
    requires Enabled(p, s, l) && ProducerLabel(l)
    ensures Exec(p, s, l).cons == s.cons && Exec(p, s, l).head == s.head
  {
  }

  /** With the request in q0 the responder may still read an old tail, and find nothing, any number of
      times: that is why it polls. */
  lemma {:induction false} StaleTakes<T>(p: Params, buf0: seq<T>, buf1: seq<T>, item: nat -> T, n: nat, k: nat)
    returns (send: seq<Side<T>>, polls: seq<Side<T>>)
    requires p.Ok() && p.cap >= 1 && |buf0| == |buf1| == p.cap && n >= 1
    ensures PairLegal(p, PairInit(buf0, buf1), send, item, n)
    ensures var s := PairRun(p, PairInit(buf0, buf1), send, item, n);
            && |s.q0.pushed| == 1 && s.q0.popped == []
            && PairLegal(p, s, polls, item, n) && |polls| == 3 * k
            && PairRun(p, s, polls, item, n).q0.popped == []
  {
    PairInitInv(p, buf0, buf1, item, n);
    send := Send(p, PairInit(buf0, buf1), item, n);
    polls := PollInVain(p, PairRun(p, PairInit(buf0, buf1), send, item, n), item, n, k);
  }

  lemma {:induction false} PollInVain<T>(p: Params, s: Pair<T>, item: nat -> T, n: nat, k: nat)
    returns (acts: seq<Side<T>>)
    requires MayPoll(p, s, item, n)
    ensures PairLegal(p, s, acts, item, n) && |acts| == 3 * k
    ensures PairRun(p, s, acts, item, n).q0.popped == s.q0.popped
    decreases k
  {
    if k == 0 { return []; }
    var h := M(s.q0);
    var s1, s2, s3 := OnePoll(p, s, item, n);
    var rest := PollInVain(p, s3, item, n, k - 1);
    PairThen(p, s2, Take(CTail(h)), rest, item, n);
    PairThen(p, s1, Take(CHead(h)), [Take(CTail(h))] + rest, item, n);
    PairThen(p, s, Take(CBegin), [Take(CHead(h))] + ([Take(CTail(h))] + rest), item, n);
    acts := [Take(CBegin)] + ([Take(CHead(h))] + ([Take(CTail(h))] + rest));
  }

  ghost predicate MayPoll<T>(p: Params, s: Pair<T>, item: nat -> T, n: nat) {
    && PairInv(p, s, item, n) && s.q0.cons.pc.CIdle? && s.q1.prod.pc.PIdle? && s.held.None? && s.j < n
    && s.q0.cons.seenTail == M(s.q0)
  }

  lemma {:induction false} OnePoll<T>(p: Params, s: Pair<T>, item: nat -> T, n: nat)
    returns (s1: Pair<T>, s2: Pair<T>, s3: Pair<T>)
    requires MayPoll(p, s, item, n)
    ensures PairEnabled(p, s, Take(CBegin), item, n) && s1 == PairExec(p, s, Take(CBegin), item, n)
    ensures PairEnabled(p, s1, Take(CHead(M(s.q0))), item, n) && s2 == PairExec(p, s1, Take(CHead(M(s.q0))), item, n)
    ensures PairEnabled(p, s2, Take(CTail(M(s.q0))), item, n) && s3 == PairExec(p, s2, Take(CTail(M(s.q0))), item, n)
    ensures MayPoll(p, s3, item, n) && s3.q0.popped == s.q0.popped
  {
    var h := M(s.q0);
    s1 := PairExec(p, s, Take(CBegin), item, n);
    PopStep(p, s, Take(CBegin), item, n);
    s2 := PairExec(p, s1, Take(CHead(h)), item, n);
    PopStep(p, s1, Take(CHead(h)), item, n);
    s3 := PairExec(p, s2, Take(CTail(h)), item, n);
    PopStep(p, s2, Take(CTail(h)), item, n);
  }
}
