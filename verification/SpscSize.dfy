/** What size() and empty() tell a caller: exact bounds for the two threads of the queue, nothing
    at all for a third thread, whose two loads are apart. */
module SpscSize {
  import opened Bits
  import opened Memory
  import opened SpscMachine
  import opened SpscInvariant
  import opened SpscTheorems
  import opened SpscClients

  /** tail_.load() - head_.load() for the values read. */
  function SizeOf(p: Params, tail: Msg, head: Msg): nat { Wrap(tail.val - head.val, p.bits) }

  /** Called by the producer thread, in any run and with a stale head: between the true occupancy
      and Capacity. */
  lemma {:induction false} SizeByProducer<T>(p: Params, s: State<T>, tailAt: nat, headAt: nat)
    requires Inv(p, s) && Readable(s.tail, s.prod.seenTail, tailAt) && Readable(s.head, s.prod.seenHead, headAt)
    ensures |Contents(s)| <= SizeOf(p, s.tail[tailAt], s.head[headAt]) <= p.cap
    ensures headAt == M(s) <==> SizeOf(p, s.tail[tailAt], s.head[headAt]) == |Contents(s)|
  {
    SizeOfCounts(p, s.tail[tailAt], s.head[headAt], tailAt, headAt);
  }

  /** Called by the consumer thread: at most the true occupancy, so a non-empty answer is final. */
  lemma {:induction false} SizeByConsumer<T>(p: Params, s: State<T>, tailAt: nat, headAt: nat)
    requires Inv(p, s) && Readable(s.tail, s.cons.seenTail, tailAt) && Readable(s.head, s.cons.seenHead, headAt)
    ensures SizeOf(p, s.tail[tailAt], s.head[headAt]) <= |Contents(s)| <= p.cap
    ensures s.head[headAt].val != s.tail[tailAt].val ==> Contents(s) != []
  {
    SizeOfCounts(p, s.tail[tailAt], s.head[headAt], tailAt, headAt);
  }

  lemma {:induction false} SizeOfCounts(p: Params, tail: Msg, head: Msg, i: nat, j: nat)
    requires tail.val == Wrap(i, p.bits) && head.val == Wrap(j, p.bits)
    ensures SizeOf(p, tail, head) == Wrap(i - j, p.bits)
    ensures 0 <= i - j < Pow2(p.bits) ==> SizeOf(p, tail, head) == i - j
    ensures 0 < j - i < Pow2(p.bits) ==> SizeOf(p, tail, head) == Pow2(p.bits) - (j - i)
    ensures tail.val == head.val <==> SizeOf(p, tail, head) == 0
  {
    WrapDiff(i, j, p.bits);
    if 0 <= i - j < Pow2(p.bits) { WrapSmall(i - j, p.bits); }
    if 0 < j - i < Pow2(p.bits) { WrapNegative(j - i, p.bits); }
    WrapInRange(i, p.bits);
    WrapInRange(j, p.bits);
    WrappedEqual(tail.val, head.val, p.bits);
  }

  /** What any thread's size() answers, exactly, whatever places its two loads read and however often the
      indices have wrapped: the difference of the two counts, modulo the width. So it is right about
      the moment only if no transfer comes between; it can be anything, and from a tail older than
      the head it wraps below zero. empty() compares the same two values. */
  lemma {:induction false} SizeExact<T>(p: Params, s: State<T>, tailAt: nat, headAt: nat)
    requires Inv(p, s) && tailAt < |s.tail| && headAt < |s.head|
    ensures var size := SizeOf(p, s.tail[tailAt], s.head[headAt]);
            && size == Wrap(tailAt - headAt, p.bits)
            && (0 <= tailAt - headAt < Pow2(p.bits) ==> size == tailAt - headAt)
            && (0 < headAt - tailAt < Pow2(p.bits) ==> size == Pow2(p.bits) - (headAt - tailAt))
            && (s.tail[tailAt].val == s.head[headAt].val <==> size == 0)
  {
    SizeOfCounts(p, s.tail[tailAt], s.head[headAt], tailAt, headAt);
  }

  /** A third thread may make its two loads any number of transfers apart: from every a and b there is a
      run in which the queue is empty after a transfers and again after b. */
  lemma {:induction false} TwoMoments<T>(p: Params, buf: seq<T>, x: T, a: nat, b: nat)
    returns (first: seq<Label<T>>, second: seq<Label<T>>)
    requires p.Ok() && p.cap >= 1 && |buf| == p.cap && a <= b
    ensures Legal(p, Init(buf), first) && Legal(p, Run(p, Init(buf), first), second)
    ensures EmptyAfter(p, Run(p, Init(buf), first), a)
    ensures EmptyAfter(p, Run(p, Run(p, Init(buf), first), second), b)
  {
    InitInv(p, buf);
    first := ClientCanFinish(p, Init(buf), i => x, a);
    var s := Run(p, Init(buf), first);
    ClientRunInv(p, Init(buf), first, i => x, a);
    second := ClientCanFinish(p, s, i => x, b);
    RunInv(p, s, second);
  }

  ghost predicate EmptyAfter<T>(p: Params, s: State<T>, n: nat) {
    Inv(p, s) && |s.pushed| == |s.popped| == n == N(s) == M(s)
  }

  /** Loading head first it can so answer any n, above Capacity too, about a queue that is empty. */
  lemma {:induction false} ThirdThreadHeadFirst<T>(p: Params, buf: seq<T>, x: T, a: nat, n: nat)
    returns (first: seq<Label<T>>, second: seq<Label<T>>)
    requires p.Ok() && p.cap >= 1 && |buf| == p.cap && n < Pow2(p.bits)
    ensures Legal(p, Init(buf), first) && Legal(p, Run(p, Init(buf), first), second)
    ensures var s := Run(p, Init(buf), first); var s' := Run(p, s, second);
            && EmptyAfter(p, s, a) && EmptyAfter(p, s', a + n)
            && SizeOf(p, s'.tail[a + n], s.head[a]) == n
  {
    first, second := TwoMoments(p, buf, x, a, a + n);
    var s := Run(p, Init(buf), first);
    SizeOfCounts(p, Run(p, s, second).tail[a + n], s.head[a], a + n, a);
  }

  /** In the other order it wraps below zero: after n more transfers it answers n less than 2^bits. */
  lemma {:induction false} ThirdThreadTailFirst<T>(p: Params, buf: seq<T>, x: T, a: nat, n: nat)
    returns (first: seq<Label<T>>, second: seq<Label<T>>)
    requires p.Ok() && p.cap >= 1 && |buf| == p.cap && 0 < n < Pow2(p.bits)
    ensures Legal(p, Init(buf), first) && Legal(p, Run(p, Init(buf), first), second)
    ensures var s := Run(p, Init(buf), first); var s' := Run(p, s, second);
            && EmptyAfter(p, s, a) && EmptyAfter(p, s', a + n)
            && SizeOf(p, s.tail[a], s'.head[a + n]) == Pow2(p.bits) - n
  {
    first, second := TwoMoments(p, buf, x, a, a + n);
    var s := Run(p, Init(buf), first);
    SizeOfCounts(p, s.tail[a], Run(p, s, second).head[a + n], a, a + n);
  }
}
