/** The shipped class in its own form: one array, four index fields of fixed width. Calls are
    sequential here, which is how each thread sees its own side; the interleavings are the
    business of SpscMachine. */
module SpscQueueClass {
  import opened Bits

  /** The cells hold the items, from position `from` on, around the ring. */
  ghost predicate Ring<T>(cells: seq<T>, from: nat, items: seq<T>) {
    |items| <= |cells| && forall i | from <= i < from + |items| :: cells[i % |cells|] == items[i - from]
  }

  lemma {:induction false} RingPush<T>(cells: seq<T>, from: nat, items: seq<T>, x: T)
    requires Ring(cells, from, items) && |items| < |cells|
    ensures Ring(cells[(from + |items|) % |cells| := x], from, items + [x])
  {
    LanesApart(from, from + |items|, |cells|);
  }

  lemma {:induction false} RingPop<T>(cells: seq<T>, from: nat, items: seq<T>)
    requires Ring(cells, from, items) && items != []
    ensures cells[from % |cells|] == items[0] && Ring(cells, from + 1, items[1..])
  {
  }

  class SpscQueue<T(0)> {
    const Capacity: nat
    const bits: nat           // width of size_t
    const buf_: array<T>
    var head_: nat
    var tail_cache_: nat
    var tail_: nat
    var head_cache_: nat

    // The unbounded counts behind the four fields, and what the queue holds.
    ghost var popped: nat
    ghost var pushed: nat
    ghost var knownPushed: nat
    ghost var knownPopped: nat
    ghost var Contents: seq<T>

    ghost predicate Valid()
      reads this, buf_
    {
      && Capacity < Pow2(bits) && PassesAssert(Capacity, bits) && buf_.Length == Capacity
      && head_ == Wrap(popped, bits) && tail_ == Wrap(pushed, bits)
      && head_cache_ == Wrap(knownPopped, bits) && tail_cache_ == Wrap(knownPushed, bits)
      && knownPopped <= popped <= knownPushed <= pushed <= knownPopped + Capacity
      && |Contents| == pushed - popped
      && Ring(buf_[..], popped, Contents)
    }

    constructor (capacity: nat, width: nat)
      requires capacity < Pow2(width) && PassesAssert(capacity, width)
      ensures Valid() && Contents == [] && Capacity == capacity && bits == width && fresh(buf_)
    {
      Capacity, bits := capacity, width;
      buf_ := new T[capacity];
      head_, tail_cache_, tail_, head_cache_ := 0, 0, 0, 0;
      popped, pushed, knownPushed, knownPopped := 0, 0, 0, 0;
      Contents := [];
      WrapSmall(0, width);
    }

    method TryPush(item: T) returns (ok: bool)
      requires Valid()
      modifies this, buf_
      ensures Valid()
      ensures ok == (|old(Contents)| < Capacity)
      ensures Contents == if ok then old(Contents) + [item] else old(Contents)
    {
      var t := tail_;
      WrapSub(pushed, knownPopped, bits);
      if Wrap(t - head_cache_, bits) == Capacity {
        head_cache_ := head_;
        knownPopped := popped;
        WrapSub(pushed, knownPopped, bits);
        if Wrap(t - head_cache_, bits) == Capacity {
          return false;
        }
      }
      SlotSurvivesWrap(pushed, Capacity, bits);
      RingPush(buf_[..], popped, Contents, item);
      buf_[And(t, Wrap(Capacity - 1, bits))] := item;
      WrapSucc(pushed, bits);
      tail_ := Wrap(t + 1, bits);
      pushed := pushed + 1;
      Contents := Contents + [item];
      return true;
    }

    /** out: the caller's variable, which a failed call leaves alone. */
    method TryPop(out: T) returns (ok: bool, out': T)
      requires Valid()
      modifies this
      ensures Valid()
      ensures ok == (old(Contents) != [])
      ensures ok ==> old(Contents) == [out'] + Contents
      ensures !ok ==> Contents == old(Contents) && out' == out
    {
      out' := out;
      var h := head_;
      WrapEq(knownPushed, popped, bits);
      if h == tail_cache_ {
        tail_cache_ := tail_;
        knownPushed := pushed;
        WrapEq(knownPushed, popped, bits);
        if h == tail_cache_ {
          return false, out';
        }
      }
      SlotSurvivesWrap(popped, Capacity, bits);
      RingPop(buf_[..], popped, Contents);
      out' := buf_[And(h, Wrap(Capacity - 1, bits))];
      WrapSucc(popped, bits);
      head_ := Wrap(h + 1, bits);
      popped := popped + 1;
      Contents := Contents[1..];
      return true, out';
    }

    method Size() returns (n: nat)
      requires Valid()
      ensures n == |Contents|
    {
      WrapSub(pushed, popped, bits);
      n := Wrap(tail_ - head_, bits);
    }

    method Empty() returns (b: bool)
      requires Valid()
      ensures b <==> Contents == []
    {
      WrapEq(pushed, popped, bits);
      b := head_ == tail_;
    }
  }

  /** The size test of the benchmark: a queue of any admitted capacity takes exactly that many
      items and refuses the next one; then it returns them in order. */
  method FillAndDrain(capacity: nat, width: nat, items: seq<int>) returns (out: seq<int>)
    requires capacity < Pow2(width) && PassesAssert(capacity, width) && |items| == capacity + 1
    ensures out == items[..capacity]
  {
    var q := new SpscQueue<int>(capacity, width);
    var pushes := 0;
    var ok := true;
    while ok && pushes <= capacity
      modifies q, q.buf_
      invariant q.Valid() && q.Capacity == capacity && fresh(q.buf_) && fresh(q)
      invariant 0 <= pushes <= capacity && q.Contents == items[..pushes]
      invariant !ok ==> pushes == capacity
      decreases capacity - pushes, ok
    {
      ok := q.TryPush(items[pushes]);
      if ok { pushes := pushes + 1; }
    }
    out := [];
    var got, x := true, 0;
    while got
      modifies q
      invariant q.Valid() && out + q.Contents == items[..capacity]
      invariant !got ==> q.Contents == []
      decreases |q.Contents|, got
    {
      got, x := q.TryPop(x);
      if got { out := out + [x]; }
    }
  }
}
