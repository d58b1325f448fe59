/** push, pop_normal and pop_vulnerable in their own form. A call is a run of the machine of AbaStack; the
    turns of StackCalls say what the others do between its accesses, no node being pushed twice, and
    the contracts say what its last access did. */
module LockFreeStackClass {
  import opened Common
  import opened AbaStack
  import opened StackCalls

  /** What is left after n turns. */
  function Left(env: seq<Turn>, n: nat): seq<Turn> { if n <= |env| then env[n..] else [] }

  lemma {:induction false} NoneLeft(turns: seq<Turn>, n: nat)
    ensures TurnAt(Left(turns, n), 0) == TurnAt(turns, n)
    ensures Left(Left(turns, n), 1) == Left(turns, n + 1)
  {
  }

  /** One more access: after the others it leads from s1 to s2. */
  lemma {:induction false} Advance(call: Call, n: nat, turn: Turn, s1: State, s2: State)
    requires call.Reaches(n + 1) && turn == TurnAt(call.turns, n) && s1 == Others(call.At(n), call.me, turn.others)
    requires !Ended(s1.threads[call.me]) && Enabled(s1, call.me, Choice(s1, call.me, turn))
    requires s2 == Exec(s1, call.me, Choice(s1, call.me, turn))
    ensures s2 == call.At(n + 1)
  {
    OneMore(Exec(call.before, call.me, call.first), call.me, call.turns, n);
  }

  class LockFreeStack {
    const begin: State
    var mem: State                  // head, the pool's nodes and every thread
    var env: seq<Turn>              // one turn per access
    ghost var trace: seq<Label>     // the run so far

    ghost predicate Valid()
      reads this
    {
      Inv(mem) && Legal(begin, trace) && Run(begin, trace) == mem
    }

    constructor (pool: nat, threads: nat, turns: seq<Turn>)
      ensures Valid() && begin == mem == Init(pool, threads) && env == turns && trace == []
    {
      begin, mem, env, trace := Init(pool, threads), Init(pool, threads), turns, [];
    }

    /** Since then the thread has not changed head. */
    ghost predicate Quiet(since: nat, me: nat)
      reads this
    {
      since <= |trace| && forall j | since <= j < |trace| :: trace[j] != Label(me, CasOk)
    }

    /** The last access was the thread's successful compare-exchange, its first since then. */
    ghost predicate JustSwung(since: nat, me: nat)
      reads this
    {
      && since < |trace| && trace[|trace| - 1] == Label(me, CasOk) && Legal(begin, trace[..|trace| - 1])
      && forall j | since <= j < |trace| - 1 :: trace[j] != Label(me, CasOk)
    }

    /** The state before the last access. */
    ghost function Before(): State
      requires trace != [] && Legal(begin, trace[..|trace| - 1])
      reads this
    {
      Run(begin, trace[..|trace| - 1])
    }

    /** One access of one thread. */
    method Do(t: nat, a: Step)
      requires Valid() && Enabled(mem, t, a) && Keeps(Once, mem, t, a)
      modifies this`mem, this`trace
      ensures Valid() && mem == Exec(old(mem), t, a) && trace == old(trace) + [Label(t, a)]
      ensures trace[..|trace| - 1] == old(trace)
    {
      StepInv(mem, t, a);
      First(mem, t, a, []);
      RunAppend(begin, trace, [Label(t, a)] + []);
      assert [Label(t, a)] + [] == [Label(t, a)];
      mem := Exec(mem, t, a);
      trace := trace + [Label(t, a)];
    }

    /** The call has made n accesses, and this is where they have led. */
    ghost predicate Progressed(call: Call, n: nat)
      reads this
    {
      call.Reaches(n) && mem == call.At(n) && env == Left(call.turns, n)
    }

    /** It has changed head with none of them. */
    ghost predicate During(call: Call, n: nat, since: nat)
      reads this
    {
      && Progressed(call, n) && Quiet(since, call.me)
      && call.before.returned <= mem.returned && |mem.next| == |call.before.next|
    }

    /** The others have had their turn, and the call's access is due. */
    ghost predicate Due(call: Call, n: nat, turn: Turn)
      reads this
    {
      && call.Reaches(n + 1) && turn == TurnAt(call.turns, n)
      && mem == Others(call.At(n), call.me, turn.others) && env == Left(call.turns, n + 1)
    }

    /** The other threads run their next batch; a step that is not possible is skipped. */
    method Interfere(me: nat, ghost call: Call, ghost n: nat, ghost since: nat) returns (turn: Turn)
      requires Valid() && call.me == me && During(call, n, since) && !Ended(mem.threads[me])
      modifies this`mem, this`trace, this`env
      ensures Valid() && Due(call, n, turn) && mem.threads[me] == old(mem.threads[me])
      ensures Quiet(since, me) && call.before.returned <= mem.returned && |mem.next| == |call.before.next|
      ensures if old(env) == [] then env == [] && mem == old(mem) && turn == Nothing() else |env| < old(|env|)
    {
      NoneLeft(call.turns, n);
      turn := TurnAt(env, 0);
      RunBatch(me, turn.others, since);
      env := Left(env, 1);
    }

    method RunBatch(me: nat, batch: seq<Label>, ghost since: nat)
      requires Valid() && me < |mem.threads| && Quiet(since, me)
      modifies this`mem, this`trace
      ensures Valid() && Undone(old(mem), me, since) && mem == Others(old(mem), me, batch)
    {
      var i := 0;
      assert batch[0..] == batch;
      while i < |batch|
        invariant 0 <= i <= |batch|
        invariant Valid() && Undone(old(mem), me, since)
        invariant Others(old(mem), me, batch) == Others(mem, me, batch[i..])
      {
        assert batch[i..][0] == batch[i] && batch[i..][1..] == batch[i + 1..];
        LetStep(me, batch[i], old(mem), since);
        i := i + 1;
      }
    }

    /** Since s0 this thread has done nothing, and since `since` it has not changed head. */
    ghost predicate Undone(s0: State, me: nat, since: nat)
      reads this
    {
      && me < |s0.threads| == |mem.threads| && mem.threads[me] == s0.threads[me] && Quiet(since, me)
      && s0.returned <= mem.returned && |mem.next| == |s0.next|
    }

    method LetStep(me: nat, l: Label, ghost s0: State, ghost since: nat)
      requires Valid() && Undone(s0, me, since)
      modifies this`mem, this`trace
      ensures Valid() && Undone(s0, me, since)
      ensures mem == old(if Happens(mem, me, l) then Exec(mem, l.thread, l.step) else mem)
    {
      if Happens(mem, me, l) {
        OthersStep(mem, me, l);
        Do(l.thread, l.step);
      }
    }

    /** Returns whatever the others do. Its last access puts the node on top, with its value; no
        access before that changes head. */
    method Push(me: nat, node: nat, value: int) returns (ghost n: nat)
      requires Valid() && me < |mem.threads| && mem.threads[me].Idle?
      requires node < |mem.next| && node !in mem.pusher
      modifies this`mem, this`trace, this`env
      ensures Valid() && me < |mem.threads| && mem.threads[me].Idle?
      ensures JustSwung(|old(trace)|, me) && mem.stack == [Entry(node, value)] + Before().stack
      // Its accesses and the others' steps between them are those that the turns determine.
      ensures Answered(Call(old(mem), me, BeginPush(node, value), old(env)), n)
      ensures Undisturbed(old(env)) ==> mem.stack == [Entry(node, value)] + old(mem.stack)
    {
      ghost var call, since := Call(mem, me, BeginPush(node, value), env), |trace|;
      Prepare(me, node, value, call);
      n := 3;
      while true
        invariant Valid() && During(call, n, since) && mem.threads[me] == PushExpect(node, value) && node < |mem.next|
        decreases |env|, if node < |mem.next| && mem.next[node] == mem.head then 0 else 1
      {
        var won := CompareExchange(me, since, call, n);
        n := n + if won then 2 else 3;
        if won { break; }
      }
      if Undisturbed(call.turns) { UndisturbedCall(call, n); }
    }

    ghost predicate Answered(call: Call, n: nat)
      reads this
    {
      call.Returns(n) && mem == call.At(n) && env == Left(call.turns, n)
    }

    /** node->value = value; node->next = ... */
    method Prepare(me: nat, node: nat, value: int, ghost call: Call)
      requires Valid() && me < |mem.threads| && mem.threads[me].Idle?
      requires node < |mem.next| && node !in mem.pusher && call == Call(mem, me, BeginPush(node, value), env)
      modifies this`mem, this`trace, this`env
      ensures Valid() && During(call, 3, |old(trace)|)
      ensures mem.threads[me] == PushExpect(node, value) && node < |mem.next|
    {
      ghost var since := |trace|;
      Do(me, BeginPush(node, value));
      Access(me, since, WriteValue, call, 0);
      Link(me, node, value, since, call);
    }

    /** node->next = head.load(relaxed). */
    method Link(me: nat, node: nat, value: int, ghost since: nat, ghost call: Call)
      requires Valid() && call.me == me && During(call, 1, since)
      requires mem.threads[me] == PushLoad(node, value) && node < |mem.next|
      modifies this`mem, this`trace, this`env
      ensures Valid() && During(call, 3, since)
      ensures mem.threads[me] == PushExpect(node, value) && node < |mem.next|
    {
      Access(me, since, LoadHead, call, 1);
      Access(me, since, WriteNext, call, 2);
    }

    /** compare_exchange_weak(node->next, node): it reads what it expects from node->next, and a failing
        one stores there the head that it found. */
    method CompareExchange(me: nat, ghost since: nat, ghost call: Call, ghost n: nat) returns (won: bool)
      requires Valid() && call.me == me && During(call, n, since)
      requires mem.threads[me].PushExpect? && mem.threads[me].node < |mem.next|
      modifies this`mem, this`trace, this`env
      ensures Valid() && me < |mem.threads|
      ensures var e := old(Entry(mem.threads[me].node, mem.threads[me].value));
              if won then
                && Progressed(call, n + 2) && mem.threads[me].Idle?
                && JustSwung(since, me) && mem.stack == [e] + Before().stack
              else During(call, n + 3, since) && mem.threads[me] == PushExpect(e.node, e.value) && e.node < |mem.next|
      ensures !won ==>
                if old(env) == [] then env == [] && old(mem.next[mem.threads[me].node] != mem.head)
                                       && mem.next[mem.threads[me].node] == mem.head
                else |env| < old(|env|)
    {
      Access(me, since, ReadNext, call, n);
      won := Swing(me, since, call, n + 1);
      if !won { Access(me, since, WriteNext, call, n + 2); }
    }

    /** The compare-exchange proper. */
    method Swing(me: nat, ghost since: nat, ghost call: Call, ghost n: nat) returns (won: bool)
      requires Valid() && call.me == me && During(call, n, since) && mem.threads[me].PushCas?
      modifies this`mem, this`trace, this`env
      ensures Valid() && me < |mem.threads|
      ensures var pc := old(mem.threads[me]);
              if won then
                && Progressed(call, n + 1) && mem.threads[me].Idle?
                && JustSwung(since, me) && mem.stack == [Entry(pc.node, pc.value)] + Before().stack
              else
                && During(call, n + 1, since) && mem.threads[me] == PushNext(pc.node, pc.value, mem.head)
                && pc.node < |mem.next|
      ensures if old(env) != [] then |env| < old(|env|)
              else
                && env == [] && mem.next == old(mem.next)
                && (!won ==> mem.head == old(mem.head) != old(mem.threads[me].expected))
    {
      var turn := Interfere(me, call, n, since);
      ghost var s := mem;
      PoolKept(me);
      won := mem.head == mem.threads[me].expected && !turn.spurious;
      Do(me, if won then CasOk else CasFail);
      Advance(call, n, turn, s, mem);
    }

    /** A push's access that is not its compare-exchange, with the others' doings before it. */
    method Access(me: nat, ghost since: nat, a: Step, ghost call: Call, ghost n: nat)
      requires Valid() && call.me == me && During(call, n, since)
      requires InPush(mem.threads[me]) && mem.threads[me].node < |mem.next|
      requires var pc := mem.threads[me];
               match a
               case WriteValue => pc.PushValue?
               case LoadHead => pc.PushLoad?
               case WriteNext => pc.PushNext?
               case ReadNext => pc.PushExpect?
               case _ => false
      modifies this`mem, this`trace, this`env
      ensures Valid() && During(call, n + 1, since)
      ensures var pc := old(mem.threads[me]);
              && pc.node < |mem.next|
              && match a
                 case WriteValue => mem.threads[me] == PushLoad(pc.node, pc.value)
                 case LoadHead => mem.threads[me] == PushNext(pc.node, pc.value, mem.head)
                 case WriteNext => mem.threads[me] == PushExpect(pc.node, pc.value) && mem.next[pc.node] == pc.link
                 case ReadNext => mem.threads[me] == PushCas(pc.node, pc.value, mem.next[pc.node])
                 case _ => false
      ensures if old(env) != [] then |env| < old(|env|)
              else env == [] && mem.head == old(mem.head) && (a.ReadNext? ==> mem.next == old(mem.next))
    {
      var turn := Interfere(me, call, n, since);
      ghost var s := mem;
      PoolKept(me);
      Do(me, a);
      Advance(call, n, turn, s, mem);
    }

    /** What the thread's program counter names lies in the pool. */
    lemma {:induction false} PoolKept(me: nat)
      requires Valid() && me < |mem.threads|
      ensures |mem.next| == |mem.value|
      ensures InPush(mem.threads[me]) ==> mem.threads[me].node < |mem.next|
      ensures mem.threads[me].PopNext? || mem.threads[me].PopCas? ==> mem.threads[me].top < |mem.next|
    {
      assert ThreadInv(mem, me);
      if mem.threads[me].PopNext? || mem.threads[me].PopCas? { PoolBound(mem, mem.threads[me].top); }
    }

    /** The last access took this node from the top of the stack, with its value, and it is the
        thread's only change of head since then. */
    ghost predicate JustTook(since: nat, me: nat, node: nat)
      reads this
    {
      && JustSwung(since, me) && node < |mem.value|
      && var e := Entry(node, mem.value[node]);
         Before().stack == [e] + mem.stack && mem.returned == Before().returned + [e]
    }

    /** Its last access takes the top, a node not returned before, or finds the stack empty; no
        access before that changes head. */
    method PopNormal(me: nat) returns (got: Option<nat>, ghost n: nat)
      requires Valid() && me < |mem.threads| && mem.threads[me].Idle?
      modifies this`mem, this`trace, this`env
      ensures Valid() && me < |mem.threads| && mem.threads[me] == Idle(got)
      ensures got.Some? ==> JustTook(|old(trace)|, me, got.value) && got.value !in Nodes(old(mem.returned))
      ensures got.None? ==> mem.stack == [] && Quiet(|old(trace)|, me)
      ensures Answered(Call(old(mem), me, BeginPop(false), old(env)), n)
      ensures Undisturbed(old(env)) ==> got == if old(mem.stack) == [] then None else Some(old(mem.stack)[0].node)
    {
      ghost var call, since := Call(mem, me, BeginPop(false), env), |trace|;
      Begin(me, false, since, call);
      got, n := None, 1;
      while mem.threads[me].PopNext?
        invariant Valid() && During(call, n, since) && got == None
        invariant if mem.threads[me].PopNext? then !mem.threads[me].vulnerable
                  else mem.threads[me] == Idle(None) && mem.stack == []
        decreases |env|, if mem.threads[me].PopNext? && mem.head == Some(mem.threads[me].top) then 0 else 1,
          mem.threads[me].PopNext?
      {
        got := ReadAndTry(me, since, call, n);
        n := n + 2;
        if got.Some? { break; }
      }
      if Undisturbed(call.turns) { UndisturbedCall(call, n); }
    }

    /** compare_exchange_weak(old, old->next), or its strong form after the sleep. */
    method ReadAndTry(me: nat, ghost since: nat, ghost call: Call, ghost n: nat) returns (got: Option<nat>)
      requires Valid() && call.me == me && During(call, n, since)
      requires mem.threads[me].PopNext?
      modifies this`mem, this`trace, this`env
      ensures Valid() && me < |mem.threads| && Progressed(call, n + 2)
      ensures got.Some? ==>
                && mem.threads[me] == Idle(got)
                && JustTook(since, me, got.value) && got.value !in Nodes(call.before.returned)
      ensures got.None? ==>
                && During(call, n + 2, since)
                && mem.threads[me] == (if old(mem.threads[me].vulnerable) then Idle(None) else Loaded(false, mem.head))
                && (mem.head == None ==> mem.stack == [])
      ensures if old(env) != [] then |env| < old(|env|)
              else env == [] && (got.None? ==> old(mem.head != Some(mem.threads[me].top)))
    {
      ReadNextOf(me, since, call, n);
      got := TryTop(me, since, call, n + 1);
    }

    /** On an empty stack it dereferences null. Otherwise, as long as no node is pushed twice, it is a
        pop as well, which gives up when head has changed while it slept. */
    method PopVulnerable(me: nat) returns (got: Option<nat>, ghost n: nat)
      requires Valid() && me < |mem.threads| && mem.threads[me].Idle?
      modifies this`mem, this`trace, this`env
      ensures Valid() && me < |mem.threads|
      ensures mem.threads[me] == (if mem.threads[me].NullDereference? then NullDereference else Idle(got))
      ensures mem.threads[me].NullDereference? ==> got.None? && mem.stack == []
      ensures got.Some? ==> JustTook(|old(trace)|, me, got.value) && got.value !in Nodes(old(mem.returned))
      ensures got.None? ==> Quiet(|old(trace)|, me)
      ensures Answered(Call(old(mem), me, BeginPop(true), old(env)), n)
    {
      ghost var call, since := Call(mem, me, BeginPop(true), env), |trace|;
      Begin(me, true, since, call);
      got, n := None, 1;
      if mem.threads[me].PopNext? {
        got := ReadAndTry(me, since, call, n);
        n := 3;
      }
    }

    /** The compare-exchange: the top, or nothing; a weak one that fails has read head again. */
    method TryTop(me: nat, ghost since: nat, ghost call: Call, ghost n: nat) returns (got: Option<nat>)
      requires Valid() && call.me == me && During(call, n, since) && mem.threads[me].PopCas?
      modifies this`mem, this`trace, this`env
      ensures Valid() && me < |mem.threads| && Progressed(call, n + 1)
      ensures got.Some? ==>
                && mem.threads[me] == Idle(got)
                && JustTook(since, me, got.value) && got.value !in Nodes(call.before.returned)
      ensures got.None? ==>
                && During(call, n + 1, since)
                && mem.threads[me] == (if old(mem.threads[me].vulnerable) then Idle(None) else Loaded(false, mem.head))
                && (mem.head == None ==> mem.stack == [])
      ensures if old(env) != [] then |env| < old(|env|)
              else env == [] && (got.None? ==> mem.head == old(mem.head) != Some(old(mem.threads[me].top)))
    {
      var turn := Interfere(me, call, n, since);
      ghost var s := mem;
      var pc := mem.threads[me];
      PoolKept(me);
      if mem.head == Some(pc.top) && (pc.vulnerable || !turn.spurious) {
        TakeTop(me, pc.top, since, call.before.returned);
        got := Some(pc.top);
      } else {
        Do(me, CasFail);
        HeadNull();
        got := None;
      }
      Advance(call, n, turn, s, mem);
    }

    /** The successful compare-exchange. */
    method TakeTop(me: nat, top: nat, ghost since: nat, ghost before: seq<Entry>)
      requires Valid() && me < |mem.threads| && mem.threads[me].PopCas? && mem.threads[me].top == top
      requires mem.head == Some(top) && before <= mem.returned && Quiet(since, me)
      modifies this`mem, this`trace
      ensures Valid() && me < |mem.threads| && mem.threads[me] == Idle(Some(top))
      ensures old(Enabled(mem, me, CasOk)) && mem == old(Exec(mem, me, CasOk))
      ensures JustTook(since, me, top) && top !in Nodes(before)
    {
      PoolKept(me);
      TopIsNew(me, before);
      PopFinds(mem, me);
      Do(me, CasOk);
    }

    /** top->next. */
    method ReadNextOf(me: nat, ghost since: nat, ghost call: Call, ghost n: nat)
      requires Valid() && call.me == me && During(call, n, since) && mem.threads[me].PopNext?
      modifies this`mem, this`trace, this`env
      ensures Valid() && During(call, n + 1, since)
      ensures mem.threads[me].PopCas? && mem.threads[me].top == old(mem.threads[me].top)
      ensures mem.threads[me].vulnerable == old(mem.threads[me].vulnerable)
      ensures if old(env) == [] then env == [] && mem.head == old(mem.head) else |env| < old(|env|)
    {
      var turn := Interfere(me, call, n, since);
      ghost var s := mem;
      PoolKept(me);
      Do(me, ReadNext);
      Advance(call, n, turn, s, mem);
    }

    /** The call's first load. */
    method Begin(me: nat, vuln: bool, ghost since: nat, ghost call: Call)
      requires Valid() && me < |mem.threads| && mem.threads[me].Idle? && since == |trace|
      requires call == Call(mem, me, BeginPop(vuln), env)
      modifies this`mem, this`trace, this`env
      ensures Valid() && During(call, 1, since) && mem.threads[me] == Loaded(vuln, mem.head)
      ensures mem.head == None ==> mem.stack == []
    {
      Do(me, BeginPop(vuln));
      LoadTop(me, since, call, 0);
    }

    /** old = head.load(acquire). */
    method LoadTop(me: nat, ghost since: nat, ghost call: Call, ghost n: nat)
      requires Valid() && call.me == me && During(call, n, since) && mem.threads[me].PopLoad?
      modifies this`mem, this`trace, this`env
      ensures Valid() && During(call, n + 1, since)
      ensures mem.threads[me] == Loaded(old(mem.threads[me].vulnerable), mem.head)
      ensures mem.head == None ==> mem.stack == []
    {
      var turn := Interfere(me, call, n, since);
      ghost var s := mem;
      Do(me, LoadHead);
      HeadNull();
      Advance(call, n, turn, s, mem);
    }

    lemma {:induction false} HeadNull()
      requires Valid()
      ensures mem.head == None ==> mem.stack == []
    {
      if mem.head == None { assert Nodes(mem.stack) == []; }
    }

    lemma {:induction false} TopIsNew(me: nat, before: seq<Entry>)
      requires Valid() && me < |mem.threads| && mem.threads[me].PopCas? && mem.head == Some(mem.threads[me].top)
      requires before <= mem.returned && mem.threads[me].top < |mem.next|
      ensures mem.threads[me].top !in Nodes(before)
    {
      var n := mem.threads[me].top;
      PopFinds(mem, me);
      var s' := Exec(mem, me, CasOk);
      DistinctTail(n, Nodes(s'.stack) + Nodes(mem.returned)) by {
        assert Published(mem) == [n] + (Nodes(s'.stack) + Nodes(mem.returned));
      }
      assert forall i | 0 <= i < |before| :: Nodes(before)[i] == Nodes(mem.returned)[i];
    }
  }
}
