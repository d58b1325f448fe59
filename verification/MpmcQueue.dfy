/** try_push and try_pop in their own form, loops and all. Each access is a step of MpmcMachine; the turns
    of MpmcCalls say what the other threads do before it, what it reads, and whether a weak
    compare-exchange fails for no reason. After the last turn nobody interferes and loads read the
    newest values. */
module MpmcQueueClass {
  import opened MpmcMachine
  import opened MpmcInvariant
  import opened MpmcSteps
  import opened MpmcTheorems
  import opened MpmcProgress
  import opened MpmcCalls

  /** How many steps the batches hold. */
  function Moves<T>(env: seq<Turn<T>>): nat {
    if env == [] then 0 else |env[0].others| + Moves(env[1..])
  }

  /** What is left after n turns. */
  function Left<T>(env: seq<Turn<T>>, n: nat): seq<Turn<T>> { if n <= |env| then env[n..] else [] }

  /** One more access: after the others it leads from s1 to s2. */
  lemma {:induction false} Advance<T>(p: Params, call: Call<T>, n: nat, turn: Turn<T>, s1: State<T>, s2: State<T>)
    requires call.Reaches(p, n + 1) && turn == TurnAt(call.turns, n)
    requires s1 == Others(p, call.At(p, n), call.me, turn.others)
    requires Steady(p, s1, call.me) && Enabled(p, s1, call.me, Choice(p, s1, call.me, turn))
    requires s2 == Exec(p, s1, call.me, Choice(p, s1, call.me, turn))
    ensures s2 == call.At(p, n + 1)
  {
    OneMore(p, Exec(p, call.before, call.me, call.first), call.me, call.turns, n);
  }

  lemma {:induction false} NoneLeft<T>(turns: seq<Turn<T>>, n: nat)
    ensures TurnAt(Left(turns, n), 0) == TurnAt(turns, n)
    ensures Left(Left(turns, n), 1) == Left(turns, n + 1)
  {
  }

  /** From s to s' I have claimed nothing, and what was claimed stays claimed by the same threads. */
  ghost predicate NoClaim<T>(s: State<T>, s': State<T>, me: nat) {
    && |s'.threads| == |s.threads| && me < |s.threads|
    && s.pushes <= s'.pushes && |s.pops| <= |s'.pops|
    && (forall k | |s.pushes| <= k < |s'.pushes| :: s'.pushes[k].tid != me)
    && (forall k | |s.pops| <= k < |s'.pops| :: s'.pops[k].tid != me)
    && (forall k | 0 <= k < |s.pops| :: s'.pops[k].tid == s.pops[k].tid)
  }

  lemma {:induction false} OthersStep<T>(p: Params, s: State<T>, t: nat, a: Step<T>, me: nat)
    requires Inv(p, s) && Enabled(p, s, t, a) && t != me && me < |s.threads|
    ensures NoClaim(s, Exec(p, s, t, a), me) && Exec(p, s, t, a).threads[me] == s.threads[me]
  {
    assert ThreadInv(p, s, t);
  }

  lemma {:induction false} OwnStep<T>(p: Params, s: State<T>, me: nat, a: Step<T>)
    requires Inv(p, s) && Enabled(p, s, me, a) && !a.CasOk?
    ensures NoClaim(s, Exec(p, s, me, a), me)
  {
    assert ThreadInv(p, s, me);
  }

  /** Winning the compare-exchange claims the position that was expected. */
  lemma {:induction false} OwnClaim<T>(p: Params, s: State<T>, me: nat)
    requires Inv(p, s) && Enabled(p, s, me, CasOk)
    ensures var s' := Exec(p, s, me, CasOk); var pc := s.threads[me].pc;
            if pc.PushCas? then OnePush(s, s', me, pc.pos, pc.item) && s'.threads[me].pc == PushWrite(pc.item, pc.pos)
            else OnePop(s, s', me, pc.pos) && s'.threads[me].pc == PopRead(pc.pos)
    ensures ClaimsKept(s, Exec(p, s, me, CasOk))
  {
    assert ThreadInv(p, s, me);
  }

  /** Loading the sequence: what it leads to, and that the newest one brings the call closer to its
      end. */
  lemma {:induction false} LoadAny<T>(p: Params, s: State<T>, me: nat, turn: Turn<T>)
    requires Inv(p, s) && me < |s.threads| && (s.threads[me].pc.PushSeq? || s.threads[me].pc.PopSeq?)
    ensures Steady(p, s, me)
    ensures var pc := s.threads[me].pc; var c := p.Slot(pc.pos); var a := Choice(p, s, me, turn);
            && Enabled(p, s, me, a) && Exec(p, s, me, a).enq == s.enq
            && Exec(p, s, me, a).threads[me].pc
               == Branch(pc, s.seqs[c][a.at].val - (if pc.PushSeq? then pc.pos else pc.pos + 1))
            && NoClaim(s, Exec(p, s, me, a), me)
            && (turn.at.None? ==> RankOf(Exec(p, s, me, a), me) < RankOf(s, me))
  {
    ChoiceEnabled(p, s, me, turn);
    var a := Choice(p, s, me, turn);
    LoadSeqBranch(p, s, me, a.at);
    if turn.at.None? { StepLowersRank(p, s, me, a); }
    OwnStep(p, s, me, a);
  }

  /** Reading the position, first or by a failing compare-exchange. */
  lemma {:induction false} RefreshAny<T>(p: Params, s: State<T>, me: nat, turn: Turn<T>)
    requires Inv(p, s) && me < |s.threads|
    requires var pc := s.threads[me].pc;
             || pc.PushPos? || pc.PopPos?
             || (pc.PushCas? && (turn.spurious || pc.pos != E(s))) || (pc.PopCas? && (turn.spurious || pc.pos != D(s)))
    ensures Steady(p, s, me)
    ensures var pc, hist := s.threads[me].pc, Positions(s, me); var a := Choice(p, s, me, turn);
            && (a.LoadPos? || a.CasFail?) && Enabled(p, s, me, a) && Exec(p, s, me, a).enq == s.enq
            && Exec(p, s, me, a).threads[me].pc
               == (if InPush(pc) then PushSeq(pc.item, hist[a.at]) else PopSeq(hist[a.at]))
            && NoClaim(s, Exec(p, s, me, a), me)
            && (turn.at.None? && !turn.spurious ==> RankOf(Exec(p, s, me, a), me) < RankOf(s, me))
  {
    ChoiceEnabled(p, s, me, turn);
    CasExact(p, s, me, turn);
    assert ThreadInv(p, s, me);
    var a := Choice(p, s, me, turn);
    if turn.at.None? && !turn.spurious { StepLowersRank(p, s, me, a); }
    OwnStep(p, s, me, a);
  }

  /** The owner's access and store: possible, and of no effect on the claims. */
  lemma {:induction false} OwnFinish<T>(p: Params, s: State<T>, me: nat)
    requires Inv(p, s) && me < |s.threads| && Owner(s.threads[me].pc)
    ensures var pc := s.threads[me].pc;
            var a := if pc.PushWrite? || pc.PopRead? then Touch else Publish;
            && Enabled(p, s, me, a) && Exec(p, s, me, a).enq == s.enq
            && NoClaim(s, Exec(p, s, me, a), me) && Exec(p, s, me, a).pushes == s.pushes
            && var pc' := Exec(p, s, me, a).threads[me].pc;
               match pc
               case PushWrite(x, pos) => pc' == PushPublish(x, pos)
               case PopRead(pos) => pc'.PopPublish? && pc'.pos == pos
               case PushPublish(_, _) => pc' == Idle(Pushed)
               case PopPublish(pos, _) => pos < |s.pushes| && pc' == Idle(Popped(s.pushes[pos].item))
               case _ => true
  {
    OwnerSlot(p, s, me);
    assert ThreadInv(p, s, me);
    OwnStep(p, s, me, if s.threads[me].pc.PushWrite? || s.threads[me].pc.PopRead? then Touch else Publish);
  }

  /** Earlier claims stay in place. */
  ghost predicate ClaimsKept<T>(s: State<T>, s': State<T>) {
    && s.pushes <= s'.pushes && |s.pops| <= |s'.pops|
    && (forall j | 0 <= j < |s.pops| :: s'.pops[j].tid == s.pops[j].tid)
  }

  lemma {:induction false} NoClaimTwice<T>(a: State<T>, b: State<T>, c: State<T>, me: nat)
    requires NoClaim(a, b, me) && NoClaim(b, c, me)
    ensures NoClaim(a, c, me)
  {
    forall k | |a.pushes| <= k < |c.pushes|
      ensures c.pushes[k].tid != me
    {
      if k < |b.pushes| { assert b.pushes[k] == c.pushes[k]; }
    }
    forall k | |a.pops| <= k < |c.pops|
      ensures c.pops[k].tid != me
    {
      if k < |b.pops| { assert b.pops[k].tid == c.pops[k].tid; }
    }
  }

  /** From s to s' I have claimed exactly one position, k: with a push of item, or with a pop. */
  ghost predicate OnePush<T>(s: State<T>, s': State<T>, me: nat, k: nat, item: T) {
    && |s'.threads| == |s.threads| && me < |s.threads|
    && |s.pushes| <= k < |s'.pushes| && s'.pushes[k] == PushClaim(me, item) && |s.pops| <= |s'.pops|
    && (forall j | |s.pushes| <= j < |s'.pushes| && j != k :: s'.pushes[j].tid != me)
    && (forall j | |s.pops| <= j < |s'.pops| :: s'.pops[j].tid != me)
  }

  ghost predicate OnePop<T>(s: State<T>, s': State<T>, me: nat, k: nat) {
    && |s'.threads| == |s.threads| && me < |s.threads|
    && |s.pops| <= k < |s'.pops| && s'.pops[k].tid == me && |s.pushes| <= |s'.pushes|
    && (forall j | |s.pops| <= j < |s'.pops| && j != k :: s'.pops[j].tid != me)
    && (forall j | |s.pushes| <= j < |s'.pushes| :: s'.pushes[j].tid != me)
  }

  /** And which one it was does not matter. */
  ghost predicate PushedOne<T>(s: State<T>, s': State<T>, me: nat, item: T) {
    exists k: nat :: OnePush(s, s', me, k, item)
  }

  ghost predicate PoppedOne<T>(s: State<T>, s': State<T>, me: nat, out: T) {
    exists k: nat :: OnePop(s, s', me, k) && k < |s'.pushes| && out == s'.pushes[k].item
  }

  lemma {:induction false} ThenOnePush<T>(a: State<T>, b: State<T>, c: State<T>, me: nat, k: nat, item: T)
    requires (NoClaim(a, b, me) && OnePush(b, c, me, k, item)) || (OnePush(a, b, me, k, item) && NoClaim(b, c, me))
    requires ClaimsKept(a, b) && ClaimsKept(b, c)
    ensures OnePush(a, c, me, k, item)
  {
    forall j | |a.pushes| <= j < |c.pushes| && j != k
      ensures c.pushes[j].tid != me
    {
      if j < |b.pushes| { assert b.pushes[j] == c.pushes[j]; }
    }
    forall j | |a.pops| <= j < |c.pops|
      ensures c.pops[j].tid != me
    {
      if j < |b.pops| { assert c.pops[j].tid == b.pops[j].tid; }
    }
  }

  lemma {:induction false} ThenOnePop<T>(a: State<T>, b: State<T>, c: State<T>, me: nat, k: nat)
    requires (NoClaim(a, b, me) && OnePop(b, c, me, k)) || (OnePop(a, b, me, k) && NoClaim(b, c, me))
    requires ClaimsKept(a, b) && ClaimsKept(b, c)
    ensures OnePop(a, c, me, k)
  {
    forall j | |a.pushes| <= j < |c.pushes|
      ensures c.pushes[j].tid != me
    {
      if j < |b.pushes| { assert b.pushes[j] == c.pushes[j]; }
    }
    forall j | |a.pops| <= j < |c.pops| && j != k
      ensures c.pops[j].tid != me
    {
      if j < |b.pops| { assert c.pops[j].tid == b.pops[j].tid; }
    }
  }

  class MpmcQueue<T> {
    const p: Params
    const begin: State<T>
    var mem: State<T>                  // the queue's memory and every thread
    var env: seq<Turn<T>>              // one turn per access
    ghost var trace: seq<Label<T>>     // the run so far

    /** room: how many more positions may be claimed, besides by the batches, within the signed range. */
    ghost predicate Valid(room: nat)
      reads this
    {
      && Inv(p, mem) && E(mem) + Moves(env) + room + p.cap <= p.Half()
      && Legal(p, begin, trace) && Run(p, begin, trace) == mem
    }

    constructor (q: Params, buf: seq<T>, threads: nat, turns: seq<Turn<T>>, ghost room: nat)
      requires q.Ok() && q.cap >= 2 && |buf| == q.cap && Moves(turns) + room + q.cap <= q.Half()
      ensures Valid(room) && p == q && env == turns && begin == mem == Init(q, buf, threads)
    {
      p, begin, mem, env, trace := q, Init(q, buf, threads), Init(q, buf, threads), turns, [];
      InitInv(q, buf, threads);
    }

    /** One access of one thread. */
    method Do(t: nat, a: Step<T>)
      requires Inv(p, mem) && Legal(p, begin, trace) && Run(p, begin, trace) == mem
      requires Enabled(p, mem, t, a) && E(Exec(p, mem, t, a)) + p.cap <= p.Half()
      modifies this`mem, this`trace
      ensures mem == Exec(p, old(mem), t, a) && Inv(p, mem)
      ensures Legal(p, begin, trace) && Run(p, begin, trace) == mem && trace == old(trace) + [Label(t, a)]
    {
      StepInv(p, mem, t, a);
      assert Legal(p, Exec(p, mem, t, a), [Label(t, a)][1..]);
      RunAppend(p, begin, trace, [Label(t, a)]);
      mem := Exec(p, mem, t, a);
      trace := trace + [Label(t, a)];
    }

    /** The call has made n accesses, and this is where they have led. */
    ghost predicate During(call: Call<T>, n: nat)
      reads this
    {
      call.Reaches(p, n) && mem == call.At(p, n) && env == Left(call.turns, n) && NoClaim(call.before, mem, call.me)
    }

    /** The other threads run the batch of the next turn; a step that is not possible is skipped. */
    method Interfere(me: nat, ghost room: nat) returns (turn: Turn<T>)
      requires Valid(room) && me < |mem.threads|
      modifies this`mem, this`trace, this`env
      ensures turn == TurnAt(old(env), 0) && env == Left(old(env), 1)
      ensures mem == Others(p, old(mem), me, turn.others)
      ensures Valid(room) && NoClaim(old(mem), mem, me) && mem.threads[me] == old(mem.threads[me])
      ensures if old(env) == [] then env == [] && mem == old(mem) && turn == Nothing() else env == old(env)[1..]
    {
      if env == [] { return Nothing(); }
      turn := env[0];
      var batch := turn.others;
      var i := 0;
      assert batch[0..] == batch;
      while i < |batch|
        invariant 0 <= i <= |batch| && Among(old(mem), me, i)
        invariant env == old(env) && Others(p, old(mem), me, batch) == Others(p, mem, me, batch[i..])
      {
        assert batch[i..][0] == batch[i] && batch[i..][1..] == batch[i + 1..];
        LetStep(me, batch[i], old(mem), i);
        i := i + 1;
      }
      env := env[1..];
    }

    /** The others have claimed at most k positions since s0, and this thread has done nothing. */
    ghost predicate Among(s0: State<T>, me: nat, k: nat)
      reads this
    {
      && Inv(p, mem) && E(mem) <= E(s0) + k && Legal(p, begin, trace) && Run(p, begin, trace) == mem
      && NoClaim(s0, mem, me) && mem.threads[me] == s0.threads[me]
    }

    method LetStep(me: nat, l: Label<T>, ghost s0: State<T>, ghost k: nat)
      requires Among(s0, me, k) && E(s0) + k + 1 + p.cap <= p.Half()
      modifies this`mem, this`trace
      ensures Among(s0, me, k + 1)
      ensures mem == old(if l.thread != me && Enabled(p, mem, l.thread, l.step) then Exec(p, mem, l.thread, l.step)
                         else mem)
    {
      if l.thread != me && Enabled(p, mem, l.thread, l.step) {
        OthersStep(p, mem, l.thread, l.step, me);
        Do(l.thread, l.step);
        NoClaimTwice(s0, old(mem), mem, me);
      }
    }

    /** The others have had their turn in the call, and its access is due. */
    ghost predicate Due(call: Call<T>, n: nat, turn: Turn<T>)
      reads this
    {
      && call.Reaches(p, n + 1) && turn == TurnAt(call.turns, n)
      && mem == Others(p, call.At(p, n), call.me, turn.others) && env == Left(call.turns, n + 1)
    }

    method NextTurn(me: nat, ghost room: nat, ghost call: Call<T>, ghost n: nat) returns (turn: Turn<T>)
      requires Valid(room) && call.me == me && Progressed(call, n) && !mem.threads[me].pc.Idle?
      modifies this`mem, this`trace, this`env
      ensures Valid(room) && Due(call, n, turn)
      ensures NoClaim(old(mem), mem, me) && mem.threads[me] == old(mem.threads[me])
      ensures old(NoClaim(call.before, mem, me)) ==> NoClaim(call.before, mem, me)
      ensures if old(env) == [] then env == [] && mem == old(mem) && turn == Nothing() else |env| < old(|env|)
    {
      turn := Interfere(me, room);
      NoneLeft(call.turns, n);
      if old(NoClaim(call.before, mem, me)) { NoClaimTwice(call.before, old(mem), mem, me); }
    }

    /** enqueue_pos_ or dequeue_pos_, read by a load or by a failing compare-exchange. */
    method Refresh(me: nat, turn: Turn<T>, ghost room: nat) returns (pos: nat)
      requires Valid(room) && me < |mem.threads|
      requires var pc := mem.threads[me].pc;
               || pc.PushPos? || pc.PopPos?
               || (pc.PushCas? && (turn.spurious || pc.pos != E(mem)))
               || (pc.PopCas? && (turn.spurious || pc.pos != D(mem)))
      modifies this`mem, this`trace
      ensures Valid(room) && NoClaim(old(mem), mem, me)
      ensures old(Steady(p, mem, me) && Enabled(p, mem, me, Choice(p, mem, me, turn)))
      ensures mem == old(Exec(p, mem, me, Choice(p, mem, me, turn)))
      ensures var pc := old(mem.threads[me].pc);
              mem.threads[me].pc == if InPush(pc) then PushSeq(pc.item, pos) else PopSeq(pos)
      ensures turn == Nothing() ==> RankOf(mem, me) < old(RankOf(mem, me))
    {
      RefreshAny(p, mem, me, turn);
      var pc, hist := mem.threads[me].pc, Positions(mem, me);
      var i := Place(SeenPosition(mem, me), |hist|, turn.at);
      if (pc.PushCas? || pc.PopCas?) && !turn.spurious && hist[i] == pc.pos { i := |hist| - 1; }
      pos := hist[i];
      Do(me, if pc.PushPos? || pc.PopPos? then LoadPos(i) else CasFail(i));
    }

    // In what follows call and n say how far the call has got.

    /** pos = enqueue_pos_.load(relaxed), or dequeue_pos_. */
    method LoadPosition(me: nat, ghost room: nat, ghost call: Call<T>, ghost n: nat) returns (pos: nat)
      requires Valid(room) && call.me == me && During(call, n)
      requires mem.threads[me].pc.PushPos? || mem.threads[me].pc.PopPos?
      modifies this`mem, this`trace, this`env
      ensures Valid(room) && During(call, n + 1)
      ensures mem.threads[me].pc
        == (if old(mem.threads[me].pc).PushPos? then PushSeq(old(mem.threads[me].pc).item, pos) else PopSeq(pos))
      ensures if old(env) == [] then env == [] && RankOf(mem, me) < old(RankOf(mem, me)) else |env| < old(|env|)
    {
      var turn := NextTurn(me, room, call, n);
      ghost var s := mem;
      pos := Refresh(me, turn, room);
      Advance(p, call, n, turn, s, mem);
      NoClaimTwice(call.before, s, mem, me);
    }

    /** sequence = slot.sequence.load(acquire), and dif. */
    method LoadDif(me: nat, turn: Turn<T>, ghost room: nat) returns (dif: int)
      requires Valid(room) && me < |mem.threads| && (mem.threads[me].pc.PushSeq? || mem.threads[me].pc.PopSeq?)
      modifies this`mem, this`trace
      ensures Valid(room) && NoClaim(old(mem), mem, me)
      ensures old(Steady(p, mem, me) && Enabled(p, mem, me, Choice(p, mem, me, turn)))
      ensures mem == old(Exec(p, mem, me, Choice(p, mem, me, turn)))
      ensures turn.at.None? ==> RankOf(mem, me) < old(RankOf(mem, me))
      ensures mem.threads[me].pc == Branch(old(mem.threads[me].pc), dif)
    {
      LoadAny(p, mem, me, turn);
      var pc := mem.threads[me].pc;
      var slot := p.Slot(pc.pos);
      var i := Place(mem.threads[me].seenSeq[slot], |mem.seqs[slot]|, turn.at);
      var sequence := mem.seqs[slot][i].val;
      dif := sequence - (if pc.PushSeq? then pc.pos else pc.pos + 1);
      Do(me, LoadSeq(i));
    }

    method LoadSequence(me: nat, pos: nat, ghost room: nat, ghost call: Call<T>, ghost n: nat) returns (dif: int)
      requires Valid(room) && call.me == me && During(call, n)
      requires (mem.threads[me].pc.PushSeq? || mem.threads[me].pc.PopSeq?) && mem.threads[me].pc.pos == pos
      modifies this`mem, this`trace, this`env
      ensures Valid(room) && During(call, n + 1)
      ensures mem.threads[me].pc == Branch(old(mem.threads[me].pc), dif)
      ensures if old(env) == [] then env == [] && RankOf(mem, me) < old(RankOf(mem, me)) else |env| < old(|env|)
    {
      var turn := NextTurn(me, room, call, n);
      ghost var s := mem;
      dif := LoadDif(me, turn, room);
      Advance(p, call, n, turn, s, mem);
      NoClaimTwice(call.before, s, mem, me);
    }

    /** The compare-exchange that succeeds. */
    method Win(me: nat, turn: Turn<T>, ghost room: nat)
      requires me < |mem.threads| && Valid(if mem.threads[me].pc.PushCas? then room + 1 else room)
      requires var pc := mem.threads[me].pc; (pc.PushCas? && pc.pos == E(mem)) || (pc.PopCas? && pc.pos == D(mem))
      requires !turn.spurious
      modifies this`mem, this`trace
      ensures Valid(room) && ClaimsKept(old(mem), mem) && me < |mem.threads|
      ensures old(Steady(p, mem, me) && Enabled(p, mem, me, Choice(p, mem, me, turn)))
      ensures mem == old(Exec(p, mem, me, Choice(p, mem, me, turn)))
      ensures var pc := old(mem.threads[me].pc);
              if pc.PushCas? then OnePush(old(mem), mem, me, pc.pos, pc.item)
                && mem.threads[me].pc == PushWrite(pc.item, pc.pos)
              else OnePop(old(mem), mem, me, pc.pos) && mem.threads[me].pc == PopRead(pc.pos)
    {
      ChoiceEnabled(p, mem, me, turn);
      CasExact(p, mem, me, turn);
      OwnClaim(p, mem, me);
      Do(me, CasOk);
    }

    /** compare_exchange_weak(pos, pos + 1): on failure, for cause or not, pos is refreshed. */
    method ClaimPush(me: nat, item: T, pos: nat, ghost room: nat, ghost call: Call<T>, ghost n: nat)
      returns (won: bool, pos': nat)
      requires Valid(room + 1) && call.me == me && During(call, n) && mem.threads[me].pc == PushCas(item, pos)
      modifies this`mem, this`trace, this`env
      ensures me < |mem.threads| && ClaimsKept(call.before, mem) && Progressed(call, n + 1)
      ensures if won then
                && Valid(room) && mem.threads[me].pc == PushWrite(item, pos)
                && OnePush(call.before, mem, me, pos, item)
              else Valid(room + 1) && mem.threads[me].pc == PushSeq(item, pos') && NoClaim(call.before, mem, me)
      ensures !won ==> if old(env) == [] then env == [] && RankOf(mem, me) < old(RankOf(mem, me))
        else |env| < old(|env|)
    {
      var turn := NextTurn(me, room + 1, call, n);
      ghost var s := mem;
      won, pos' := mem.enq[|mem.enq| - 1] == pos && !turn.spurious, pos;
      if won {
        Win(me, turn, room);
        ThenOnePush(call.before, s, mem, me, pos, item);
      } else {
        pos' := Refresh(me, turn, room + 1);
        NoClaimTwice(call.before, s, mem, me);
      }
      Advance(p, call, n, turn, s, mem);
    }

    method ClaimPop(me: nat, pos: nat, ghost room: nat, ghost call: Call<T>, ghost n: nat)
      returns (won: bool, pos': nat)
      requires Valid(room) && call.me == me && During(call, n) && mem.threads[me].pc == PopCas(pos)
      modifies this`mem, this`trace, this`env
      ensures Valid(room) && me < |mem.threads| && ClaimsKept(call.before, mem) && Progressed(call, n + 1)
      ensures if won then mem.threads[me].pc == PopRead(pos) && OnePop(call.before, mem, me, pos)
              else mem.threads[me].pc == PopSeq(pos') && NoClaim(call.before, mem, me)
      ensures !won ==> if old(env) == [] then env == [] && RankOf(mem, me) < old(RankOf(mem, me))
        else |env| < old(|env|)
    {
      var turn := NextTurn(me, room, call, n);
      ghost var s := mem;
      won, pos' := mem.deq[|mem.deq| - 1] == pos && !turn.spurious, pos;
      if won {
        Win(me, turn, room);
        ThenOnePop(call.before, s, mem, me, pos);
      } else {
        pos' := Refresh(me, turn, room);
        NoClaimTwice(call.before, s, mem, me);
      }
      Advance(p, call, n, turn, s, mem);
    }

    /** During, whether or not there has been a claim. */
    ghost predicate Progressed(call: Call<T>, n: nat)
      reads this
    {
      call.Reaches(p, n) && mem == call.At(p, n) && env == Left(call.turns, n)
    }

    /** slot.value = item, or out = slot.value, for a won position; or slot.sequence.store(release). */
    method OwnAccess(me: nat, ghost room: nat, ghost call: Call<T>, ghost n: nat)
      requires Valid(room) && call.me == me && Progressed(call, n) && Owner(mem.threads[me].pc)
      modifies this`mem, this`trace, this`env
      ensures Valid(room) && NoClaim(old(mem), mem, me) && Progressed(call, n + 1)
      ensures var pc' := mem.threads[me].pc;
              match old(mem.threads[me].pc)
              case PushWrite(x, pos) => pc' == PushPublish(x, pos)
              case PopRead(pos) => pc'.PopPublish? && pc'.pos == pos
              case PushPublish(_, _) => pc' == Idle(Pushed)
              case PopPublish(pos, _) => pos < |mem.pushes| && pc' == Idle(Popped(mem.pushes[pos].item))
              case _ => false
    {
      var turn := NextTurn(me, room, call, n);
      ghost var s := mem;
      OwnStore(me, turn, room);
      Advance(p, call, n, turn, s, mem);
      NoClaimTwice(old(mem), s, mem, me);
    }

    method OwnStore(me: nat, turn: Turn<T>, ghost room: nat)
      requires Valid(room) && me < |mem.threads| && Owner(mem.threads[me].pc)
      modifies this`mem, this`trace
      ensures Valid(room) && NoClaim(old(mem), mem, me)
      ensures old(Steady(p, mem, me) && Enabled(p, mem, me, Choice(p, mem, me, turn)))
      ensures mem == old(Exec(p, mem, me, Choice(p, mem, me, turn)))
      ensures var pc' := mem.threads[me].pc;
              match old(mem.threads[me].pc)
              case PushWrite(x, pos) => pc' == PushPublish(x, pos)
              case PopRead(pos) => pc'.PopPublish? && pc'.pos == pos
              case PushPublish(_, _) => pc' == Idle(Pushed)
              case PopPublish(pos, _) => pos < |mem.pushes| && pc' == Idle(Popped(mem.pushes[pos].item))
              case _ => false
    {
      AlwaysSteady(p, mem, me);
      OwnFinish(p, mem, me);
      Do(me, if mem.threads[me].pc.PushWrite? || mem.threads[me].pc.PopRead? then Touch else Publish);
    }

    /** The access and the store that follow a won compare-exchange. */
    method FinishPush(me: nat, item: T, pos: nat, ghost room: nat, ghost call: Call<T>, ghost n: nat)
      requires Valid(room) && call.me == me && Progressed(call, n)
      requires OnePush(call.before, mem, me, pos, item) && ClaimsKept(call.before, mem)
      requires mem.threads[me].pc == PushWrite(item, pos)
      modifies this`mem, this`trace, this`env
      ensures Valid(room) && Progressed(call, n + 2)
      ensures PushedOne(call.before, mem, me, item) && me < |mem.threads| && mem.threads[me].pc == Idle(Pushed)
    {
      ghost var s := mem;
      OwnAccess(me, room, call, n);
      ghost var s1 := mem;
      OwnAccess(me, room, call, n + 1);
      NoClaimTwice(s, s1, mem, me);
      ThenOnePush(call.before, s, mem, me, pos, item);
    }

    method FinishPop(me: nat, pos: nat, ghost room: nat, ghost call: Call<T>, ghost n: nat) returns (out: T)
      requires Valid(room) && call.me == me && Progressed(call, n)
      requires OnePop(call.before, mem, me, pos) && ClaimsKept(call.before, mem) && mem.threads[me].pc == PopRead(pos)
      modifies this`mem, this`trace, this`env
      ensures Valid(room) && Progressed(call, n + 2)
      ensures PoppedOne(call.before, mem, me, out) && me < |mem.threads| && mem.threads[me].pc == Idle(Popped(out))
    {
      ghost var s := mem;
      OwnAccess(me, room, call, n);
      ghost var s1 := mem;
      OwnAccess(me, room, call, n + 1);
      NoClaimTwice(s, s1, mem, me);
      ThenOnePop(call.before, s, mem, me, pos);
      out := mem.threads[me].pc.last.out;
    }

    /** The branch for dif == 0: the compare-exchange and, if it succeeds, what follows it. */
    method ClaimAndWrite(me: nat, item: T, pos: nat, ghost room: nat, ghost call: Call<T>, ghost n: nat)
      returns (won: bool, pos': nat)
      requires Valid(room + 1) && call.me == me && During(call, n) && mem.threads[me].pc == PushCas(item, pos)
      modifies this`mem, this`trace, this`env
      ensures me < |mem.threads|
      ensures if won then
                && Valid(room) && Progressed(call, n + 3) && mem.threads[me].pc == Idle(Pushed)
                && PushedOne(call.before, mem, me, item)
              else Valid(room + 1) && During(call, n + 1) && mem.threads[me].pc == PushSeq(item, pos')
      ensures !won ==> if old(env) == [] then env == [] && RankOf(mem, me) < old(RankOf(mem, me))
        else |env| < old(|env|)
    {
      won, pos' := ClaimPush(me, item, pos, room, call, n);
      if won { FinishPush(me, item, pos, room, call, n + 1); }
    }

    method ClaimAndRead(me: nat, pos: nat, out: T, ghost room: nat, ghost call: Call<T>, ghost n: nat)
      returns (won: bool, pos': nat, out': T)
      requires Valid(room) && call.me == me && During(call, n) && mem.threads[me].pc == PopCas(pos)
      modifies this`mem, this`trace, this`env
      ensures Valid(room) && me < |mem.threads|
      ensures if won then
                && Progressed(call, n + 3) && mem.threads[me].pc == Idle(Popped(out'))
                && PoppedOne(call.before, mem, me, out')
              else During(call, n + 1) && mem.threads[me].pc == PopSeq(pos') && out' == out
      ensures !won ==> if old(env) == [] then env == [] && RankOf(mem, me) < old(RankOf(mem, me))
        else |env| < old(|env|)
    {
      out' := out;
      won, pos' := ClaimPop(me, pos, room, call, n);
      if won { out' := FinishPop(me, pos, room, call, n + 1); }
    }

    /** The call's first load. */
    method Begin(me: nat, a: Step<T>, ghost room: nat, ghost call: Call<T>) returns (pos: nat)
      requires Valid(room) && me < |mem.threads| && mem.threads[me].pc.Idle? && Begins(a)
      requires call == Call(mem, me, a, env)
      modifies this`mem, this`trace, this`env
      ensures Valid(room) && During(call, 1)
      ensures mem.threads[me].pc == match a case BeginPush(item) => PushSeq(item, pos) case _ => PopSeq(pos)
    {
      Do(me, a);
      pos := LoadPosition(me, room, call, 0);
    }

    /** Returns whatever the others do: once the turns are used up the rank of the call goes down with
        every access. */
    method TryPush(me: nat, item: T, ghost room: nat) returns (ok: bool, ghost n: nat)
      requires Valid(room + 1) && me < |mem.threads| && mem.threads[me].pc.Idle?
      modifies this`mem, this`trace, this`env
      ensures Valid(room) && me < |mem.threads| && mem.threads[me].pc == Idle(if ok then Pushed else Full)
      // It claims exactly one position, for this item, when it returns true, and none otherwise.
      ensures if ok then PushedOne(old(mem), mem, me, item) else NoClaim(old(mem), mem, me)
      // Its accesses and the others' steps between them are those that the turns determine.
      ensures Answered(Call(old(mem), me, BeginPush(item), old(env)), n)
      ensures Undisturbed(old(env)) && NoOwners(old(mem)) ==> ok == (|Contents(p, old(mem))| < p.cap)
    {
      ghost var call := Call(mem, me, BeginPush(item), env);
      var pos := Begin(me, BeginPush(item), room + 1, call);
      n := 1;
      while true
        invariant Valid(room + 1) && During(call, n) && mem.threads[me].pc == PushSeq(item, pos)
        decreases |env|, RankOf(mem, me)
      {
        var dif := LoadSequence(me, pos, room + 1, call, n);
        n := n + 1;
        if dif == 0 {
          ok, pos := ClaimAndWrite(me, item, pos, room, call, n);
          n := n + if ok then 3 else 1;
          if ok { break; }
        } else if dif < 0 {
          ok := false;
          break;
        } else {
          pos := LoadPosition(me, room + 1, call, n);
          n := n + 1;
        }
      }
      if Undisturbed(call.turns) && NoOwners(call.before) { UndisturbedCall(p, call, n); }
    }

    ghost predicate Answered(call: Call<T>, n: nat)
      reads this
    {
      call.Returns(p, n) && mem == call.At(p, n) && env == Left(call.turns, n)
    }

    /** out: the caller's variable, which a failed call leaves alone. */
    method TryPop(me: nat, out: T, ghost room: nat) returns (ok: bool, out': T, ghost n: nat)
      requires Valid(room) && me < |mem.threads| && mem.threads[me].pc.Idle?
      modifies this`mem, this`trace, this`env
      ensures Valid(room) && me < |mem.threads| && mem.threads[me].pc == Idle(if ok then Popped(out') else Empty)
      // It claims exactly one position when it returns true, and yields that position's item.
      ensures if ok then PoppedOne(old(mem), mem, me, out')
              else NoClaim(old(mem), mem, me) && out' == out
      ensures Answered(Call(old(mem), me, BeginPop, old(env)), n)
      ensures Undisturbed(old(env)) && NoOwners(old(mem)) ==>
                ok == (Contents(p, old(mem)) != []) && (ok ==> out' == Contents(p, old(mem))[0])
    {
      out' := out;
      ghost var call := Call(mem, me, BeginPop, env);
      var pos := Begin(me, BeginPop, room, call);
      n := 1;
      while true
        invariant Valid(room) && During(call, n) && mem.threads[me].pc == PopSeq(pos) && out' == out
        decreases |env|, RankOf(mem, me)
      {
        var dif := LoadSequence(me, pos, room, call, n);
        n := n + 1;
        if dif == 0 {
          ok, pos, out' := ClaimAndRead(me, pos, out, room, call, n);
          n := n + if ok then 3 else 1;
          if ok { break; }
        } else if dif < 0 {
          ok := false;
          break;
        } else {
          pos := LoadPosition(me, room, call, n);
          n := n + 1;
        }
      }
      if Undisturbed(call.turns) && NoOwners(call.before) { UndisturbedCall(p, call, n); }
    }
  }
}
