/** One call of try_push or try_pop among the steps of the other threads. What comes before each of its
    accesses is given as a turn: a batch of the others' steps, the value that the access reads, which
    may be stale, and whether a weak compare-exchange fails for no reason. The turns determine the
    call; and every run of the machine is a call under some turns. */
module MpmcCalls {
  import opened Bits
  import opened Common
  import opened MpmcMachine
  import opened MpmcInvariant
  import opened MpmcSteps
  import opened MpmcTheorems
  import opened MpmcProgress

  /** at: the place in the modification order that is read, if the thread may still read it; None, as
      an unreadable place, stands for the newest. */
  datatype Turn<T> = Turn(others: seq<Label<T>>, at: Option<nat>, spurious: bool)

  function Place(seen: nat, places: nat, at: Option<nat>): (i: nat)
    requires seen < places
    ensures seen <= i < places
    ensures at.Some? && seen <= at.value < places ==> i == at.value
    ensures at.None? ==> i == places - 1
  {
    if at.Some? && seen <= at.value < places then at.value else places - 1
  }

  /** The state after a batch of which impossible steps, and those of the caller, are left out. */
  function Others<T>(p: Params, s: State<T>, me: nat, batch: seq<Label<T>>): (s': State<T>)
    ensures |s'.threads| == |s.threads|
    decreases |batch|
  {
    if batch == [] then s
    else
      var l := batch[0];
      Others(p, if l.thread != me && Enabled(p, s, l.thread, l.step) then Exec(p, s, l.thread, l.step) else s,
             me, batch[1..])
  }

  /** The atomic position that a thread works on, and the newest place there that it has seen. */
  function Positions<T>(s: State<T>, me: nat): seq<nat>
    requires me < |s.threads|
  {
    if InPush(s.threads[me].pc) then s.enq else s.deq
  }

  function SeenPosition<T>(s: State<T>, me: nat): nat
    requires me < |s.threads|
  {
    if InPush(s.threads[me].pc) then s.threads[me].seenEnq else s.threads[me].seenDeq
  }

  /** The call is under way and what it reads next is there. */
  predicate Steady<T>(p: Params, s: State<T>, me: nat) {
    && me < |s.threads| && !s.threads[me].pc.Idle?
    && SeenPosition(s, me) < |Positions(s, me)|
    && (var pc := s.threads[me].pc;
        pc.PushSeq? || pc.PopSeq? ==>
          SlotsOk(p, s, me, pc.pos) && s.threads[me].seenSeq[p.Slot(pc.pos)] < |s.seqs[p.Slot(pc.pos)]|)
  }

  /** The access that the code makes next. A compare-exchange that reads back what it expected has
      failed for no reason, so without such a failure it does not. */
  function Choice<T>(p: Params, s: State<T>, me: nat, turn: Turn<T>): Step<T>
    requires Steady(p, s, me)
  {
    var pc, hist := s.threads[me].pc, Positions(s, me);
    var i := Place(SeenPosition(s, me), |hist|, turn.at);
    if pc.PushPos? || pc.PopPos? then LoadPos(i)
    else if pc.PushSeq? || pc.PopSeq? then
      LoadSeq(Place(s.threads[me].seenSeq[p.Slot(pc.pos)], |s.seqs[p.Slot(pc.pos)]|, turn.at))
    else if pc.PushCas? || pc.PopCas? then
      if hist[|hist| - 1] == pc.pos && !turn.spurious then CasOk
      else CasFail(if turn.spurious || hist[i] != pc.pos then i else |hist| - 1)
    else if pc.PushWrite? || pc.PopRead? then Touch
    else Publish
  }

  /** One turn: the others' batch, then the access. */
  function After<T>(p: Params, s: State<T>, me: nat, turn: Turn<T>): (s': State<T>)
    ensures |s'.threads| == |s.threads|
  {
    var s1 := Others(p, s, me, turn.others);
    if Steady(p, s1, me) && Enabled(p, s1, me, Choice(p, s1, me, turn)) then Exec(p, s1, me, Choice(p, s1, me, turn))
    else s1
  }

  function Nothing<T>(): Turn<T> { Turn([], None, false) }

  /** When the given turns are used up nobody interferes any more. */
  function TurnAt<T>(turns: seq<Turn<T>>, i: nat): Turn<T> {
    if i < |turns| then turns[i] else Nothing()
  }

  function Turns<T>(p: Params, s: State<T>, me: nat, turns: seq<Turn<T>>, n: nat): (s': State<T>)
    ensures |s'.threads| == |s.threads|
    decreases n, 0
  {
    if n == 0 then s else AfterTurns(p, s, me, turns, n - 1)
  }

  /** After n turns and one more. */
  function AfterTurns<T>(p: Params, s: State<T>, me: nat, turns: seq<Turn<T>>, n: nat): (s': State<T>)
    ensures |s'.threads| == |s.threads|
    decreases n, 1
  {
    After(p, Turns(p, s, me, turns, n), me, TurnAt(turns, n))
  }

  lemma {:induction false} OneMore<T>(p: Params, s: State<T>, me: nat, turns: seq<Turn<T>>, n: nat)
    ensures Turns(p, s, me, turns, n + 1) == After(p, Turns(p, s, me, turns, n), me, TurnAt(turns, n))
  {
    assert Turns(p, s, me, turns, n + 1) == AfterTurns(p, s, me, turns, n);
  }

  /** A call begun by `first` in the state `before`. */
  datatype Call<T> = Call(before: State<T>, me: nat, first: Step<T>, turns: seq<Turn<T>>) {
    predicate Possible(p: Params) { Begins(first) && Enabled(p, before, me, first) }

    function At(p: Params, n: nat): (s: State<T>)
      requires Possible(p)
      ensures me < |s.threads| && |s.threads| == |before.threads|
    {
      Turns(p, Exec(p, before, me, first), me, turns, n)
    }

    /** n accesses have been made, and the call had not returned before the last of them. */
    ghost predicate Reaches(p: Params, n: nat) {
      Possible(p) && forall i: nat | i < n :: !At(p, i).threads[me].pc.Idle?
    }

    /** It returns with its n-th access. */
    ghost predicate Returns(p: Params, n: nat) {
      Reaches(p, n) && At(p, n).threads[me].pc.Idle?
    }
  }

  // ---------------------------------------------------------------- what a turn can be

  /** Any run of the others can come before an access. */
  lemma {:induction false} AnyInterference<T>(p: Params, s: State<T>, me: nat, batch: seq<Label<T>>)
    requires Legal(p, s, batch) && forall l | l in batch :: l.thread != me
    ensures Others(p, s, me, batch) == Run(p, s, batch)
    decreases |batch|
  {
    if batch != [] {
      assert batch[0] in batch;
      AnyInterference(p, Exec(p, s, batch[0].thread, batch[0].step), me, batch[1..]);
    }
  }

  /** And nothing else can. */
  lemma {:induction false} OnlyInterference<T>(p: Params, s: State<T>, me: nat, batch: seq<Label<T>>)
    returns (ls: seq<Label<T>>)
    ensures Legal(p, s, ls) && Run(p, s, ls) == Others(p, s, me, batch)
    ensures |ls| <= |batch| && forall l | l in ls :: l.thread != me
    decreases |batch|
  {
    if batch == [] { return []; }
    var l := batch[0];
    if l.thread != me && Enabled(p, s, l.thread, l.step) {
      var rest := OnlyInterference(p, Exec(p, s, l.thread, l.step), me, batch[1..]);
      ls := [l] + rest;
      assert ls[1..] == rest;
    } else {
      ls := OnlyInterference(p, s, me, batch[1..]);
    }
  }

  lemma {:induction false} AlwaysSteady<T>(p: Params, s: State<T>, me: nat)
    requires Inv(p, s) && me < |s.threads| && !s.threads[me].pc.Idle?
    ensures Steady(p, s, me)
  {
    assert ThreadInv(p, s, me);
    var pc := s.threads[me].pc;
    if pc.PushSeq? || pc.PopSeq? { SlotThere(p, s, me); }
  }

  /** The access is one that the machine can make. */
  lemma {:induction false} ChoiceEnabled<T>(p: Params, s: State<T>, me: nat, turn: Turn<T>)
    requires Inv(p, s) && me < |s.threads| && !s.threads[me].pc.Idle?
    ensures Steady(p, s, me) && Enabled(p, s, me, Choice(p, s, me, turn)) && !Begins(Choice(p, s, me, turn))
  {
    AlwaysSteady(p, s, me);
    assert ThreadInv(p, s, me);
    if Owner(s.threads[me].pc) { SlotThere(p, s, me); }
  }

  /** A compare-exchange fails exactly when another position is live than the one expected, or when the
      turn says so; only then does it read back the expected value; and in a turn that gives nothing
      it is, like a load, the usual one. */
  lemma {:induction false} CasExact<T>(p: Params, s: State<T>, me: nat, turn: Turn<T>)
    requires Inv(p, s) && me < |s.threads| && !s.threads[me].pc.Idle?
    requires Steady(p, s, me) && Enabled(p, s, me, Choice(p, s, me, turn))
    ensures var pc, a := s.threads[me].pc, Choice(p, s, me, turn);
            var live := if InPush(pc) then E(s) else D(s);
            && (pc.PushCas? || pc.PopCas? ==> (a.CasFail? <==> turn.spurious || pc.pos != live))
            && (pc.PushCas? || pc.PopCas? ==> a.CasOk? || a.CasFail?)
            && (!turn.spurious ==> !Spurious(p, s, me, a))
            && (turn.at.None? && !turn.spurious ==> Newest(p, s, me, a))
  {
    assert ThreadInv(p, s, me);
  }

  /** A read reads the value that the turn gives, if the thread has not seen a newer one, and may be as
      stale as that. */
  lemma {:induction false} ReadsExact<T>(p: Params, s: State<T>, me: nat, turn: Turn<T>)
    requires Inv(p, s) && me < |s.threads| && !s.threads[me].pc.Idle? && turn.at.Some?
    requires Steady(p, s, me) && Enabled(p, s, me, Choice(p, s, me, turn))
    ensures var me', a := s.threads[me], Choice(p, s, me, turn); var at := turn.at.value;
            && (a.LoadPos? || (a.CasFail? && turn.spurious) ==>
                  if InPush(me'.pc) then
                    me'.seenEnq <= at <= E(s) ==> Exec(p, s, me, a).threads[me].pc == PushSeq(me'.pc.item, at)
                  else
                    me'.seenDeq <= at <= D(s) ==> Exec(p, s, me, a).threads[me].pc == PopSeq(at))
            && (a.LoadSeq? ==>
                  var c := p.Slot(me'.pc.pos); me'.seenSeq[c] <= at < |s.seqs[c]| ==> a.at == at)
  {
    assert ThreadInv(p, s, me);
  }

  /** Every access that the machine can make in a call is made under some turn. */
  lemma {:induction false} AnyAccess<T>(p: Params, s: State<T>, me: nat, a: Step<T>, others: seq<Label<T>>)
    returns (turn: Turn<T>)
    requires Legal(p, s, others) && (forall l | l in others :: l.thread != me)
    requires Inv(p, Run(p, s, others)) && Enabled(p, Run(p, s, others), me, a) && !Begins(a)
    ensures turn.others == others && After(p, s, me, turn) == Exec(p, Run(p, s, others), me, a)
  {
    turn := Turn(others, if a.LoadPos? || a.LoadSeq? || a.CasFail? then Some(a.at) else None, a.CasFail?);
    AnyInterference(p, s, me, others);
    AlwaysSteady(p, Run(p, s, others), me);
    assert ThreadInv(p, Run(p, s, others), me);
  }

  lemma {:induction false} RunSplit<T>(p: Params, s: State<T>, a: seq<Label<T>>, b: seq<Label<T>>)
    requires Legal(p, s, a + b)
    ensures Legal(p, s, a) && Legal(p, Run(p, s, a), b) && Run(p, s, a + b) == Run(p, Run(p, s, a), b)
    decreases |a|
  {
    if a == [] {
      assert a + b == b;
    } else {
      assert (a + b)[1..] == a[1..] + b;
      RunSplit(p, Exec(p, s, a[0].thread, a[0].step), a[1..], b);
    }
  }

  lemma {:induction false} SplitInv<T>(p: Params, s: State<T>, a: seq<Label<T>>, b: seq<Label<T>>)
    requires Inv(p, s) && Legal(p, s, a + b) && E(Run(p, s, a + b)) + p.cap <= p.Half()
    ensures Legal(p, s, a) && Legal(p, Run(p, s, a), b) && Run(p, s, a + b) == Run(p, Run(p, s, a), b)
    ensures Inv(p, Run(p, s, a))
  {
    RunSplit(p, s, a, b);
    EnqueueGrows(p, Run(p, s, a), b);
    RunInv(p, s, a);
  }

  lemma {:induction false} TurnsPrefix<T>(
    p: Params, s: State<T>, me: nat, turns: seq<Turn<T>>, more: seq<Turn<T>>, n: nat)
    requires n <= |turns|
    ensures Turns(p, s, me, turns + more, n) == Turns(p, s, me, turns, n)
  {
    if n > 0 {
      TurnsPrefix(p, s, me, turns, more, n - 1);
      OneMore(p, s, me, turns, n - 1);
      OneMore(p, s, me, turns + more, n - 1);
    }
  }

  /** How many labels there are up to the last one of the thread. */
  ghost function UpToLast<T>(ls: seq<Label<T>>, me: nat): (k: nat)
    ensures k <= |ls| && (k > 0 ==> ls[k - 1].thread == me)
    ensures forall i | k <= i < |ls| :: ls[i].thread != me
  {
    if ls == [] then 0 else if ls[|ls| - 1].thread == me then |ls| else UpToLast(ls[..|ls| - 1], me)
  }

  /** The turns lose nothing: every run of the machine in which a thread's call is under way is that call
      under some turns, up to the thread's last access. */
  lemma {:induction false} EveryRunIsTurns<T>(p: Params, s: State<T>, me: nat, ls: seq<Label<T>>)
    returns (turns: seq<Turn<T>>)
    requires Inv(p, s) && me < |s.threads| && Legal(p, s, ls) && E(Run(p, s, ls)) + p.cap <= p.Half()
    requires forall l | l in ls && l.thread == me :: !Begins(l.step)
    requires ls != [] ==> ls[|ls| - 1].thread == me
    ensures Turns(p, s, me, turns, |turns|) == Run(p, s, ls)
    decreases |ls|
  {
    if ls == [] { return []; }
    var k, turn := LastAccess(p, s, me, ls);
    var first := EveryRunIsTurns(p, s, me, ls[..k]);
    turns := first + [turn];
    TurnsPrefix(p, s, me, first, [turn], |first|);
    OneMore(p, s, me, turns, |first|);
  }

  /** A run that ends with an access of the thread: where the access before it was, and the turn between. */
  lemma {:induction false} LastAccess<T>(p: Params, s: State<T>, me: nat, ls: seq<Label<T>>)
    returns (k: nat, turn: Turn<T>)
    requires Inv(p, s) && me < |s.threads| && Legal(p, s, ls) && E(Run(p, s, ls)) + p.cap <= p.Half()
    requires forall l | l in ls && l.thread == me :: !Begins(l.step)
    requires ls != [] && ls[|ls| - 1].thread == me
    ensures k < |ls| && Legal(p, s, ls[..k]) && (k > 0 ==> ls[k - 1].thread == me)
    ensures E(Run(p, s, ls[..k])) + p.cap <= p.Half()
    ensures After(p, Run(p, s, ls[..k]), me, turn) == Run(p, s, ls)
  {
    k := UpToLast(ls[..|ls| - 1], me);
    assert ls == ls[..k] + (ls[k..|ls| - 1] + [ls[|ls| - 1]]);
    turn := TurnAfter(p, s, me, ls[..k], ls[k..|ls| - 1], ls[|ls| - 1]);
  }

  lemma {:induction false} TurnAfter<T>(
    p: Params, s: State<T>, me: nat, pre: seq<Label<T>>, others: seq<Label<T>>, l: Label<T>) returns (turn: Turn<T>)
    requires Inv(p, s) && me < |s.threads| && Legal(p, s, pre + (others + [l]))
    requires E(Run(p, s, pre + (others + [l]))) + p.cap <= p.Half()
    requires l.thread == me && !Begins(l.step) && forall o | o in others :: o.thread != me
    ensures Legal(p, s, pre) && E(Run(p, s, pre)) + p.cap <= p.Half()
    ensures After(p, Run(p, s, pre), me, turn) == Run(p, s, pre + (others + [l]))
  {
    SplitInv(p, s, pre, others + [l]);
    SplitInv(p, Run(p, s, pre), others, [l]);
    turn := LastTurn(p, Run(p, s, pre), me, others, l);
  }

  lemma {:induction false} LastTurn<T>(p: Params, s: State<T>, me: nat, others: seq<Label<T>>, l: Label<T>)
    returns (turn: Turn<T>)
    requires Legal(p, s, others) && Legal(p, Run(p, s, others), [l]) && Inv(p, Run(p, s, others))
    requires l.thread == me && !Begins(l.step) && forall o | o in others :: o.thread != me
    ensures After(p, s, me, turn) == Run(p, Run(p, s, others), [l])
  {
    turn := AnyAccess(p, s, me, l.step, others);
    var s1 := Exec(p, Run(p, s, others), me, l.step);
    assert Run(p, s1, [l][1..]) == s1;
  }

  // ---------------------------------------------------------------- an undisturbed call

  /** No turn brings steps of others, stale reads or failures for no reason. */
  ghost predicate Undisturbed<T>(turns: seq<Turn<T>>) {
    forall i | 0 <= i < |turns| :: turns[i] == Nothing()
  }

  /** Nobody is between a claim and the store that ends it. */
  ghost predicate NoOwners<T>(s: State<T>) {
    forall t | 0 <= t < |s.threads| :: !Owner(s.threads[t].pc)
  }

  /** With no owners a slot's newest sequence tells full from free, and filled from empty. */
  lemma {:induction false} LiveSlots<T>(p: Params, s: State<T>)
    requires Inv(p, s) && NoOwners(s)
    ensures var h := s.seqs[E(s) % p.cap];
            h != [] && if |Contents(p, s)| < p.cap then h[|h| - 1].val == E(s) else h[|h| - 1].val < E(s)
    ensures var h := s.seqs[D(s) % p.cap];
            h != [] && if Contents(p, s) != [] then h[|h| - 1].val == D(s) + 1 else h[|h| - 1].val < D(s) + 1
  {
    SlotOfPush(p, s, E(s));
    assert SlotInv(p, s, E(s) % p.cap);
    SlotOfPop(p, s, D(s));
    assert SlotInv(p, s, D(s) % p.cap);
    if E(s) == D(s) + p.cap { AddLap(D(s), p.cap); OutstandingIsCurrent(p, s, D(s)); }
    if D(s) < E(s) { OutstandingIsCurrent(p, s, D(s)); }
  }

  /** How far an undisturbed call that began in s0 has got. */
  ghost predicate PushStage<T>(p: Params, s0: State<T>, s: State<T>, me: nat, x: T)
    requires Shape(p, s0) && me < |s.threads|
  {
    var room := |Contents(p, s0)| < p.cap;
    match s.threads[me].pc
    case PushPos(y) => y == x && s.enq == s0.enq && s.seqs == s0.seqs
    case PushSeq(y, pos) => y == x && s.enq == s0.enq && s.seqs == s0.seqs && pos == E(s0)
    case PushCas(y, pos) => y == x && s.enq == s0.enq && s.seqs == s0.seqs && pos == E(s0) && room
    case PushWrite(y, _) => y == x && E(s) == E(s0) + 1 && room
    case PushPublish(y, _) => y == x && E(s) == E(s0) + 1 && room
    case Idle(last) => last == if room then Pushed else Full
    case _ => false
  }

  ghost predicate PopStage<T>(p: Params, s0: State<T>, s: State<T>, me: nat)
    requires Shape(p, s0) && me < |s.threads|
  {
    && s.pushes == s0.pushes && s.enq == s0.enq
    && match s.threads[me].pc
       case PopPos => s.deq == s0.deq && s.seqs == s0.seqs
       case PopSeq(pos) => s.deq == s0.deq && s.seqs == s0.seqs && pos == D(s0)
       case PopCas(pos) => s.deq == s0.deq && s.seqs == s0.seqs && pos == D(s0) && Contents(p, s0) != []
       case PopRead(pos) => pos == D(s0) && Contents(p, s0) != []
       case PopPublish(pos, _) => pos == D(s0) && Contents(p, s0) != []
       case Idle(last) => last == if Contents(p, s0) != [] then Popped(Contents(p, s0)[0]) else Empty
       case _ => false
  }

  lemma {:induction false} PushStageStep<T>(p: Params, s0: State<T>, s: State<T>, me: nat, x: T)
    requires Inv(p, s0) && NoOwners(s0) && Inv(p, s) && me < |s.threads| && !s.threads[me].pc.Idle?
    requires PushStage(p, s0, s, me, x) && E(s0) + 1 + p.cap <= p.Half()
    ensures Inv(p, After(p, s, me, Nothing())) && PushStage(p, s0, After(p, s, me, Nothing()), me, x)
  {
    ChoiceEnabled(p, s, me, Nothing());
    assert ThreadInv(p, s, me);
    if s.threads[me].pc.PushSeq? {
      LiveSlots(p, s0);
      LoadSeqBranch(p, s, me, Choice(p, s, me, Nothing()).at);
    }
    StepInv(p, s, me, Choice(p, s, me, Nothing()));
  }

  lemma {:induction false} PopStageStep<T>(p: Params, s0: State<T>, s: State<T>, me: nat)
    requires Inv(p, s0) && NoOwners(s0) && Inv(p, s) && me < |s.threads| && !s.threads[me].pc.Idle?
    requires PopStage(p, s0, s, me)
    ensures Inv(p, After(p, s, me, Nothing())) && PopStage(p, s0, After(p, s, me, Nothing()), me)
  {
    ChoiceEnabled(p, s, me, Nothing());
    assert ThreadInv(p, s, me);
    if s.threads[me].pc.PopSeq? {
      LiveSlots(p, s0);
      LoadSeqBranch(p, s, me, Choice(p, s, me, Nothing()).at);
    }
    StepInv(p, s, me, Choice(p, s, me, Nothing()));
  }

  lemma {:induction false} UndisturbedBegin<T>(p: Params, call: Call<T>)
    requires Inv(p, call.before) && call.Possible(p)
    ensures Inv(p, call.At(p, 0))
    ensures call.first.BeginPush? ==> PushStage(p, call.before, call.At(p, 0), call.me, call.first.item)
    ensures call.first.BeginPop? ==> PopStage(p, call.before, call.At(p, 0), call.me)
  {
    StepInv(p, call.before, call.me, call.first);
  }

  /** In a call that is not disturbed the queue is what it was when the call began. */
  lemma {:induction false} UndisturbedPush<T>(p: Params, call: Call<T>, n: nat)
    requires Inv(p, call.before) && NoOwners(call.before) && call.Reaches(p, n) && Undisturbed(call.turns)
    requires call.first.BeginPush? && E(call.before) + 1 + p.cap <= p.Half()
    ensures Inv(p, call.At(p, n)) && PushStage(p, call.before, call.At(p, n), call.me, call.first.item)
  {
    if n == 0 {
      UndisturbedBegin(p, call);
    } else {
      UndisturbedPush(p, call, n - 1);
      PushStageStep(p, call.before, call.At(p, n - 1), call.me, call.first.item);
      assert TurnAt(call.turns, n - 1) == Nothing();
      OneMore(p, Exec(p, call.before, call.me, call.first), call.me, call.turns, n - 1);
    }
  }

  lemma {:induction false} UndisturbedPop<T>(p: Params, call: Call<T>, n: nat)
    requires Inv(p, call.before) && NoOwners(call.before) && call.Reaches(p, n) && Undisturbed(call.turns)
    requires call.first.BeginPop?
    ensures Inv(p, call.At(p, n)) && PopStage(p, call.before, call.At(p, n), call.me)
  {
    if n == 0 {
      UndisturbedBegin(p, call);
    } else {
      UndisturbedPop(p, call, n - 1);
      PopStageStep(p, call.before, call.At(p, n - 1), call.me);
      assert TurnAt(call.turns, n - 1) == Nothing();
      OneMore(p, Exec(p, call.before, call.me, call.first), call.me, call.turns, n - 1);
    }
  }

  /** An undisturbed call that finds no other thread between claim and store answers as a bounded FIFO:
      try_push succeeds exactly when there is room; try_pop yields the oldest item, and fails exactly
      when there is none. */
  lemma {:induction false} UndisturbedCall<T>(p: Params, call: Call<T>, n: nat)
    requires Inv(p, call.before) && NoOwners(call.before) && call.Returns(p, n) && Undisturbed(call.turns)
    requires E(call.before) + One(call.first.BeginPush?) + p.cap <= p.Half()
    ensures var q := Contents(p, call.before);
            call.At(p, n).threads[call.me].pc == Idle(
              if call.first.BeginPush? then if |q| < p.cap then Pushed else Full
              else if q != [] then Popped(q[0]) else Empty)
  {
    if call.first.BeginPush? { UndisturbedPush(p, call, n); } else { UndisturbedPop(p, call, n); }
  }
}
