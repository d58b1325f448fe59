/** One call of push, pop_normal or pop_vulnerable among the steps of the other threads, no node being
    pushed twice. What comes before each of its accesses is given as a turn: a batch of the others'
    steps, and whether a weak compare-exchange fails for no reason. */
module StackCalls {
  import opened Common
  import opened AbaStack

  datatype Turn = Turn(others: seq<Label>, spurious: bool)

  /** The state after a batch of which impossible steps, and those of the caller, are left out. */
  function Others(s: State, me: nat, batch: seq<Label>): (s': State)
    ensures |s'.threads| == |s.threads|
    decreases |batch|
  {
    if batch == [] then s
    else
      var l := batch[0];
      Others(if Happens(s, me, l) then Exec(s, l.thread, l.step) else s, me, batch[1..])
  }

  predicate Happens(s: State, me: nat, l: Label) {
    l.thread != me && Enabled(s, l.thread, l.step) && Keeps(Once, s, l.thread, l.step)
  }

  lemma {:induction false} OthersStep(s: State, me: nat, l: Label)
    requires Happens(s, me, l) && me < |s.threads|
    ensures var s' := Exec(s, l.thread, l.step);
            && |s'.threads| == |s.threads| && s'.threads[me] == s.threads[me]
            && s.returned <= s'.returned && |s'.next| == |s.next|
  {
  }

  predicate Ended(pc: Pc) { pc.Idle? || pc.NullDereference? }

  /** The access that the code makes next. */
  function Choice(s: State, me: nat, turn: Turn): Step
    requires me < |s.threads| && !Ended(s.threads[me])
  {
    match s.threads[me]
    case PushValue(_, _) => WriteValue
    case PushLoad(_, _) => LoadHead
    case PushNext(_, _, _) => WriteNext
    case PushExpect(_, _) => ReadNext
    case PushCas(_, _, expected) => if s.head == expected && !turn.spurious then CasOk else CasFail
    case PopLoad(_) => LoadHead
    case PopNext(_, _) => ReadNext
    case PopCas(vulnerable, top, _) => if s.head == Some(top) && (vulnerable || !turn.spurious) then CasOk else CasFail
  }

  /** One turn: the others' batch, then the access. */
  function After(s: State, me: nat, turn: Turn): (s': State)
    ensures |s'.threads| == |s.threads|
  {
    var s1 := Others(s, me, turn.others);
    if me < |s1.threads| && !Ended(s1.threads[me]) && Enabled(s1, me, Choice(s1, me, turn)) then
      Exec(s1, me, Choice(s1, me, turn))
    else s1
  }

  function Nothing(): Turn { Turn([], false) }

  /** When the given turns are used up nobody interferes any more. */
  function TurnAt(turns: seq<Turn>, i: nat): Turn {
    if i < |turns| then turns[i] else Nothing()
  }

  function Turns(s: State, me: nat, turns: seq<Turn>, n: nat): (s': State)
    ensures |s'.threads| == |s.threads|
    decreases n, 0
  {
    if n == 0 then s else AfterTurns(s, me, turns, n - 1)
  }

  /** After n turns and one more. */
  function AfterTurns(s: State, me: nat, turns: seq<Turn>, n: nat): (s': State)
    ensures |s'.threads| == |s.threads|
    decreases n, 1
  {
    After(Turns(s, me, turns, n), me, TurnAt(turns, n))
  }

  lemma {:induction false} OneMore(s: State, me: nat, turns: seq<Turn>, n: nat)
    ensures Turns(s, me, turns, n + 1) == After(Turns(s, me, turns, n), me, TurnAt(turns, n))
  {
    assert Turns(s, me, turns, n + 1) == AfterTurns(s, me, turns, n);
  }

  predicate Begins(a: Step) { a.BeginPush? || a.BeginPop? }

  /** A call begun by `first` in the state `before`. */
  datatype Call = Call(before: State, me: nat, first: Step, turns: seq<Turn>) {
    predicate Possible() { Begins(first) && Enabled(before, me, first) && Keeps(Once, before, me, first) }

    function At(n: nat): (s: State)
      requires Possible()
      ensures me < |s.threads| && |s.threads| == |before.threads|
    {
      Turns(Exec(before, me, first), me, turns, n)
    }

    /** n accesses have been made, and the call had not returned before the last of them. */
    ghost predicate Reaches(n: nat) {
      Possible() && forall i: nat | i < n :: !Ended(At(i).threads[me])
    }

    /** It ends with its n-th access. */
    ghost predicate Returns(n: nat) {
      Reaches(n) && Ended(At(n).threads[me])
    }
  }

  // ---------------------------------------------------------------- what a turn can be

  /** Any run of the others without reuse can come before an access. */
  lemma {:induction false} AnyInterference(s: State, me: nat, batch: seq<Label>)
    requires Legal(s, batch) && Always(Once, s, batch) && forall l | l in batch :: l.thread != me
    ensures Others(s, me, batch) == Run(s, batch)
    decreases |batch|
  {
    if batch != [] {
      assert batch[0] in batch;
      AnyInterference(Exec(s, batch[0].thread, batch[0].step), me, batch[1..]);
    }
  }

  /** And nothing else can. */
  lemma {:induction false} OnlyInterference(s: State, me: nat, batch: seq<Label>) returns (ls: seq<Label>)
    ensures Legal(s, ls) && Always(Once, s, ls) && Run(s, ls) == Others(s, me, batch)
    ensures |ls| <= |batch| && forall l | l in ls :: l.thread != me
    decreases |batch|
  {
    if batch == [] { return []; }
    var l := batch[0];
    if Happens(s, me, l) {
      var rest := OnlyInterference(Exec(s, l.thread, l.step), me, batch[1..]);
      ls := [l] + rest;
      assert ls[1..] == rest;
    } else {
      ls := OnlyInterference(s, me, batch[1..]);
    }
  }

  /** The access is one that the machine can make, and a compare-exchange fails exactly when head is not
      the expected node or, if it is a weak one, when the turn says so. */
  lemma {:induction false} ChoiceExact(s: State, me: nat, turn: Turn)
    requires Inv(s) && me < |s.threads| && !Ended(s.threads[me])
    ensures var pc, a := s.threads[me], Choice(s, me, turn);
            && Enabled(s, me, a) && !Begins(a)
            && (pc.PushCas? ==> (if s.head != pc.expected || turn.spurious then a.CasFail? else a.CasOk?))
            && (pc.PopCas? ==>
                  (if s.head != Some(pc.top) || (turn.spurious && !pc.vulnerable) then a.CasFail? else a.CasOk?))
  {
    assert ThreadInv(s, me);
    if s.threads[me].PopNext? || s.threads[me].PopCas? { PoolBound(s, s.threads[me].top); }
  }

  /** Every access that the machine can make in a call is made under some turn. */
  lemma {:induction false} AnyAccess(s: State, me: nat, a: Step, others: seq<Label>) returns (turn: Turn)
    requires Legal(s, others) && Always(Once, s, others) && (forall l | l in others :: l.thread != me)
    requires Enabled(Run(s, others), me, a) && !Begins(a)
    ensures turn.others == others && After(s, me, turn) == Exec(Run(s, others), me, a)
  {
    turn := Turn(others, a.CasFail?);
    AnyInterference(s, me, others);
  }

  lemma {:induction false} RunSplit(s: State, a: seq<Label>, b: seq<Label>)
    requires Legal(s, a + b) && Always(Once, s, a + b)
    ensures Legal(s, a) && Legal(Run(s, a), b) && Run(s, a + b) == Run(Run(s, a), b)
    ensures Always(Once, s, a) && Always(Once, Run(s, a), b)
    decreases |a|
  {
    if a == [] {
      assert a + b == b;
    } else {
      assert (a + b)[1..] == a[1..] + b;
      RunSplit(Exec(s, a[0].thread, a[0].step), a[1..], b);
    }
  }

  lemma {:induction false} TurnsPrefix(s: State, me: nat, turns: seq<Turn>, more: seq<Turn>, n: nat)
    requires n <= |turns|
    ensures Turns(s, me, turns + more, n) == Turns(s, me, turns, n)
  {
    if n > 0 {
      TurnsPrefix(s, me, turns, more, n - 1);
      OneMore(s, me, turns, n - 1);
      OneMore(s, me, turns + more, n - 1);
    }
  }

  /** How many labels there are up to the last one of the thread. */
  ghost function UpToLast(ls: seq<Label>, me: nat): (k: nat)
    ensures k <= |ls| && (k > 0 ==> ls[k - 1].thread == me)
    ensures forall i | k <= i < |ls| :: ls[i].thread != me
  {
    if ls == [] then 0 else if ls[|ls| - 1].thread == me then |ls| else UpToLast(ls[..|ls| - 1], me)
  }

  /** The turns lose nothing: every run without reuse in which a thread's call is under way is that call
      under some turns, up to the thread's last access. */
  lemma {:induction false} EveryRunIsTurns(s: State, me: nat, ls: seq<Label>) returns (turns: seq<Turn>)
    requires Legal(s, ls) && Always(Once, s, ls)
    requires forall l | l in ls && l.thread == me :: !Begins(l.step)
    requires ls != [] ==> ls[|ls| - 1].thread == me
    ensures Turns(s, me, turns, |turns|) == Run(s, ls)
    decreases |ls|
  {
    if ls == [] { return []; }
    var k, turn := LastAccess(s, me, ls);
    var first := EveryRunIsTurns(s, me, ls[..k]);
    turns := first + [turn];
    TurnsPrefix(s, me, first, [turn], |first|);
    OneMore(s, me, turns, |first|);
  }

  /** A run that ends with an access of the thread: where the access before it was, and the turn between. */
  lemma {:induction false} LastAccess(s: State, me: nat, ls: seq<Label>) returns (k: nat, turn: Turn)
    requires Legal(s, ls) && Always(Once, s, ls)
    requires forall l | l in ls && l.thread == me :: !Begins(l.step)
    requires ls != [] && ls[|ls| - 1].thread == me
    ensures k < |ls| && Legal(s, ls[..k]) && Always(Once, s, ls[..k]) && (k > 0 ==> ls[k - 1].thread == me)
    ensures After(Run(s, ls[..k]), me, turn) == Run(s, ls)
  {
    k := UpToLast(ls[..|ls| - 1], me);
    assert ls == ls[..k] + (ls[k..|ls| - 1] + [ls[|ls| - 1]]);
    turn := TurnAfter(s, me, ls[..k], ls[k..|ls| - 1], ls[|ls| - 1]);
  }

  lemma {:induction false} TurnAfter(s: State, me: nat, pre: seq<Label>, others: seq<Label>, l: Label)
    returns (turn: Turn)
    requires Legal(s, pre + (others + [l])) && Always(Once, s, pre + (others + [l]))
    requires l.thread == me && !Begins(l.step) && forall o | o in others :: o.thread != me
    ensures Legal(s, pre) && Always(Once, s, pre)
    ensures After(Run(s, pre), me, turn) == Run(s, pre + (others + [l]))
  {
    RunSplit(s, pre, others + [l]);
    RunSplit(Run(s, pre), others, [l]);
    turn := LastTurn(Run(s, pre), me, others, l);
  }

  lemma {:induction false} LastTurn(s: State, me: nat, others: seq<Label>, l: Label) returns (turn: Turn)
    requires Legal(s, others) && Always(Once, s, others) && Legal(Run(s, others), [l])
    requires l.thread == me && !Begins(l.step) && forall o | o in others :: o.thread != me
    ensures After(s, me, turn) == Run(Run(s, others), [l])
  {
    turn := AnyAccess(s, me, l.step, others);
    var s1 := Exec(Run(s, others), me, l.step);
    assert Run(s1, [l][1..]) == s1;
  }

  // ---------------------------------------------------------------- an undisturbed call

  /** No turn brings steps of others or failures for no reason. */
  ghost predicate Undisturbed(turns: seq<Turn>) {
    forall i | 0 <= i < |turns| :: turns[i] == Nothing()
  }

  /** How far an undisturbed call that began in s0 has got. */
  ghost predicate Stage(s0: State, s: State, me: nat, first: Step)
    requires me < |s.threads|
  {
    match s.threads[me]
    case PopLoad(v) => first == BeginPop(v) && s.head == s0.head && s.stack == s0.stack
    case PopNext(v, top) => first == BeginPop(v) && s.head == s0.head == Some(top) && s.stack == s0.stack
    case PopCas(v, top, _) => first == BeginPop(v) && s.head == s0.head == Some(top) && s.stack == s0.stack
    case NullDereference => first == BeginPop(true) && s0.head == None && s.stack == s0.stack
    case Idle(got) =>
      if first.BeginPush? then s.stack == [Entry(first.node, first.v)] + s0.stack
      else if first.BeginPop? then
        got == s0.head && (got == None ==> !first.vuln) && s.stack == (if s0.stack == [] then [] else s0.stack[1..])
      else false
    case _ => InPushStage(s0, s, s.threads[me], first)
  }

  ghost predicate InPushStage(s0: State, s: State, pc: Pc, first: Step)
    requires InPush(pc)
  {
    && first == BeginPush(pc.node, pc.value) && s.head == s0.head && s.stack == s0.stack
    && (pc.PushNext? ==> pc.link == s.head)
    && (pc.PushExpect? ==> pc.node < |s.next| && s.next[pc.node] == s.head)
    && (pc.PushCas? ==> pc.expected == s.head)
  }

  lemma {:induction false} StageStep(s0: State, s: State, me: nat, first: Step)
    requires Inv(s0) && Inv(s) && me < |s.threads| && !Ended(s.threads[me]) && Stage(s0, s, me, first)
    ensures Inv(After(s, me, Nothing())) && Stage(s0, After(s, me, Nothing()), me, first)
  {
    ChoiceExact(s, me, Nothing());
    StepInv(s, me, Choice(s, me, Nothing()));
    assert ThreadInv(s, me);
    if s.head == None { assert Nodes(s.stack) == []; }
    if s.head.Some? { assert Nodes(s.stack) != []; }
  }

  lemma {:induction false} UndisturbedNext(call: Call, n: nat)
    requires Inv(call.before) && call.Reaches(n + 1) && Undisturbed(call.turns)
    requires Inv(call.At(n)) && Stage(call.before, call.At(n), call.me, call.first)
    ensures Inv(call.At(n + 1)) && Stage(call.before, call.At(n + 1), call.me, call.first)
  {
    StageStep(call.before, call.At(n), call.me, call.first);
    assert TurnAt(call.turns, n) == Nothing();
    OneMore(Exec(call.before, call.me, call.first), call.me, call.turns, n);
  }

  lemma {:induction false} UndisturbedBegin(call: Call)
    requires Inv(call.before) && call.Possible()
    ensures Inv(call.At(0)) && Stage(call.before, call.At(0), call.me, call.first)
  {
    StepInv(call.before, call.me, call.first);
  }

  lemma {:induction false} UndisturbedAt(call: Call, n: nat)
    requires Inv(call.before) && call.Reaches(n) && Undisturbed(call.turns)
    ensures Inv(call.At(n)) && Stage(call.before, call.At(n), call.me, call.first)
  {
    if n == 0 {
      UndisturbedBegin(call);
    } else {
      UndisturbedAt(call, n - 1);
      UndisturbedNext(call, n - 1);
    }
  }

  /** An undisturbed call is the stack's operation: push puts its entry on top; a pop returns the top and
      takes it off, and on an empty stack pop_normal returns null, pop_vulnerable dereferences it. */
  lemma {:induction false} UndisturbedCall(call: Call, n: nat)
    requires Inv(call.before) && call.Returns(n) && Undisturbed(call.turns)
    ensures var s0, s, pc := call.before, call.At(n), call.At(n).threads[call.me];
            if call.first.BeginPush? then pc.Idle? && s.stack == [Entry(call.first.node, call.first.v)] + s0.stack
            else if s0.stack == [] then s.stack == [] && pc == if call.first.vuln then NullDereference else Idle(None)
            else pc == Idle(Some(s0.stack[0].node)) && s.stack == s0.stack[1..]
  {
    UndisturbedAt(call, n);
    HeadIsTop(call.before);
  }

  lemma {:induction false} HeadIsTop(s: State)
    requires Inv(s)
    ensures s.head == if s.stack == [] then None else Some(s.stack[0].node)
  {
    assert s.stack == [] <==> Nodes(s.stack) == [];
  }
}
