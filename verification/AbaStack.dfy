/** The intrusive lock-free stack, sequentially consistent, any number of threads: correct as long
    as no node is pushed twice; with reuse, exactly when it still is a stack, and the runs in which
    it is not. */
module AbaStack {
  import opened Common

  // Nodes are indices into the pool.
  datatype Entry = Entry(node: nat, value: int)

  /** The next access of a thread. A push's compare-exchange reads what it expects from node->next, an
      access of its own; when it fails the head that it found is stored there.
      vulnerable: the call is pop_vulnerable, which reads next, sleeps, and tries its CAS once. */
  datatype Pc =
    | Idle(got: Option<nat>)          // got: what the last pop returned
    | PushValue(node: nat, value: int)
    | PushLoad(node: nat, value: int)
    | PushNext(node: nat, value: int, link: Option<nat>)
    | PushExpect(node: nat, value: int)
    | PushCas(node: nat, value: int, expected: Option<nat>)
    | PopLoad(vulnerable: bool)
    | PopNext(vulnerable: bool, top: nat)
    | PopCas(vulnerable: bool, top: nat, next: Option<nat>)
    | NullDereference

  /** The pool's fields and head are the memory; stack is the abstract stack and returned what pops
      have returned, newest last; pusher says which thread pushed a node last. */
  datatype State = State(
    head: Option<nat>, next: seq<Option<nat>>, value: seq<int>, threads: seq<Pc>,
    stack: seq<Entry>, returned: seq<Entry>, pusher: map<nat, nat>)

  function Init(pool: nat, n: nat): State {
    State(None, seq(pool, i => None), seq(pool, i => 0), seq(n, i => Idle(None)), [], [], map[])
  }

  datatype Step = BeginPush(node: nat, v: int) | BeginPop(vuln: bool)
                | WriteValue | WriteNext | LoadHead | ReadNext | CasOk | CasFail

  function Nodes(es: seq<Entry>): seq<nat> { seq(|es|, i requires 0 <= i < |es| => es[i].node) }

  predicate Enabled(s: State, t: nat, a: Step) {
    t < |s.threads| && |s.value| == |s.next| &&
    var pc := s.threads[t];
    match a
    case BeginPush(n, _) => pc.Idle? && n < |s.next|
    case BeginPop(_) => pc.Idle?
    case WriteValue => pc.PushValue? && pc.node < |s.value|
    case WriteNext => pc.PushNext? && pc.node < |s.next|
    case LoadHead => pc.PushLoad? || pc.PopLoad?
    case ReadNext => (pc.PushExpect? && pc.node < |s.next|) || (pc.PopNext? && pc.top < |s.next|)
    case CasOk =>
      || (pc.PushCas? && s.head == pc.expected)
      || (pc.PopCas? && s.head == Some(pc.top) && pc.top < |s.value|)
    case CasFail =>          // weak ones may fail for no reason
      || pc.PushCas?
      || (pc.PopCas? && (pc.vulnerable ==> s.head != Some(pc.top)))
  }

  /** The pop loop's test on what it just read from head. */
  function Loaded(vulnerable: bool, head: Option<nat>): Pc {
    match head
    case Some(n) => PopNext(vulnerable, n)
    case None => if vulnerable then NullDereference else Idle(None)
  }

  function Exec(s: State, t: nat, a: Step): State
    requires Enabled(s, t, a)
  {
    var pc := s.threads[t];
    match a
    case BeginPush(n, v) => s.(threads := s.threads[t := PushValue(n, v)], pusher := s.pusher[n := t])
    case BeginPop(vuln) => s.(threads := s.threads[t := PopLoad(vuln)])
    case WriteValue => s.(value := s.value[pc.node := pc.value], threads := s.threads[t := PushLoad(pc.node, pc.value)])
    case WriteNext => s.(next := s.next[pc.node := pc.link], threads := s.threads[t := PushExpect(pc.node, pc.value)])
    case LoadHead =>
      s.(threads := s.threads[t := if pc.PushLoad? then PushNext(pc.node, pc.value, s.head)
                                   else Loaded(pc.vulnerable, s.head)])
    case ReadNext =>
      s.(threads := s.threads[t := if pc.PushExpect? then PushCas(pc.node, pc.value, s.next[pc.node])
                                   else PopCas(pc.vulnerable, pc.top, s.next[pc.top])])
    case CasOk =>
      if pc.PushCas? then
        s.(head := Some(pc.node), stack := [Entry(pc.node, pc.value)] + s.stack, threads := s.threads[t := Idle(None)])
      else
        s.(head := pc.next, stack := if s.stack == [] then [] else s.stack[1..],
           returned := s.returned + [Entry(pc.top, s.value[pc.top])], threads := s.threads[t := Idle(Some(pc.top))])
    case CasFail =>
      if pc.PushCas? then s.(threads := s.threads[t := PushNext(pc.node, pc.value, s.head)])
      else s.(threads := s.threads[t := if pc.vulnerable then Idle(None) else Loaded(false, s.head)])
  }

  datatype Label = Label(thread: nat, step: Step)

  predicate Legal(s: State, ls: seq<Label>)
    decreases |ls|
  {
    ls == [] || (Enabled(s, ls[0].thread, ls[0].step) && Legal(Exec(s, ls[0].thread, ls[0].step), ls[1..]))
  }

  function Run(s: State, ls: seq<Label>): State
    requires Legal(s, ls)
    decreases |ls|
  {
    if ls == [] then s else Run(Exec(s, ls[0].thread, ls[0].step), ls[1..])
  }

  /** What a program or a run may keep to, step by step. */
  datatype Rule =
    | Once                // no node is given to push twice
    | InstallsNext        // a pop that succeeds installs the next that its node still has
    | LinksToHead         // a push that succeeds installs a node whose next is the head it replaces
    | KeepsLinks          // a push that stores node->next of a node on the stack stores what is there already
    | Careful             // a node is given to push only while it is off the stack and nobody is pushing it
    | Unheld              // a node is given to push only while no pop holds it as the top it has read

  /** Nobody is pushing it. */
  predicate Unpushed(s: State, n: nat) { forall u | 0 <= u < |s.threads| :: !Pushing(s.threads[u], n) }

  predicate Holding(pc: Pc) { pc.PopNext? || pc.PopCas? }

  predicate Keeps(r: Rule, s: State, t: nat, a: Step)
    requires Enabled(s, t, a)
  {
    var pc := s.threads[t];
    match r
    case Once => a.BeginPush? ==> a.node !in s.pusher
    case InstallsNext => a.CasOk? && pc.PopCas? ==> pc.top < |s.next| && pc.next == s.next[pc.top]
    case LinksToHead => a.CasOk? && pc.PushCas? ==> pc.node < |s.next| && s.next[pc.node] == s.head
    case KeepsLinks => a.WriteNext? && pc.node in Nodes(s.stack) ==> pc.link == s.next[pc.node]
    case Careful => a.BeginPush? ==> a.node !in Nodes(s.stack) && Unpushed(s, a.node)
    case Unheld =>
      a.BeginPush? ==> forall u | 0 <= u < |s.threads| && Holding(s.threads[u]) :: s.threads[u].top != a.node
  }

  predicate Always(r: Rule, s: State, ls: seq<Label>)
    requires Legal(s, ls)
    decreases |ls|
  {
    ls == [] || (Keeps(r, s, ls[0].thread, ls[0].step) && Always(r, Exec(s, ls[0].thread, ls[0].step), ls[1..]))
  }

  // ---------------------------------------------------------------- the memory as a stack

  /** Following next from head visits exactly these nodes and ends: no cycle, nothing else. */
  ghost predicate Chain(next: seq<Option<nat>>, head: Option<nat>, ns: seq<nat>)
    decreases |ns|
  {
    if ns == [] then head == None
    else head == Some(ns[0]) && ns[0] < |next| && Chain(next, next[ns[0]], ns[1..])
  }

  lemma {:induction false} ChainFrame(next: seq<Option<nat>>, next': seq<Option<nat>>, head: Option<nat>, ns: seq<nat>)
    requires Chain(next, head, ns) && |next| == |next'|
    requires forall n | n in ns && n < |next| :: next'[n] == next[n]
    ensures Chain(next', head, ns)
    decreases |ns|
  {
    if ns != [] { ChainFrame(next, next', next[ns[0]], ns[1..]); }
  }

  /** The memory holds one stack only. */
  lemma {:induction false} ChainUnique(next: seq<Option<nat>>, head: Option<nat>, ns: seq<nat>, ms: seq<nat>)
    requires Chain(next, head, ns) && Chain(next, head, ms)
    ensures ns == ms
    decreases |ns|
  {
    if ns != [] && ms != [] { ChainUnique(next, next[ns[0]], ns[1..], ms[1..]); }
  }

  ghost predicate Distinct(ns: seq<nat>) { forall i, j | 0 <= i < j < |ns| :: ns[i] != ns[j] }

  /** Nodes whose push has succeeded. */
  ghost function Published(s: State): seq<nat> { Nodes(s.stack) + Nodes(s.returned) }

  predicate InPush(pc: Pc) { pc.PushValue? || ValueSet(pc) }

  /** It has stored node->value. */
  predicate ValueSet(pc: Pc) { pc.PushLoad? || pc.PushNext? || pc.PushExpect? || pc.PushCas? }

  predicate Pushing(pc: Pc, n: nat) { InPush(pc) && pc.node == n }

  ghost predicate ThreadInv(s: State, t: nat)
    requires t < |s.threads|
  {
    var pc := s.threads[t];
    && (InPush(pc) ==>
          && pc.node in s.pusher && s.pusher[pc.node] == t && pc.node !in Published(s) && pc.node < |s.value|
          && (ValueSet(pc) ==> s.value[pc.node] == pc.value)
          && (pc.PushCas? ==> pc.node < |s.next| && s.next[pc.node] == pc.expected))
    && (pc.PopNext? ==> pc.top in Published(s))
    && (pc.PopCas? ==> pc.top in Published(s) && pc.top < |s.next| && s.next[pc.top] == pc.next)
  }

  ghost predicate ValuesKept(s: State, es: seq<Entry>) {
    forall e | e in es :: e.node < |s.value| && s.value[e.node] == e.value
  }

  ghost predicate Inv(s: State) {
    && |s.next| == |s.value|
    && Chain(s.next, s.head, Nodes(s.stack))
    && Distinct(Published(s))
    && ValuesKept(s, s.stack) && ValuesKept(s, s.returned)
    && (forall n | n in Published(s) :: n in s.pusher)
    && (forall n | n in s.pusher ::
          n in Published(s) || (s.pusher[n] < |s.threads| && Pushing(s.threads[s.pusher[n]], n)))
    && (forall t: nat | t < |s.threads| :: ThreadInv(s, t))
  }

  /** What a push's CAS leaves: its node on top of what was there. */
  lemma {:induction false} PushLeaves(s: State, t: nat)
    requires Inv(s) && Enabled(s, t, CasOk) && s.threads[t].PushCas?
    ensures var s' := Exec(s, t, CasOk);
            && Published(s') == [s.threads[t].node] + Published(s) && Distinct(Published(s'))
            && Chain(s'.next, s'.head, Nodes(s'.stack))
            && ValuesKept(s', s'.stack)
  {
    var s' := Exec(s, t, CasOk);
    var n := s.threads[t].node;
    assert ThreadInv(s, t);
    assert Nodes(s'.stack) == [n] + Nodes(s.stack);
    assert Nodes(s'.stack)[1..] == Nodes(s.stack);
    assert Published(s') == [n] + Published(s);
  }

  lemma {:induction false} PushSucceeds(s: State, t: nat)
    requires Inv(s) && Enabled(s, t, CasOk) && s.threads[t].PushCas?
    ensures Inv(Exec(s, t, CasOk))
  {
    var s' := Exec(s, t, CasOk);
    PushLeaves(s, t);
    assert ThreadInv(s, t);
    forall u: nat | u < |s'.threads|
      ensures ThreadInv(s', u)
    {
      assert ThreadInv(s, u);
    }
  }

  /** What a pop's CAS finds: its node on top, with that node's own next. */
  lemma {:induction false} PopFinds(s: State, t: nat)
    requires Inv(s) && Enabled(s, t, CasOk) && s.threads[t].PopCas?
    ensures var s' := Exec(s, t, CasOk); var n := s.threads[t].top;
            && s.stack == [Entry(n, s.value[n])] + s'.stack
            && Nodes(s.stack) == [n] + Nodes(s'.stack) && Nodes(s'.returned) == Nodes(s.returned) + [n]
            && Chain(s'.next, s'.head, Nodes(s'.stack))
            && ValuesKept(s', s'.stack) && ValuesKept(s', s'.returned)
  {
    var s' := Exec(s, t, CasOk);
    assert ThreadInv(s, t);
    assert Nodes(s.stack) != [] && Nodes(s.stack)[0] == s.threads[t].top;
    assert s.stack[0] in s.stack;
    assert Nodes(s'.stack) == Nodes(s.stack)[1..];
    assert Nodes(s'.returned) == Nodes(s.returned) + [s.threads[t].top];
  }

  lemma {:induction false} PopSucceeds(s: State, t: nat)
    requires Inv(s) && Enabled(s, t, CasOk) && s.threads[t].PopCas?
    ensures Inv(Exec(s, t, CasOk))
    ensures s.stack == [Entry(s.threads[t].top, s.value[s.threads[t].top])] + Exec(s, t, CasOk).stack
  {
    var s' := Exec(s, t, CasOk);
    PopFinds(s, t);
    SameNodes(s, s', s.threads[t].top);
    SamePublished(s, s', t);
  }

  /** A step of a pop that keeps memory and published nodes matters to no thread. */
  lemma {:induction false} SamePublished(s: State, s': State, t: nat)
    requires Inv(s) && t < |s.threads| && |s'.threads| == |s.threads| && !InPush(s.threads[t]) && s'.threads[t].Idle?
    requires s'.threads == s.threads[t := s'.threads[t]]
    requires s'.next == s.next && s'.value == s.value && s'.pusher == s.pusher
    requires forall m :: m in Published(s') <==> m in Published(s)
    ensures forall n | n in Published(s') :: n in s'.pusher
    ensures forall n | n in s'.pusher ::
              n in Published(s') || (s'.pusher[n] < |s'.threads| && Pushing(s'.threads[s'.pusher[n]], n))
    ensures forall u: nat | u < |s'.threads| :: ThreadInv(s', u)
  {
    forall u: nat | u < |s'.threads|
      ensures ThreadInv(s', u)
    {
      if u != t { OtherThread(s, s', u); }
    }
  }

  /** A thread does not notice what leaves its nodes and what is published alone. */
  lemma {:induction false} OtherThread(s: State, s': State, u: nat)
    requires u < |s.threads| && u < |s'.threads| && s'.threads[u] == s.threads[u] && ThreadInv(s, u)
    requires s'.next == s.next && s'.value == s.value && s'.pusher == s.pusher
    requires forall m :: m in Published(s') <==> m in Published(s)
    ensures ThreadInv(s', u)
  {
  }

  lemma {:induction false} SameNodes(s: State, s': State, n: nat)
    requires Nodes(s.stack) == [n] + Nodes(s'.stack) && Nodes(s'.returned) == Nodes(s.returned) + [n]
    requires Distinct(Published(s))
    ensures Distinct(Published(s')) && forall m :: m in Published(s') <==> m in Published(s)
  {
    var a, b := Nodes(s'.stack), Nodes(s.returned);
    assert Published(s) == [n] + (a + b);
    assert Published(s') == (a + b) + [n];
    var c := a + b;
    forall i, j | 0 <= i < j < |c| + 1
      ensures (c + [n])[i] != (c + [n])[j]
    {
      assert Published(s)[i + 1] == c[i];
      if j < |c| { assert Published(s)[j + 1] == c[j]; } else { assert Published(s)[0] == n; }
    }
  }

  /** A step on a node still private to its pusher. */
  lemma {:induction false} PrivateStep(s: State, t: nat, a: Step)
    requires Inv(s) && Enabled(s, t, a)
    requires a.WriteValue? || a.WriteNext?
    ensures Inv(Exec(s, t, a))
  {
    var s' := Exec(s, t, a);
    assert ThreadInv(s, t);
    ChainFrame(s.next, s'.next, s.head, Nodes(s.stack));
    forall e | e in s.stack + s.returned
      ensures e.node != s.threads[t].node
    {
      InNodes(s, e);
    }
    forall u: nat | u < |s'.threads|
      ensures ThreadInv(s', u)
    {
      assert ThreadInv(s, u);
    }
  }

  lemma {:induction false} InNodes(s: State, e: Entry)
    requires e in s.stack + s.returned
    ensures e.node in Published(s)
  {
    var i :| 0 <= i < |s.stack + s.returned| && (s.stack + s.returned)[i] == e;
    assert Published(s)[i] == e.node;
  }

  lemma {:induction false} TopPublished(s: State)
    requires Inv(s) && s.head.Some?
    ensures s.head.value in Published(s) && s.head.value < |s.next|
  {
    assert Nodes(s.stack)[0] == s.head.value;
    assert Published(s)[0] == s.head.value;
  }

  lemma {:induction false} PoolBound(s: State, n: nat)
    requires Inv(s) && n in Published(s)
    ensures n < |s.next|
  {
    var i :| 0 <= i < |Published(s)| && Published(s)[i] == n;
    if i < |s.stack| { assert s.stack[i] in s.stack; } else { assert s.returned[i - |s.stack|] in s.returned; }
  }

  /** A step that only moves its thread's program counter. */
  lemma {:induction false} ReadingStep(s: State, t: nat, a: Step)
    requires Inv(s) && Enabled(s, t, a)
    requires a.BeginPop? || a.LoadHead? || a.ReadNext? || a.CasFail?
    ensures Inv(Exec(s, t, a))
  {
    var s' := Exec(s, t, a);
    ReadingThread(s, t, a);
    forall u: nat | u < |s'.threads|
      ensures ThreadInv(s', u)
    {
      if u != t { OtherThread(s, s', u); }
    }
  }

  lemma {:induction false} ReadingThread(s: State, t: nat, a: Step)
    requires Inv(s) && Enabled(s, t, a)
    requires a.BeginPop? || a.LoadHead? || a.ReadNext? || a.CasFail?
    ensures var s' := Exec(s, t, a);
            && ThreadInv(s', t) && s' == s.(threads := s.threads[t := s'.threads[t]])
            && (InPush(s.threads[t]) <==> InPush(s'.threads[t]))
            && (InPush(s.threads[t]) ==> s'.threads[t].node == s.threads[t].node)
  {
    assert ThreadInv(s, t);
    if s.head.Some? { TopPublished(s); }
  }

  lemma {:induction false} BeginPushStep(s: State, t: nat, n: nat, v: int)
    requires Inv(s) && Enabled(s, t, BeginPush(n, v)) && n !in s.pusher
    ensures Inv(Exec(s, t, BeginPush(n, v)))
  {
    var s' := Exec(s, t, BeginPush(n, v));
    forall u: nat | u < |s'.threads|
      ensures ThreadInv(s', u)
    {
      assert ThreadInv(s, u);
    }
  }

  lemma {:induction false} StepInv(s: State, t: nat, a: Step)
    requires Inv(s) && Enabled(s, t, a) && Keeps(Once, s, t, a)
    ensures Inv(Exec(s, t, a))
  {
    match a
    case BeginPush(n, v) => BeginPushStep(s, t, n, v);
    case CasOk => if s.threads[t].PushCas? { PushSucceeds(s, t); } else { PopSucceeds(s, t); }
    case WriteValue => PrivateStep(s, t, a);
    case WriteNext => PrivateStep(s, t, a);
    case _ => ReadingStep(s, t, a);
  }

  lemma {:induction false} RunInv(s: State, ls: seq<Label>)
    requires Inv(s) && Legal(s, ls) && Always(Once, s, ls)
    ensures Inv(Run(s, ls))
    decreases |ls|
  {
    if ls != [] {
      StepInv(s, ls[0].thread, ls[0].step);
      RunInv(Exec(s, ls[0].thread, ls[0].step), ls[1..]);
    }
  }

  /** Without reuse, in every run of any number of threads: the memory is the abstract stack, no node
      is returned twice or returned while on the stack, and every node given to push is on the
      stack, returned, or still held by the one thread that pushes it. */
  lemma {:induction false} EveryRun(pool: nat, n: nat, ls: seq<Label>)
    requires Legal(Init(pool, n), ls) && Always(Once, Init(pool, n), ls)
    ensures var s := Run(Init(pool, n), ls);
            && Chain(s.next, s.head, Nodes(s.stack))
            && Distinct(Nodes(s.stack) + Nodes(s.returned))
            && forall m | m in s.pusher ::
                 m in Nodes(s.stack) + Nodes(s.returned) ||
                   (s.pusher[m] < |s.threads| && Pushing(s.threads[s.pusher[m]], m))
  {
    RunInv(Init(pool, n), ls);
  }

  /** Without reuse every operation takes effect on the abstract stack at its successful CAS, or at
      the read of a null head: a pop takes the top with the value it was pushed with, and a pop
      that returns null found the stack empty. pop_vulnerable is no exception. */
  lemma {:induction false} Linearises(s: State, t: nat, a: Step)
    requires Inv(s) && Enabled(s, t, a)
    ensures var s' := Exec(s, t, a); var pc := s.threads[t];
            && (a.CasOk? && pc.PushCas? ==> s'.stack == [Entry(pc.node, pc.value)] + s.stack)
            && (a.CasOk? && pc.PopCas? ==> pc.top < |s.value| && s.stack == [Entry(pc.top, s.value[pc.top])] + s'.stack)
            && (!a.CasOk? ==> s'.stack == s.stack)
            && (!pc.Idle? && !a.CasOk? && s'.threads[t].Idle? ==> s.stack == [] || (pc.PopCas? && pc.vulnerable))
  {
    if a.CasOk? && s.threads[t].PopCas? { PopSucceeds(s, t); }
    if s.head.None? { assert Nodes(s.stack) == []; }
  }

  // ---------------------------------------------------------------- what calls return

  /** How a call ends, in every state, nodes reused or not: a pop whose compare-exchange succeeds returns
      the node that was on top, which is the one recorded as taken, with the value it has then; a
      pop that ends otherwise returns null, having read a null head, or, in pop_vulnerable, having
      found head changed; a push returns nothing. */
  lemma {:induction false} CallEnds(s: State, t: nat, a: Step)
    requires Enabled(s, t, a)
    ensures var pc, s', pc' := s.threads[t], Exec(s, t, a), Exec(s, t, a).threads[t];
            if pc.PopCas? && a.CasOk? then
              && pc' == Idle(s.head) && pc.top < |s.value|
              && s'.returned == s.returned + [Entry(pc.top, s.value[pc.top])] && s.head == Some(pc.top)
            else
              && s'.returned == s.returned
              && (!pc.Idle? && pc'.Idle? ==>
                    && pc' == Idle(None)
                    && (a.CasOk? || s.head == None || (pc.PopCas? && pc.vulnerable && s.head != Some(pc.top))))
  {
  }

  /** The nodes that the calls of a run return, in the order they return. */
  function Results(s: State, ls: seq<Label>): seq<nat>
    requires Legal(s, ls)
    decreases |ls|
  {
    if ls == [] then [] else
    var t, s' := ls[0].thread, Exec(s, ls[0].thread, ls[0].step);
    (if !s.threads[t].Idle? && s'.threads[t].Idle? && s'.threads[t].got.Some? then [s'.threads[t].got.value] else [])
      + Results(s', ls[1..])
  }

  /** In every run, with any reuse, the nodes recorded as taken are the nodes that pops have returned. */
  lemma {:induction false} ReturnedAreResults(s: State, ls: seq<Label>)
    requires Legal(s, ls)
    ensures Nodes(Run(s, ls).returned) == Nodes(s.returned) + Results(s, ls)
    decreases |ls|
  {
    if ls != [] {
      var s' := Exec(s, ls[0].thread, ls[0].step);
      CallEnds(s, ls[0].thread, ls[0].step);
      ReturnedAreResults(s', ls[1..]);
      var e := Results(s, ls)[..|Results(s, ls)| - |Results(s', ls[1..])|];
      assert Results(s, ls) == e + Results(s', ls[1..]);
      assert Nodes(s'.returned) == Nodes(s.returned) + e;
    }
  }

  // ---------------------------------------------------------------- reuse

  /** Memory and abstract stack are one. */
  ghost predicate Agrees(s: State) { Chain(s.next, s.head, Nodes(s.stack)) }

  ghost predicate AlwaysAgrees(s: State, ls: seq<Label>)
    requires Legal(s, ls)
    decreases |ls|
  {
    Agrees(s) && (ls == [] || AlwaysAgrees(Exec(s, ls[0].thread, ls[0].step), ls[1..]))
  }

  /** A chain visits no node twice: what follows a node is fixed, so a second visit would never end. */
  lemma {:induction false} ChainDistinct(next: seq<Option<nat>>, head: Option<nat>, ns: seq<nat>)
    requires Chain(next, head, ns)
    ensures Distinct(ns)
    decreases |ns|
  {
    if ns != [] {
      ChainDistinct(next, next[ns[0]], ns[1..]);
      forall j | 1 <= j < |ns|
        ensures ns[0] != ns[j]
      {
        ChainFrom(next, head, ns, j);
        if ns[0] == ns[j] { ChainUnique(next, head, ns, ns[j..]); }
      }
      forall i, j | 0 <= i < j < |ns|
        ensures ns[i] != ns[j]
      {
        if i > 0 { assert ns[1..][i - 1] != ns[1..][j - 1]; }
      }
    }
  }

  lemma {:induction false} ChainFrom(next: seq<Option<nat>>, head: Option<nat>, ns: seq<nat>, j: nat)
    requires Chain(next, head, ns) && j < |ns|
    ensures Chain(next, Some(ns[j]), ns[j..])
    decreases j
  {
    if j > 0 {
      ChainFrom(next, next[ns[0]], ns[1..], j - 1);
      assert ns[1..][j - 1..] == ns[j..];
    }
  }

  /** Writing into a chain's own node a link back to its head leaves no chain at all: from the node
      one comes back to it. */
  lemma {:induction false} LinkedBack(
    next: seq<Option<nat>>, head: Option<nat>, was: seq<nat>, next': seq<Option<nat>>, n: nat, ns: seq<nat>)
    requires Chain(next, head, was) && n in was && n < |next|
    requires next' == next[n := head]
    ensures !Chain(next', Some(n), ns) && !Chain(next', head, ns)
    decreases |ns|
  {
    var k :| 0 <= k < |was| && was[k] == n;
    ChainDistinct(next, head, was);
    if Chain(next', head, ns) {
      Segment(next, head, was, next', k, ns);
      LinkedBack(next, head, was, next', n, ns[k + 1..]);
    } else if Chain(next', Some(n), ns) {
      LinkedBack(next, head, was, next', n, ns[1..]);
    }
  }

  /** The nodes above the k-th are where they were. */
  lemma {:induction false} Segment(
    next: seq<Option<nat>>, head: Option<nat>, was: seq<nat>, next': seq<Option<nat>>, k: nat, ns: seq<nat>)
    requires Chain(next, head, was) && k < |was| && |next'| == |next| && Chain(next', head, ns)
    requires forall i | 0 <= i < k && was[i] < |next| :: next'[was[i]] == next[was[i]]
    ensures k < |ns| && ns[k] == was[k] && was[k] < |next'| && Chain(next', next'[was[k]], ns[k + 1..])
    decreases k
  {
    if k > 0 {
      forall i | 0 <= i < k - 1 && was[1..][i] < |next|
        ensures next'[was[1..][i]] == next[was[1..][i]]
      {
        assert was[1..][i] == was[i + 1];
      }
      Segment(next, next[was[0]], was[1..], next', k - 1, ns[1..]);
      assert ns[1..][k..] == ns[k + 1..];
    }
  }

  lemma {:induction false} SameHead(
    next: seq<Option<nat>>, head: Option<nat>, next': seq<Option<nat>>, head': Option<nat>, ns: seq<nat>)
    requires Chain(next, head, ns) && Chain(next', head', ns)
    ensures head == head'
  {
  }

  /** What a pop's successful compare-exchange does to the agreement: it survives exactly when the
      next it read is still the node's next. Holding the top's address is not enough. */
  lemma {:induction false} PopCasExact(s: State, t: nat)
    requires Agrees(s) && Enabled(s, t, CasOk) && s.threads[t].PopCas?
    ensures Agrees(Exec(s, t, CasOk)) <==> Keeps(InstallsNext, s, t, CasOk)
  {
    var s' := Exec(s, t, CasOk);
    assert Nodes(s.stack) != [] && Nodes(s.stack)[0] == s.threads[t].top;
    assert Nodes(s'.stack) == Nodes(s.stack)[1..];
    assert Chain(s.next, s.next[s.threads[t].top], Nodes(s'.stack));
  }

  /** A push's, exactly when its node is linked to the head that it replaces. */
  lemma {:induction false} PushCasExact(s: State, t: nat)
    requires Agrees(s) && Enabled(s, t, CasOk) && s.threads[t].PushCas?
    ensures Agrees(Exec(s, t, CasOk)) <==> Keeps(LinksToHead, s, t, CasOk)
  {
    var n, s' := s.threads[t].node, Exec(s, t, CasOk);
    assert Nodes(s'.stack)[0] == n && Nodes(s'.stack)[1..] == Nodes(s.stack);
    if Agrees(s') { SameHead(s.next, s.head, s.next, s.next[n], Nodes(s.stack)); }
  }

  /** A push's store of node->next, exactly when the node is off the stack or has that next already. */
  lemma {:induction false} PushWriteExact(s: State, t: nat)
    requires Agrees(s) && Enabled(s, t, WriteNext)
    ensures Agrees(Exec(s, t, WriteNext)) <==> Keeps(KeepsLinks, s, t, WriteNext)
  {
    var n, s', ns := s.threads[t].node, Exec(s, t, WriteNext), Nodes(s.stack);
    if n !in ns {
      ChainFrame(s.next, s'.next, s.head, ns);
    } else if s.threads[t].link == s.next[n] {
      assert s'.next == s.next;
    } else if Agrees(s') {
      var k :| 0 <= k < |ns| && ns[k] == n;
      ChainFrom(s.next, s.head, ns, k);
      ChainFrom(s'.next, s.head, ns, k);
      SameHead(s.next, s.next[n], s'.next, s'.next[n], ns[k..][1..]);
    }
  }

  lemma {:induction false} StepAgreesExact(s: State, t: nat, a: Step)
    requires Agrees(s) && Enabled(s, t, a)
    ensures Agrees(Exec(s, t, a)) <==>
              Keeps(InstallsNext, s, t, a) && Keeps(LinksToHead, s, t, a) && Keeps(KeepsLinks, s, t, a)
  {
    if a.CasOk? {
      if s.threads[t].PopCas? { PopCasExact(s, t); } else { PushCasExact(s, t); }
    } else if a.WriteNext? {
      PushWriteExact(s, t);
    }
  }

  /** Exactly when the stack is a stack, for every run of every program, nodes reused or not and
      pushed by one thread or by several at once: at every moment memory and abstract stack agree
      if and only if every pop that succeeds installs the next its node still has, every push that
      succeeds has its node linked to the head, and no push changes the next of a node on the stack. */
  lemma {:induction false} RunAgreesExact(s: State, ls: seq<Label>)
    requires Agrees(s) && Legal(s, ls)
    ensures AlwaysAgrees(s, ls) <==>
              Always(InstallsNext, s, ls) && Always(LinksToHead, s, ls) && Always(KeepsLinks, s, ls)
    decreases |ls|
  {
    if ls != [] {
      StepAgreesExact(s, ls[0].thread, ls[0].step);
      if Agrees(Exec(s, ls[0].thread, ls[0].step)) { RunAgreesExact(Exec(s, ls[0].thread, ls[0].step), ls[1..]); }
    }
  }

  /** Nodes being pushed are off the stack, in the pool, and each pushed by one thread; what is on
      the stack holds the value it was pushed with. */
  ghost predicate ReuseInv(s: State) {
    && Agrees(s) && |s.next| == |s.value|
    && ValuesKept(s, s.stack)
    && (forall t | 0 <= t < |s.threads| && InPush(s.threads[t]) ::
          s.threads[t].node !in Nodes(s.stack) && s.threads[t].node < |s.next|)
    && (forall t, u | 0 <= t < u < |s.threads| && InPush(s.threads[t]) && InPush(s.threads[u]) ::
          s.threads[t].node != s.threads[u].node)
    && (forall t | 0 <= t < |s.threads| && ValueSet(s.threads[t]) ::
          s.threads[t].node < |s.value| && s.value[s.threads[t].node] == s.threads[t].value)
    && (forall t | 0 <= t < |s.threads| && s.threads[t].PushCas? ::
          s.threads[t].node < |s.next| && s.next[s.threads[t].node] == s.threads[t].expected)
  }

  lemma {:induction false} ReuseInit(pool: nat, n: nat)
    ensures ReuseInv(Init(pool, n))
  {
  }

  lemma {:induction false} ReuseClaim(s: State, t: nat)
    requires ReuseInv(s) && Enabled(s, t, CasOk) && Keeps(InstallsNext, s, t, CasOk)
    ensures ReuseInv(Exec(s, t, CasOk))
  {
    var s' := Exec(s, t, CasOk);
    StepAgreesExact(s, t, CasOk);
    if s.threads[t].PushCas? {
      assert Nodes(s'.stack) == [s.threads[t].node] + Nodes(s.stack);
    } else {
      assert Nodes(s'.stack) == Nodes(s.stack)[1..];
    }
  }

  lemma {:induction false} ReuseWrite(s: State, t: nat, a: Step)
    requires ReuseInv(s) && Enabled(s, t, a) && (a.WriteValue? || a.WriteNext?)
    ensures ReuseInv(Exec(s, t, a))
  {
    StepAgreesExact(s, t, a);
    forall e | e in s.stack
      ensures e.node in Nodes(s.stack)
    {
      var i :| 0 <= i < |s.stack| && s.stack[i] == e;
      assert Nodes(s.stack)[i] == e.node;
    }
  }

  lemma {:induction false} ReuseRead(s: State, t: nat, a: Step)
    requires ReuseInv(s) && Enabled(s, t, a) && InPush(s.threads[t]) && (a.LoadHead? || a.ReadNext? || a.CasFail?)
    ensures ReuseInv(Exec(s, t, a))
  {
  }

  lemma {:induction false} ReuseBegin(s: State, t: nat, a: Step)
    requires ReuseInv(s) && Enabled(s, t, a) && a.BeginPush? && Keeps(Careful, s, t, a)
    ensures ReuseInv(Exec(s, t, a))
  {
  }

  /** A thread that was and is not pushing matters to none of this. */
  lemma {:induction false} ReuseNotPushing(s: State, t: nat, pc: Pc)
    requires ReuseInv(s) && t < |s.threads| && !InPush(s.threads[t]) && !InPush(pc)
    ensures ReuseInv(s.(threads := s.threads[t := pc]))
  {
  }

  lemma {:induction false} ReuseStep(s: State, t: nat, a: Step)
    requires ReuseInv(s) && Enabled(s, t, a) && Keeps(Careful, s, t, a) && Keeps(InstallsNext, s, t, a)
    ensures ReuseInv(Exec(s, t, a))
  {
    if a.CasOk? {
      ReuseClaim(s, t);
    } else if a.WriteValue? || a.WriteNext? {
      ReuseWrite(s, t, a);
    } else if a.BeginPush? {
      ReuseBegin(s, t, a);
    } else if InPush(s.threads[t]) {
      ReuseRead(s, t, a);
    } else {
      ReuseNotPushing(s, t, Exec(s, t, a).threads[t]);
    }
  }

  /** A pop whose next is current takes the top with the value it was last pushed with, also when the
      node has been on the stack before. */
  lemma {:induction false} ReusedPop(s: State, t: nat)
    requires ReuseInv(s) && Enabled(s, t, CasOk) && s.threads[t].PopCas?
    ensures s.stack == [Entry(s.threads[t].top, s.value[s.threads[t].top])] + Exec(s, t, CasOk).stack
  {
    assert Nodes(s.stack) != [] && Nodes(s.stack)[0] == s.threads[t].top;
    assert s.stack[0] in s.stack;
  }

  /** For programs that are careful the pops alone decide: the stack is a stack at every moment if
      and only if every pop that succeeds installs a current next. */
  lemma {:induction false} CarefulRunsExact(s: State, ls: seq<Label>)
    requires ReuseInv(s) && Legal(s, ls) && Always(Careful, s, ls)
    ensures AlwaysAgrees(s, ls) <==> Always(InstallsNext, s, ls)
    ensures Always(InstallsNext, s, ls) ==> ReuseInv(Run(s, ls))
    decreases |ls|
  {
    if ls != [] {
      var t, a := ls[0].thread, ls[0].step;
      StepAgreesExact(s, t, a);
      if Keeps(InstallsNext, s, t, a) {
        ReuseStep(s, t, a);
        CarefulRunsExact(Exec(s, t, a), ls[1..]);
      } else {
        assert !Agrees(Exec(s, t, a));
      }
    }
  }

  /** What a pop holds is not being pushed, so its next stays what it was when it was read. */
  ghost predicate HeldInv(s: State) {
    && (forall t, u | 0 <= t < |s.threads| && 0 <= u < |s.threads| && Holding(s.threads[t]) && InPush(s.threads[u]) ::
          s.threads[t].top != s.threads[u].node)
    && (forall t | 0 <= t < |s.threads| && s.threads[t].PopCas? ::
          s.threads[t].top < |s.next| && s.threads[t].next == s.next[s.threads[t].top])
  }

  lemma {:induction false} HeldLoad(s: State, t: nat, a: Step)
    requires ReuseInv(s) && HeldInv(s) && Enabled(s, t, a) && !InPush(s.threads[t]) && (a.LoadHead? || a.CasFail?)
    ensures HeldInv(Exec(s, t, a))
  {
    if s.head.Some? { assert Nodes(s.stack)[0] == s.head.value; }
  }

  lemma {:induction false} HeldPush(s: State, t: nat, a: Step)
    requires ReuseInv(s) && HeldInv(s) && Enabled(s, t, a) && InPush(s.threads[t])
    ensures HeldInv(Exec(s, t, a))
  {
  }

  lemma {:induction false} HeldStep(s: State, t: nat, a: Step)
    requires ReuseInv(s) && HeldInv(s) && Enabled(s, t, a) && Keeps(Unheld, s, t, a)
    ensures HeldInv(Exec(s, t, a)) && Keeps(InstallsNext, s, t, a)
  {
    if InPush(s.threads[t]) {
      HeldPush(s, t, a);
    } else if a.LoadHead? || a.CasFail? {
      HeldLoad(s, t, a);
    }
  }

  lemma {:induction false} HazardRun(s: State, ls: seq<Label>)
    requires ReuseInv(s) && HeldInv(s) && Legal(s, ls) && Always(Careful, s, ls) && Always(Unheld, s, ls)
    ensures AlwaysAgrees(s, ls)
    decreases |ls|
  {
    if ls != [] {
      HeldStep(s, ls[0].thread, ls[0].step);
      ReuseStep(s, ls[0].thread, ls[0].step);
      HazardRun(Exec(s, ls[0].thread, ls[0].step), ls[1..]);
    }
  }

  /** A rule that the caller of push can keep: nodes may be reused in every run, as long as a node is
      given to push only while it is off the stack, nobody is pushing it and no pop holds it. */
  lemma {:induction false} HazardRule(pool: nat, n: nat, ls: seq<Label>)
    requires Legal(Init(pool, n), ls) && Always(Careful, Init(pool, n), ls) && Always(Unheld, Init(pool, n), ls)
    ensures AlwaysAgrees(Init(pool, n), ls)
  {
    ReuseInit(pool, n);
    HazardRun(Init(pool, n), ls);
  }

  lemma {:induction false} RunAppend(s: State, a: seq<Label>, b: seq<Label>)
    requires Legal(s, a) && Legal(Run(s, a), b)
    ensures Legal(s, a + b) && Run(s, a + b) == Run(Run(s, a), b)
    ensures forall r :: Always(r, s, a) && Always(r, Run(s, a), b) ==> Always(r, s, a + b)
    decreases |a|
  {
    if a == [] {
      assert a + b == b;
    } else {
      assert (a + b)[1..] == a[1..] + b;
      RunAppend(Exec(s, a[0].thread, a[0].step), a[1..], b);
    }
  }

  lemma {:induction false} First(s: State, t: nat, a: Step, rest: seq<Label>)
    requires Enabled(s, t, a) && Legal(Exec(s, t, a), rest)
    ensures var ls := [Label(t, a)] + rest; Legal(s, ls) && Run(s, ls) == Run(Exec(s, t, a), rest)
    ensures forall r :: Always(r, Exec(s, t, a), rest) && Keeps(r, s, t, a) ==> Always(r, s, [Label(t, a)] + rest)
  {
    assert ([Label(t, a)] + rest)[1..] == rest;
  }

  lemma {:induction false} PushLoads(s: State, t: nat, n: nat, v: int) returns (ls: seq<Label>)
    requires |s.next| == |s.value| && t < |s.threads| && s.threads[t].Idle? && n < |s.next|
    ensures Legal(s, ls)
    ensures Run(s, ls) == s.(value := s.value[n := v],
                             threads := s.threads[t := PushNext(n, v, s.head)], pusher := s.pusher[n := t])
    ensures forall r :: Keeps(r, s, t, BeginPush(n, v)) ==> Always(r, s, ls)
  {
    var s1 := Exec(s, t, BeginPush(n, v));
    var s2 := Exec(s1, t, WriteValue);
    ls := [];
    First(s2, t, LoadHead, ls);
    ls := [Label(t, LoadHead)] + ls;
    First(s1, t, WriteValue, ls);
    ls := [Label(t, WriteValue)] + ls;
    First(s, t, BeginPush(n, v), ls);
    ls := [Label(t, BeginPush(n, v))] + ls;
  }

  /** The steps of a push up to its compare-exchange. */
  lemma {:induction false} PushPrepares(s: State, t: nat, n: nat, v: int) returns (ls: seq<Label>)
    requires |s.next| == |s.value| && t < |s.threads| && s.threads[t].Idle? && n < |s.next|
    ensures Legal(s, ls)
    ensures Run(s, ls) == s.(next := s.next[n := s.head], value := s.value[n := v],
                             threads := s.threads[t := PushCas(n, v, s.head)], pusher := s.pusher[n := t])
    ensures forall r :: r != KeepsLinks && Keeps(r, s, t, BeginPush(n, v)) ==> Always(r, s, ls)
  {
    var a := PushLoads(s, t, n, v);
    var s1 := Run(s, a);
    var s2 := Exec(s1, t, WriteNext);
    First(s2, t, ReadNext, []);
    First(s1, t, WriteNext, [Label(t, ReadNext)] + []);
    var b := [Label(t, WriteNext)] + ([Label(t, ReadNext)] + []);
    RunAppend(s, a, b);
    ls := a + b;
  }

  lemma {:induction false} PushTurn(s: State, t: nat, n: nat, v: int) returns (ls: seq<Label>)
    requires |s.next| == |s.value| && t < |s.threads| && s.threads[t].Idle? && n < |s.next|
    ensures Legal(s, ls)
    ensures Run(s, ls) == s.(head := Some(n), next := s.next[n := s.head], value := s.value[n := v],
                             threads := s.threads[t := Idle(None)],
                             stack := [Entry(n, v)] + s.stack, pusher := s.pusher[n := t])
    ensures forall r :: r != KeepsLinks && Keeps(r, s, t, BeginPush(n, v)) ==> Always(r, s, ls)
  {
    var a := PushPrepares(s, t, n, v);
    First(Run(s, a), t, CasOk, []);
    RunAppend(s, a, [Label(t, CasOk)] + []);
    ls := a + ([Label(t, CasOk)] + []);
  }

  /** The first three steps of a pop: it now holds the top and the top's next. */
  lemma {:induction false} PopReads(s: State, t: nat, vuln: bool) returns (ls: seq<Label>)
    requires |s.next| == |s.value| && t < |s.threads| && s.threads[t].Idle? && s.head.Some? && s.head.value < |s.next|
    ensures Legal(s, ls)
    ensures Run(s, ls) == s.(threads := s.threads[t := PopCas(vuln, s.head.value, s.next[s.head.value])])
    ensures Always(Careful, s, ls) && Always(Unheld, s, ls)
  {
    var s1 := Exec(s, t, BeginPop(vuln));
    var s2 := Exec(s1, t, LoadHead);
    ls := [];
    First(s2, t, ReadNext, ls);
    ls := [Label(t, ReadNext)] + ls;
    First(s1, t, LoadHead, ls);
    ls := [Label(t, LoadHead)] + ls;
    First(s, t, BeginPop(vuln), ls);
    ls := [Label(t, BeginPop(vuln))] + ls;
  }

  lemma {:induction false} PopTurn(s: State, t: nat) returns (ls: seq<Label>)
    requires |s.next| == |s.value| && t < |s.threads| && s.threads[t].Idle? && s.head.Some? && s.head.value < |s.next|
    requires s.stack != []
    ensures Legal(s, ls)
    ensures Run(s, ls) == s.(head := s.next[s.head.value], stack := s.stack[1..],
                             returned := s.returned + [Entry(s.head.value, s.value[s.head.value])],
                             threads := s.threads[t := Idle(s.head)])
    ensures Always(Careful, s, ls) && Always(Unheld, s, ls)
  {
    var a := PopReads(s, t, false);
    First(Run(s, a), t, CasOk, []);
    RunAppend(s, a, [Label(t, CasOk)] + []);
    ls := a + ([Label(t, CasOk)] + []);
  }

  lemma {:induction false} PopPushTurns(s: State, t: nat) returns (ls: seq<Label>)
    requires |s.next| == |s.value| && t < |s.threads| && s.threads[t].Idle? && |s.stack| >= 2
    requires s.head.Some? && s.head.value < |s.next|
    requires s.next[s.head.value].Some? && s.next[s.head.value].value < |s.next| && s.next[s.head.value] != s.head
    ensures Legal(s, ls)
    ensures var a := s.head.value; var b := s.next[a].value; var s' := Run(s, ls);
            && s' == s.(head := Some(a), next := s.next[a := s.next[b]], stack := [Entry(a, s.value[a])] + s.stack[2..],
                        returned := s.returned + [Entry(a, s.value[a]), Entry(b, s.value[b])],
                        threads := s.threads[t := Idle(None)], pusher := s.pusher[a := t])
    ensures s.head.value !in Nodes(s.stack[2..]) && Unpushed(s, s.head.value) ==> Always(Careful, s, ls)
  {
    var a := s.head.value;
    var l1 := PopTurn(s, t);
    var s1 := Run(s, l1);
    var l2 := PopTurn(s1, t);
    var s2 := Run(s1, l2);
    var l3 := PushTurn(s2, t, a, s.value[a]);
    RunAppend(s1, l2, l3);
    RunAppend(s, l1, l2 + l3);
    ls := l1 + (l2 + l3);
    assert s.value[a := s.value[a]] == s.value;
    assert s2.stack == s.stack[2..];
  }

  lemma {:induction false} NobodyPushes(s: State, i: nat)
    requires Inv(s) && i < |s.stack|
    ensures Unpushed(s, s.stack[i].node)
  {
    assert Published(s)[i] == s.stack[i].node;
    forall u | 0 <= u < |s.threads|
      ensures !Pushing(s.threads[u], s.stack[i].node)
    {
      assert ThreadInv(s, u);
    }
  }

  /** The first two nodes in memory. */
  lemma {:induction false} TopTwo(s: State)
    requires Inv(s) && |s.stack| >= 2
    ensures var a, b := s.stack[0], s.stack[1];
            && a.node < |s.next| && b.node < |s.next| && a.node != b.node
            && s.head == Some(a.node) && s.next[a.node] == Some(b.node)
            && s.value[a.node] == a.value && s.value[b.node] == b.value
            && Chain(s.next, Some(b.node), [b.node] + Nodes(s.stack[2..]))
            && a.node !in [b.node] + Nodes(s.stack[2..])
  {
    var a, b := s.stack[0], s.stack[1];
    assert a in s.stack && b in s.stack;
    var below := [b.node] + Nodes(s.stack[2..]);
    assert Nodes(s.stack) == [a.node] + below;
    assert Nodes(s.stack)[1..] == below;
    DistinctTail(a.node, below + Nodes(s.returned)) by {
      assert Published(s) == [a.node] + (below + Nodes(s.returned));
    }
    assert Chain(s.next, s.next[a.node], below);
  }

  lemma {:induction false} DistinctTail(n: nat, ns: seq<nat>)
    requires Distinct([n] + ns)
    ensures Distinct(ns) && n !in ns
  {
    assert forall i | 0 <= i < |ns| :: ([n] + ns)[i + 1] == ns[i];
    assert ([n] + ns)[0] == n;
  }

  /** Pushing a node that is still on the stack, anywhere on it, needs no second thread and no pop:
      after that one push the memory is no stack at all, but goes round for ever. */
  lemma {:induction false} PushTwice(s: State, t: nat, n: nat, v: int) returns (ls: seq<Label>)
    requires Agrees(s) && |s.next| == |s.value| && t < |s.threads| && s.threads[t].Idle?
    requires n in Nodes(s.stack) && n < |s.next|
    ensures Legal(s, ls) && Always(InstallsNext, s, ls) && Always(LinksToHead, s, ls)
    ensures forall ns :: !Chain(Run(s, ls).next, Run(s, ls).head, ns)
  {
    ls := PushTurn(s, t, n, v);
    var s' := Run(s, ls);
    forall ns
      ensures !Chain(s'.next, s'.head, ns)
    {
      LinkedBack(s.next, s.head, Nodes(s.stack), s'.next, n, ns);
    }
  }

  lemma {:induction false} TwoPushersRun(s: State, t1: nat, t2: nat, n: nat, m: nat, v: int) returns (ls: seq<Label>)
    requires |s.next| == |s.value| && t1 < |s.threads| && t2 < |s.threads| && t1 != t2
    requires s.threads[t1].Idle? && s.threads[t2].Idle? && n < |s.next| && m < |s.next| && n != m
    ensures Legal(s, ls)
    ensures var s' := Run(s, ls);
            && s'.stack == [Entry(n, v), Entry(m, v)] + s.stack && s'.returned == s.returned
            && s'.head == Some(n) && s'.next == s.next[m := s.head][n := Some(m)][n := s.head]
  {
    var l1 := PushLoads(s, t1, n, v);
    var s1 := Run(s, l1);
    var l2 := PushTurn(s1, t2, m, v);
    var s2 := Run(s1, l2);
    var l3 := PushPrepares(s2, t2, n, v);
    var s3 := Run(s2, l3);
    First(Exec(s3, t1, WriteNext), t2, CasOk, []);
    First(s3, t1, WriteNext, [Label(t2, CasOk)] + []);
    var l4 := [Label(t1, WriteNext)] + ([Label(t2, CasOk)] + []);
    RunAppend(s2, l3, l4);
    RunAppend(s1, l2, l3 + l4);
    RunAppend(s, l1, l2 + (l3 + l4));
    ls := l1 + (l2 + (l3 + l4));
  }

  /** The rule leaves room for reuse: with nobody else in a call a thread may pop the top and push the same
      node again. */
  lemma {:induction false} ReuseByTheRule(s: State, t: nat, v: int) returns (ls: seq<Label>)
    requires ReuseInv(s) && s.stack != [] && t < |s.threads|
    requires forall u | 0 <= u < |s.threads| :: s.threads[u].Idle?
    ensures Legal(s, ls) && Always(Careful, s, ls) && Always(Unheld, s, ls)
    ensures Run(s, ls).stack == [Entry(s.stack[0].node, v)] + s.stack[1..]
    ensures Run(s, ls).returned == s.returned + [s.stack[0]]
  {
    var n := s.stack[0].node;
    assert Nodes(s.stack)[0] == n && s.stack[0] in s.stack;
    ChainDistinct(s.next, s.head, Nodes(s.stack));
    var a := PopTurn(s, t);
    var s1 := Run(s, a);
    assert Nodes(s1.stack) == Nodes(s.stack)[1..];
    var b := PushTurn(s1, t, n, v);
    RunAppend(s, a, b);
    ls := a + b;
  }

  /** Two threads that push the same node at once can lose another one: t1 has loaded head for n; t2
      pushes m and gets ready to swing head to n; t1 stores its old head in n; t2 swings. m is then on
      the abstract stack and not in memory. */
  lemma {:induction false} TwoPushers(s: State, t1: nat, t2: nat, n: nat, m: nat, v: int) returns (ls: seq<Label>)
    requires Agrees(s) && |s.next| == |s.value| && t1 < |s.threads| && t2 < |s.threads| && t1 != t2
    requires s.threads[t1].Idle? && s.threads[t2].Idle?
    requires n < |s.next| && m < |s.next| && n != m && n !in Nodes(s.stack) && m !in Nodes(s.stack)
    ensures Legal(s, ls)
    ensures var s' := Run(s, ls);
            && s'.stack == [Entry(n, v), Entry(m, v)] + s.stack && s'.returned == s.returned
            && Chain(s'.next, s'.head, [n] + Nodes(s.stack)) && !Agrees(s')
  {
    ls := TwoPushersRun(s, t1, t2, n, m, v);
    var s' := Run(s, ls);
    ChainFrame(s.next, s'.next, s.head, Nodes(s.stack));
    assert ([n] + Nodes(s.stack))[1..] == Nodes(s.stack);
    if Agrees(s') { ChainUnique(s'.next, s'.head, Nodes(s'.stack), [n] + Nodes(s.stack)); }
  }

  /** ABA, for every stack with at least two nodes and whatever lies below: T1 reads the top a and
      its next b and is delayed; T2 pops a, pops b and pushes a again; T1's CAS succeeds. The memory
      then holds b on top of the rest while the abstract stack is the rest, so b is on the stack
      and has been returned. */
  lemma {:induction false} AbaDiverges(s: State, t1: nat, t2: nat, vuln: bool) returns (ls: seq<Label>)
    requires Inv(s) && |s.stack| >= 2 && t1 < |s.threads| && t2 < |s.threads| && t1 != t2
    requires s.threads[t1].Idle? && s.threads[t2].Idle?
    ensures Legal(s, ls) && Always(Careful, s, ls)
    ensures var s' := Run(s, ls); var b := s.stack[1]; var rest := s.stack[2..];
            && s'.stack == rest
            && Chain(s'.next, s'.head, [b.node] + Nodes(rest))
            && !Chain(s'.next, s'.head, Nodes(rest))
            && s'.returned == s.returned + [s.stack[0], b, s.stack[0]]
            && s'.threads == s.threads[t1 := Idle(Some(s.stack[0].node))][t2 := Idle(None)]
  {
    var a, b, rest := s.stack[0], s.stack[1], s.stack[2..];
    TopTwo(s);
    var l1 := PopReads(s, t1, vuln);
    var s1 := Run(s, l1);
    var l2 := PopPushTurns(s1, t2);
    var s2 := Run(s1, l2);
    assert s2.threads[t1] == PopCas(vuln, a.node, Some(b.node));
    First(s2, t1, CasOk, []);
    var l3 := [Label(t1, CasOk)] + [];
    NobodyPushes(s, 0);
    RunAppend(s1, l2, l3);
    RunAppend(s, l1, l2 + l3);
    ls := l1 + (l2 + l3);
    var s' := Run(s, ls);
    ChainFrame(s.next, s'.next, Some(b.node), [b.node] + Nodes(rest));
    if Chain(s'.next, s'.head, Nodes(rest)) {
      ChainUnique(s'.next, s'.head, Nodes(rest), [b.node] + Nodes(rest));
    }
  }

  /** Every list of distinct pool nodes is the stack of some run, so the schedule above can start
      from any of them; main builds A, B, C this way. */
  lemma {:induction false} BuildStack(pool: nat, n: nat, es: seq<Entry>) returns (ls: seq<Label>)
    requires n >= 1 && Distinct(Nodes(es)) && forall e | e in es :: e.node < pool
    ensures Legal(Init(pool, n), ls) && Always(Once, Init(pool, n), ls)
    ensures var s := Run(Init(pool, n), ls);
            && Inv(s) && s.stack == es && s.returned == [] && s.threads == Init(pool, n).threads && |s.next| == pool
            && forall m | m in s.pusher :: m in Nodes(es)
    decreases |es|
  {
    var s0 := Init(pool, n);
    if es == [] {
      ls := [];
      RunInv(s0, ls);
    } else {
      var top := es[0];
      assert top in es;
      assert Nodes(es) == [top.node] + Nodes(es[1..]);
      DistinctTail(top.node, Nodes(es[1..]));
      var a := BuildStack(pool, n, es[1..]);
      var s := Run(s0, a);
      var b := PushTurn(s, 0, top.node, top.value);
      RunAppend(s0, a, b);
      ls := a + b;
      RunInv(s, b);
      assert s.threads[0 := Idle(None)] == s.threads;
    }
  }

  /** The divergence is reachable from the empty stack for every such list, with the demonstration's
      A, B, C as one instance: three pushes, then the schedule of its two threads. */
  lemma {:induction false} AbaFromEmpty(pool: nat, es: seq<Entry>, vuln: bool) returns (ls: seq<Label>)
    requires |es| >= 2 && Distinct(Nodes(es)) && forall e | e in es :: e.node < pool
    ensures Legal(Init(pool, 2), ls)
    ensures var s := Run(Init(pool, 2), ls);
            && s.stack == es[2..] && s.returned == [es[0], es[1], es[0]]
            && s.threads == [Idle(Some(es[0].node)), Idle(None)]
            && Chain(s.next, s.head, [es[1].node] + Nodes(es[2..]))
            && !Chain(s.next, s.head, Nodes(s.stack))
  {
    var a := BuildStack(pool, 2, es);
    var s := Run(Init(pool, 2), a);
    var b := AbaDiverges(s, 0, 1, vuln);
    RunAppend(Init(pool, 2), a, b);
    ls := a + b;
  }
}
