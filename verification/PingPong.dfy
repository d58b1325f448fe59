/** The ping-pong handoff: one plain counter passed back and forth through one atomic flag, under
    release/acquire with stale reads of the flag. */
module PingPong {
  import opened Memory

  datatype SendPc = SRead | SWrite(r: int) | SStore | SWait | SDone
  datatype RecvPc = RWait | RRead | RStore | RDone

  datatype Sender = Sender(pc: SendPc, idx: nat, seen: nat, hb: set<nat>)
  datatype Receiver = Receiver(pc: RecvPc, idx: nat, seen: nat, hb: set<nat>)

  /** saw: what the receiver read from the counter, round by round. */
  datatype State = State(flag: seq<Msg>, counter: int, snd: Sender, rcv: Receiver, log: seq<Access>, saw: seq<int>)

  function Init(n: nat): State {
    State([Msg(0, {}, 0)], 0, Sender(if n == 0 then SDone else SRead, 0, 0, {}),
          Receiver(if n == 0 then RDone else RWait, 0, 0, {}), [], [])
  }

  datatype Step = SendTouch | SendStore | SendPoll(at: nat) | RecvPoll(at: nat) | RecvTouch | RecvStore

  predicate Enabled(s: State, a: Step) {
    match a
    case SendTouch => s.snd.pc.SRead? || s.snd.pc.SWrite?
    case SendStore => s.snd.pc.SStore?
    case SendPoll(i) => s.snd.pc.SWait? && s.snd.seen <= i < |s.flag|
    case RecvPoll(i) => s.rcv.pc.RWait? && s.rcv.seen <= i < |s.flag|
    case RecvTouch => s.rcv.pc.RRead?
    case RecvStore => s.rcv.pc.RStore?
  }

  function Exec(n: nat, s: State, a: Step): State
    requires Enabled(s, a)
  {
    match a
    case SendTouch =>
      var me := s.snd;
      s.(counter := if me.pc.SWrite? then me.pc.r + 1 else s.counter,
         log := s.log + [Access(me.pc.SWrite?, 0, 0, me.hb, 0)],
         snd := me.(pc := if me.pc.SRead? then SWrite(s.counter) else SStore, hb := me.hb + {|s.log|}))
    case SendStore =>
      s.(flag := s.flag + [Msg(1, s.snd.hb, 0)], snd := s.snd.(pc := SWait, seen := |s.flag|))
    case SendPoll(i) =>
      var m := s.flag[i];
      var got := s.snd.(seen := i, hb := s.snd.hb + m.hb);
      s.(snd := if m.val != 0 then got
                else got.(idx := s.snd.idx + 1, pc := if s.snd.idx + 1 < n then SRead else SDone))
    case RecvPoll(i) =>
      var m := s.flag[i];
      var got := s.rcv.(seen := i, hb := s.rcv.hb + m.hb);
      s.(rcv := if m.val != 1 then got else got.(pc := RRead))
    case RecvTouch =>
      s.(log := s.log + [Access(false, 0, 0, s.rcv.hb, 1)], saw := s.saw + [s.counter],
         rcv := s.rcv.(pc := RStore, hb := s.rcv.hb + {|s.log|}))
    case RecvStore =>
      s.(flag := s.flag + [Msg(0, s.rcv.hb, 1)],
         rcv := s.rcv.(seen := |s.flag|, idx := s.rcv.idx + 1, pc := if s.rcv.idx + 1 < n then RWait else RDone))
  }

  predicate Legal(n: nat, s: State, ls: seq<Step>)
    decreases |ls|
  {
    ls == [] || (Enabled(s, ls[0]) && Legal(n, Exec(n, s, ls[0]), ls[1..]))
  }

  function Run(n: nat, s: State, ls: seq<Step>): State
    requires Legal(n, s, ls)
    decreases |ls|
  {
    if ls == [] then s else Run(n, Exec(n, s, ls[0]), ls[1..])
  }

  /** Place of the newest value of the flag: even after the receiver, odd after the sender. */
  function K(s: State): int { |s.flag| - 1 }

  ghost predicate SenderInv(n: nat, s: State) {
    var i := s.snd.idx;
    match s.snd.pc
    case SRead => i < n && K(s) == 2 * i == s.snd.seen && s.counter == i && Known(s.log, 0, s.snd.hb)
    case SWrite(r) => i < n && K(s) == 2 * i == s.snd.seen && s.counter == i == r && Known(s.log, 0, s.snd.hb)
    case SStore => i < n && K(s) == 2 * i == s.snd.seen && s.counter == i + 1 && Known(s.log, 0, s.snd.hb)
    case SWait => i < n && (K(s) == 2 * i + 1 || K(s) == 2 * i + 2) && s.counter == i + 1 && s.snd.seen >= 2 * i + 1
    case SDone => i == n && K(s) == 2 * i && s.counter == n
  }

  ghost predicate ReceiverInv(n: nat, s: State) {
    var j := s.rcv.idx;
    match s.rcv.pc
    case RWait => j < n && (K(s) == 2 * j || K(s) == 2 * j + 1) && s.rcv.seen >= 2 * j && |s.saw| == j
    case RRead => j < n && K(s) == 2 * j + 1 == s.rcv.seen && Known(s.log, 0, s.rcv.hb) && |s.saw| == j
    case RStore => j < n && K(s) == 2 * j + 1 == s.rcv.seen && Known(s.log, 0, s.rcv.hb) && |s.saw| == j + 1
    case RDone => j == n && K(s) == 2 * j && |s.saw| == j
  }

  ghost predicate Inv(n: nat, s: State) {
    && |s.flag| >= 1
    && (forall i | 0 <= i < |s.flag| :: s.flag[i].val == i % 2)
    && s.snd.seen < |s.flag| && s.rcv.seen < |s.flag|
    && SenderInv(n, s) && ReceiverInv(n, s)
    && (s.snd.pc.SWait? && !s.rcv.pc.RRead? && !s.rcv.pc.RStore? ==> Known(s.log, 0, s.flag[K(s)].hb))
    && (forall j | 0 <= j < |s.saw| :: s.saw[j] == j + 1)
    && RaceFree(s.log)
  }

  lemma {:induction false} SenderStep(n: nat, s: State, a: Step)
    requires Inv(n, s) && Enabled(s, a) && (a.SendTouch? || a.SendStore?)
    ensures Inv(n, Exec(n, s, a))
  {
  }

  lemma {:induction false} ReceiverStep(n: nat, s: State, a: Step)
    requires Inv(n, s) && Enabled(s, a) && (a.RecvTouch? || a.RecvStore?)
    ensures Inv(n, Exec(n, s, a))
  {
  }

  lemma {:induction false} PollStep(n: nat, s: State, a: Step)
    requires Inv(n, s) && Enabled(s, a) && (a.SendPoll? || a.RecvPoll?)
    ensures Inv(n, Exec(n, s, a))
  {
  }

  lemma {:induction false} StepInv(n: nat, s: State, a: Step)
    requires Inv(n, s) && Enabled(s, a)
    ensures Inv(n, Exec(n, s, a))
  {
    if a.SendTouch? || a.SendStore? { SenderStep(n, s, a); }
    else if a.RecvTouch? || a.RecvStore? { ReceiverStep(n, s, a); }
    else { PollStep(n, s, a); }
  }

  /** Why stores go last in the flag's modification order: a thread that stores has read, or itself
      written, the message that is last. */
  lemma {:induction false} StoreGoesLast(n: nat, s: State, a: Step)
    requires Inv(n, s) && Enabled(s, a) && (a.SendStore? || a.RecvStore?)
    ensures (if a.SendStore? then s.snd.seen else s.rcv.seen) == K(s)
  {
  }

  lemma {:induction false} RunInv(n: nat, s: State, ls: seq<Step>)
    requires Inv(n, s) && Legal(n, s, ls)
    ensures Inv(n, Run(n, s, ls))
    decreases |ls|
  {
    if ls != [] {
      StepInv(n, s, ls[0]);
      RunInv(n, Exec(n, s, ls[0]), ls[1..]);
    }
  }

  ghost predicate PastOnly(s: State) {
    && KnownIsPast(s.log) && Past(s.log, s.snd.hb) && Past(s.log, s.rcv.hb)
    && (forall i | 0 <= i < |s.flag| :: Past(s.log, s.flag[i].hb))
  }

  /** The happens-before sets of the machine only ever look back. */
  lemma {:induction false} RunPast(n: nat, s: State, ls: seq<Step>)
    requires PastOnly(s) && Legal(n, s, ls)
    ensures PastOnly(Run(n, s, ls))
    decreases |ls|
  {
    if ls != [] {
      StepPast(n, s, ls[0]);
      RunPast(n, Exec(n, s, ls[0]), ls[1..]);
    }
  }

  lemma {:induction false} StepPast(n: nat, s: State, a: Step)
    requires PastOnly(s) && Enabled(s, a)
    ensures PastOnly(Exec(n, s, a))
  {
  }

  /** What happens before what, exactly: a thread is ordered after its own accesses and after what the
      newest flag message publishes that it has read or written; messages publish more and more,
      each no more than its thread knows; and an access follows no more than that. */
  ghost predicate Order(s: State) {
    && PastOnly(s) && s.flag != [] && s.flag[0].hb == {}
    && s.snd.seen < |s.flag| && s.rcv.seen < |s.flag|
    && (forall e: nat :: e in s.snd.hb <==> (e < |s.log| && s.log[e].tid == 0) || e in s.flag[s.snd.seen].hb)
    && (forall e: nat :: e in s.rcv.hb <==> (e < |s.log| && s.log[e].tid == 1) || e in s.flag[s.rcv.seen].hb)
    && (forall i, j | 0 <= i <= j < |s.flag| :: s.flag[i].hb <= s.flag[j].hb)
    && (forall i | 1 <= i < |s.flag| :: s.flag[i].hb <= if s.flag[i].tid == 0 then s.snd.hb else s.rcv.hb)
    && (forall j | 0 <= j < |s.log| :: s.log[j].known <= if s.log[j].tid == 0 then s.snd.hb else s.rcv.hb)
  }

  lemma {:induction false} TouchOrder(n: nat, s: State, a: Step)
    requires Order(s) && Enabled(s, a) && (a.SendTouch? || a.RecvTouch?)
    ensures Order(Exec(n, s, a))
  {
    StepPast(n, s, a);
  }

  lemma {:induction false} PollOrder(n: nat, s: State, a: Step)
    requires Order(s) && Enabled(s, a) && (a.SendPoll? || a.RecvPoll?)
    ensures Order(Exec(n, s, a))
  {
    StepPast(n, s, a);
  }

  lemma {:induction false} StoreOrder(n: nat, s: State, a: Step)
    requires Order(s) && Enabled(s, a) && (a.SendStore? || a.RecvStore?)
    requires (if a.SendStore? then s.snd.seen else s.rcv.seen) == K(s)
    ensures Order(Exec(n, s, a))
  {
    StepPast(n, s, a);
  }

  lemma {:induction false} OrderStep(n: nat, s: State, a: Step)
    requires Inv(n, s) && Order(s) && Enabled(s, a)
    ensures Order(Exec(n, s, a))
  {
    if a.SendStore? || a.RecvStore? {
      StoreGoesLast(n, s, a);
      StoreOrder(n, s, a);
    } else if a.SendTouch? || a.RecvTouch? {
      TouchOrder(n, s, a);
    } else {
      PollOrder(n, s, a);
    }
  }

  lemma {:induction false} OrderRun(n: nat, s: State, ls: seq<Step>)
    requires Inv(n, s) && Order(s) && Legal(n, s, ls)
    ensures Order(Run(n, s, ls))
    decreases |ls|
  {
    if ls != [] {
      StepInv(n, s, ls[0]);
      OrderStep(n, s, ls[0]);
      OrderRun(n, Exec(n, s, ls[0]), ls[1..]);
    }
  }

  lemma {:induction false} OrderExact(n: nat, ls: seq<Step>)
    requires Legal(n, Init(n), ls)
    ensures Order(Run(n, Init(n), ls))
  {
    OrderRun(n, Init(n), ls);
  }

  /** In every run: no race on the counter, the receiver sees k + 1 in round k, the threads are at
      most one round apart, and when the sender is done the counter is the number of rounds. */
  lemma {:induction false} EveryRun(n: nat, ls: seq<Step>)
    requires Legal(n, Init(n), ls)
    ensures var s := Run(n, Init(n), ls);
            && RaceFree(s.log) && KnownIsPast(s.log)
            && (forall k | 0 <= k < |s.saw| :: s.saw[k] == k + 1)
            && s.snd.idx <= s.rcv.idx <= s.snd.idx + 1
            && (s.snd.pc.SDone? ==> s.counter == n && s.rcv.pc.RDone? && |s.saw| == n)
  {
    RunInv(n, Init(n), ls);
    RunPast(n, Init(n), ls);
  }

  function Left(n: nat, s: State): int {
    4 * (n - s.snd.idx) + 4 * (n - s.rcv.idx)
    - (match s.snd.pc case SRead => 0 case SWrite(_) => 1 case SStore => 2 case SWait => 3 case SDone => 0)
    - (match s.rcv.pc case RWait => 0 case RRead => 1 case RStore => 2 case RDone => 0)
  }

  /** The thread whose turn it is can act, and every action counts. */
  lemma {:induction false} NextMove(n: nat, s: State) returns (a: Step)
    requires Inv(n, s) && !s.snd.pc.SDone?
    ensures Enabled(s, a) && 0 <= Left(n, Exec(n, s, a)) < Left(n, s)
  {
    a := if s.snd.pc.SRead? || s.snd.pc.SWrite? then SendTouch
         else if s.snd.pc.SStore? then SendStore
         else if s.rcv.pc.RRead? then RecvTouch
         else if s.rcv.pc.RStore? then RecvStore
         else if K(s) % 2 == 1 then RecvPoll(K(s))
         else SendPoll(K(s));
  }

  /** No reachable state is a deadlock: from each of them all n rounds can be completed, in at most
      one step per remaining action when polls read the newest value. */
  lemma {:induction false} CanFinish(n: nat, s: State) returns (ls: seq<Step>)
    requires Inv(n, s)
    ensures Legal(n, s, ls) && Run(n, s, ls).snd.pc.SDone? && Run(n, s, ls).rcv.pc.RDone?
    ensures |ls| <= Left(n, s)
    decreases Left(n, s)
  {
    if s.snd.pc.SDone? { return []; }
    var a := NextMove(n, s);
    StepInv(n, s, a);
    var rest := CanFinish(n, Exec(n, s, a));
    ls := [a] + rest;
    assert ls[1..] == rest;
  }

  /** Nor is a wait bounded: after the sender's first store the receiver may read the old flag any number of
      times. */
  lemma {:induction false} PollsOn(n: nat, k: nat) returns (ls: seq<Step>)
    requires n >= 1
    ensures Legal(n, Init(n), ls) && |ls| == k + 3
    ensures var s := Run(n, Init(n), ls); s.flag != [] && s.flag[K(s)].val == 1 && s.rcv == Init(n).rcv
  {
    var s0 := Init(n);
    var s1 := Exec(n, s0, SendTouch);
    var s2 := Exec(n, s1, SendTouch);
    var s3 := Exec(n, s2, SendStore);
    var rest := StalePolls(n, s3, k);
    Then(n, s2, SendStore, rest);
    Then(n, s1, SendTouch, [SendStore] + rest);
    Then(n, s0, SendTouch, [SendTouch] + ([SendStore] + rest));
    ls := [SendTouch] + ([SendTouch] + ([SendStore] + rest));
  }

  lemma {:induction false} Then(n: nat, s: State, a: Step, rest: seq<Step>)
    requires Enabled(s, a) && Legal(n, Exec(n, s, a), rest)
    ensures Legal(n, s, [a] + rest) && Run(n, s, [a] + rest) == Run(n, Exec(n, s, a), rest)
  {
    assert ([a] + rest)[1..] == rest;
  }

  lemma {:induction false} StalePolls(n: nat, s: State, k: nat) returns (ls: seq<Step>)
    requires s.rcv.pc.RWait? && s.rcv.seen == 0 && s.rcv.hb == {} && |s.flag| == 2 && s.flag[0] == Msg(0, {}, 0)
    ensures Legal(n, s, ls) && |ls| == k && Run(n, s, ls) == s
    decreases k
  {
    if k == 0 { return []; }
    var s' := Exec(n, s, RecvPoll(0));
    assert s'.rcv == s.rcv;
    var rest := StalePolls(n, s', k - 1);
    ls := [RecvPoll(0)] + rest;
    assert ls[1..] == rest;
  }
}
