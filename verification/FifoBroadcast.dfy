/**
  The broadcast loops of the FIFO device: in any run, whatever the other threads
  do meanwhile, and run alone. Counts are unbounded here; what 32 bits make of a
  count below zero is said in `FifoDevice`.
 */
module FifoBroadcast {
  import opened Counting
  import opened Fifo
  import FifoWakeup

  /** A step as it can be observed: who moved, and what it did to the semaphores and counts. */
  datatype Event = Event(a: Action, op: Op)

  ghost predicate Takes(s: State, e: Event, s': State) {
    Enabled(s, e.a) && e.op == PlanOf(s, e.a).op && s' == Apply(s, e.a)
  }

  /** A run with what happened in it. */
  ghost predicate Observed(tr: seq<State>, events: seq<Event>) {
    && |tr| == |events| + 1
    && tr[0] == Init()
    && forall i {:trigger Takes(tr[i], events[i], tr[i + 1])} :: 0 <= i < |events| ==> Takes(tr[i], events[i], tr[i + 1])
  }

  lemma ObservedIsRun(tr: seq<State>, events: seq<Event>)
    requires Observed(tr, events)
    ensures Run(tr)
  {
    forall i | 0 <= i < |tr| - 1
      ensures Next(tr[i], tr[i + 1])
    {
      assert Takes(tr[i], events[i], tr[i + 1]);
    }
  }

  /** How many signals thread `t` sends on `q` in these events. */
  function Signals(events: seq<Event>, t: nat, q: Side): nat {
    if events == [] then 0
    else Signals(events[..|events| - 1], t, q) + if events[|events| - 1] == Event(Go(t), PutToken(q)) then 1 else 0
  }

  /** What a thread in the middle of a turn still owes, or has sent ahead. */
  function Pending(pc: Pc): int {
    if pc.Wake? && pc.half then (if DecFirst(pc.c) then 1 else -1) else 0
  }

  /** What a broadcast has still to work off. */
  function Owed(s: State, t: nat, q: Side): int {
    Q(s, q).waiting + Pending(At(s, t))
  }

  lemma CountsChangeInside(s: State, a: Action, q: Side)
    requires Enabled(s, a) && WaitingChange(PlanOf(s, a).op, q) != 0
    ensures Is(Holding, At(s, a.t))
  {
  }

  /** While `t` is in its broadcast nobody else changes the count. */
  lemma OthersKeepCount(s: State, a: Action, t: nat)
    requires Exclusive(s) && Enabled(s, a) && At(s, t).Wake? && a.t != t
    ensures Q(Apply(s, a), At(s, t).q).waiting == Q(s, At(s, t).q).waiting && At(Apply(s, a), t) == At(s, t)
  {
    var q := At(s, t).q;
    if WaitingChange(PlanOf(s, a).op, q) != 0 {
      CountsChangeInside(s, a, q);
      FifoWakeup.OnlyHolder(s, t, a.t);
    }
  }

  /** A step of `t` in its broadcast: what it sends comes off what it owes. */
  lemma OwnTurn(s: State, a: Action)
    requires Enabled(s, a) && At(s, a.t).Wake?
    ensures var p, q := PlanOf(s, a), At(s, a.t).q;
      && a == Go(a.t)
      && Q(Apply(s, a), q).waiting + Pending(p.pc) + Bit(p.op == PutToken(q)) == Owed(s, a.t, q)
      && (p.pc.Wake? ==> p.pc.q == q)
      && (!p.pc.Wake? ==> Q(Apply(s, a), q).waiting == 0)
  {
  }

  lemma OneStep(s: State, e: Event, s': State, t: nat)
    requires Exclusive(s) && Takes(s, e, s') && At(s, t).Wake?
    ensures var q := At(s, t).q;
      && Owed(s', t, q) + Bit(e == Event(Go(t), PutToken(q))) == Owed(s, t, q)
      && (At(s', t).Wake? ==> At(s', t).q == q)
      && (!At(s', t).Wake? ==> Q(s', q).waiting == 0)
  {
    if e.a.t == t {
      OwnTurn(s, e.a);
      assert At(s', t) == PlanOf(s, e.a).pc;
    } else {
      OthersKeepCount(s, e.a, t);
    }
  }

  lemma StepOfRun(tr: seq<State>, events: seq<Event>, t: nat, k: nat)
    requires Observed(tr, events) && k < |events| && At(tr[k], t).Wake?
    ensures var q := At(tr[k], t).q;
      && Owed(tr[k + 1], t, q) + Bit(events[k] == Event(Go(t), PutToken(q))) == Owed(tr[k], t, q)
      && (At(tr[k + 1], t).Wake? ==> At(tr[k + 1], t).q == q)
      && (!At(tr[k + 1], t).Wake? ==> Q(tr[k + 1], q).waiting == 0)
  {
    ObservedIsRun(tr, events);
    InvRun(tr, k);
    assert Takes(tr[k], events[k], tr[k + 1]);
    OneStep(tr[k], events[k], tr[k + 1], t);
  }

  /** The signals sent and those owed make what was owed at the start. */
  lemma {:induction false} SignalsAddUp(tr: seq<State>, events: seq<Event>, t: nat, i: nat, j: nat)
    requires Observed(tr, events) && i <= j < |tr|
    requires forall k :: i <= k < j ==> At(tr[k], t).Wake?
    requires At(tr[i], t).Wake?
    ensures var q := At(tr[i], t).q;
      && Signals(events[i..j], t, q) + Owed(tr[j], t, q) == Owed(tr[i], t, q)
      && (At(tr[j], t).Wake? ==> At(tr[j], t).q == q)
      && (!At(tr[j], t).Wake? ==> Q(tr[j], q).waiting == 0)
    decreases j
  {
    if i < j {
      SignalsAddUp(tr, events, t, i, j - 1);
      StepOfRun(tr, events, t, j - 1);
      assert events[i..j][..j - 1 - i] == events[i..j - 1];
    }
  }

  /**
    A broadcast that starts with a count of n and ends has sent exactly n signals, whatever the other threads,
    interrupted or not, have done meanwhile.
   */
  lemma BroadcastSendsCount(tr: seq<State>, events: seq<Event>, t: nat, i: nat, j: nat)
    requires Observed(tr, events) && i < j < |tr|
    requires At(tr[i], t).Wake? && !At(tr[i], t).half
    requires (forall k :: i <= k < j ==> At(tr[k], t).Wake?) && !At(tr[j], t).Wake?
    ensures var q := At(tr[i], t).q;
      Q(tr[i], q).waiting == Signals(events[i..j], t, q) && Q(tr[j], q).waiting == 0
  {
    SignalsAddUp(tr, events, t, i, j);
  }

  // ----- run alone

  /** What a thread at the head of a broadcast on `q` leaves when nobody else runs. */
  function Broadcast(s: State, t: nat, q: Side): State {
    var v := Queue(Q(s, q).tokens + (if Q(s, q).waiting > 0 then Q(s, q).waiting else 0), 0);
    var s1 := s.(threads := s.threads[t := if At(s, t).Wake? && At(s, t).c.Open? then Test(At(s, t).c)
                                           else if At(s, t).Wake? then Leave(At(s, t).c, Done) else Idle]);
    if q == Producers then s1.(prod := v) else s1.(cons := v)
  }

  /** `n` steps of `f`, if they can all be taken. */
  function Iterate<S>(f: S -> Option<S>, s: S, n: nat): Option<S> {
    if n == 0 then Some(s)
    else
      match f(s)
      case None => None
      case Some(s1) => Iterate(f, s1, n - 1)
  }

  lemma {:induction false} IterateAdd<S>(f: S -> Option<S>, s: S, m: nat, n: nat)
    requires Iterate(f, s, m).Some?
    ensures Iterate(f, s, m + n) == Iterate(f, Iterate(f, s, m).value, n)
  {
    if m > 0 {
      IterateAdd(f, f(s).value, m - 1, n);
    }
  }

  /** States that `f` joins in pairs of steps. */
  lemma {:induction false} InPairs<S>(f: S -> Option<S>, states: nat -> S, n: nat)
    requires forall i: nat :: i < n ==> Iterate(f, states(i), 2) == Some(states(i + 1))
    ensures Iterate(f, states(0), 2 * n) == Some(states(n))
  {
    if n > 0 {
      InPairs(f, states, n - 1);
      IterateAdd(f, states(0), 2 * n - 2, 2);
    }
  }

  function Turn(t: nat): State -> Option<State> {
    (s: State) => if Enabled(s, Go(t)) then Some(Apply(s, Go(t))) else None
  }

  /** Thread `t`, stepping alone, gets from `s` to `s'` in `n` steps. */
  predicate Alone(s: State, t: nat, s': State, n: nat) {
    Iterate(Turn(t), s, n) == Some(s')
  }

  lemma AloneThen(s: State, t: nat, s1: State, m: nat, s2: State, n: nat)
    requires Alone(s, t, s1, m) && Alone(s1, t, s2, n)
    ensures Alone(s, t, s2, m + n)
  {
    IterateAdd(Turn(t), s, m, n);
  }

  lemma AloneStep(s: State, t: nat)
    requires Enabled(s, Go(t))
    ensures Alone(s, t, Apply(s, Go(t)), 1)
  {
    assert Turn(t)(s) == Some(Apply(s, Go(t)));
    assert Iterate(Turn(t), Apply(s, Go(t)), 0) == Some(Apply(s, Go(t)));
  }

  /** One turn of the loop turns one waiter into one token. */
  lemma OneTurn(s: State, t: nat, q: Side)
    requires At(s, t).Wake? && !At(s, t).half && At(s, t).q == q && Q(s, q).waiting > 0
    ensures Enabled(s, Go(t)) && Enabled(Apply(s, Go(t)), Go(t))
    ensures var s2 := Apply(Apply(s, Go(t)), Go(t));
      && s2.threads == s.threads && s2.d == s.d && s2.mutex == s.mutex
      && Q(s2, q) == Queue(Q(s, q).tokens + 1, Q(s, q).waiting - 1) && Q(s2, Other(q)) == Q(s, Other(q))
  {
  }

  /** `s` with queue `q` replaced. */
  function PutQ(s: State, q: Side, v: Queue): State {
    if q == Producers then s.(prod := v) else s.(cons := v)
  }

  /** The state after `i` turns of a broadcast that starts with `n` waiters. */
  function AfterTurns(s: State, q: Side, n: nat, i: nat): State
    requires i <= n
  {
    PutQ(s, q, Queue(Q(s, q).tokens + i, n - i))
  }

  lemma TurnAlone(s: State, t: nat, q: Side, n: nat, i: nat)
    requires At(s, t).Wake? && !At(s, t).half && At(s, t).q == q && Q(s, q).waiting == n && i < n
    ensures Alone(AfterTurns(s, q, n, i), t, AfterTurns(s, q, n, i + 1), 2)
  {
    var s0 := AfterTurns(s, q, n, i);
    OneTurn(s0, t, q);
    var s1 := Apply(s0, Go(t));
    var s2 := Apply(s1, Go(t));
    assert s2 == AfterTurns(s, q, n, i + 1);
    AloneStep(s0, t);
    AloneStep(s1, t);
    AloneThen(s0, t, s1, 1, s2, 1);
  }

  lemma LastStepAlone(s: State, t: nat)
    requires At(s, t).Wake? && !At(s, t).half && Q(s, At(s, t).q).waiting == 0
    ensures Alone(s, t, Broadcast(s, t, At(s, t).q), 1)
  {
    AloneStep(s, t);
  }

  lemma AllTurnsAlone(s: State, t: nat, q: Side, n: nat)
    requires At(s, t).Wake? && !At(s, t).half && At(s, t).q == q && Q(s, q).waiting == n
    ensures Alone(s, t, AfterTurns(s, q, n, n), 2 * n)
  {
    var states := (i: nat) => if i <= n then AfterTurns(s, q, n, i) else s;
    forall i: nat | i < n
      ensures Iterate(Turn(t), states(i), 2) == Some(states(i + 1))
    {
      TurnAlone(s, t, q, n, i);
    }
    InPairs(Turn(t), states, n);
    assert states(0) == s;
  }

  lemma LastStepReaches(s: State, t: nat, q: Side, n: nat)
    requires At(s, t).Wake? && !At(s, t).half && At(s, t).q == q && Q(s, q).waiting == n
    ensures Alone(AfterTurns(s, q, n, n), t, Broadcast(s, t, q), 1)
  {
    var s2 := AfterTurns(s, q, n, n);
    assert Broadcast(s2, t, q) == Broadcast(s, t, q);
    LastStepAlone(s2, t);
  }

  /** The loop ends after two steps a waiter and one, having issued one token a waiter. */
  lemma BroadcastIssuesAll(s: State, t: nat, n: nat)
    requires At(s, t).Wake? && !At(s, t).half && Q(s, At(s, t).q).waiting == n
    ensures Alone(s, t, Broadcast(s, t, At(s, t).q), 2 * n + 1)
  {
    var q := At(s, t).q;
    AllTurnsAlone(s, t, q, n);
    LastStepReaches(s, t, q, n);
    AloneThen(s, t, AfterTurns(s, q, n, n), 2 * n, Broadcast(s, t, q), 1);
  }
}
