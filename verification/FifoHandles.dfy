/**
  Which handles num_cons and num_prod count: those that are open, those whose
  open or release is in progress, and those whose release was interrupted at
  the mutex. An open that is interrupted leaves nothing behind.
 */
module FifoHandles {
  import opened Counting
  import opened Fifo

  /** At `pc` a call that opens or releases handle `h` has it counted. */
  predicate InProgress(pc: Pc, h: nat) {
    match pc
    case Idle => false
    case Enter(c) => c.Release? && c.h == h
    case Critical(c) => c.Release? && c.h == h
    case _ => pc.c.Open? && pc.c.h == h
  }

  /** Open, being opened or released, or never to be released. */
  predicate Live(s: State, h: nat)
    requires h in s.d.handles
  {
    match s.d.handles[h].owner
    case None => true
    case Some(t) => InProgress(At(s, t), h) || h in s.d.abandoned
  }

  function LiveHandles(s: State, reader: bool): set<nat> {
    set h | h in s.d.handles && s.d.handles[h].reader == reader && Live(s, h)
  }

  /** A handle is counted exactly while it is live; an abandoned one has nobody at work on it. */
  predicate HandleOk(s: State, h: nat) {
    && (h in s.d.handles ==> (s.d.handles[h].counted <==> Live(s, h)))
    && (h in s.d.abandoned ==>
          h in s.d.handles && s.d.handles[h].owner.Some? && !InProgress(At(s, s.d.handles[h].owner.value), h))
  }

  ghost predicate HandlesOk(s: State) {
    forall h: nat :: HandleOk(s, h)
  }

  /** The step is one of a call that opens or releases `h`. */
  predicate WorksOn(s: State, a: Action, h: nat) {
    var pc := At(s, a.t);
    var c := if a.Begin? then a.c else if pc.Idle? then Read(0, 0) else pc.c;
    (c.Open? || c.Release?) && c.h == h
  }

  /** Other steps leave the handle alone, and their thread is not at work on it. */
  lemma OtherHandles(s: State, a: Action, h: nat)
    requires Enabled(s, a) && !WorksOn(s, a, h)
    ensures var d' := PlanOf(s, a).d;
      && (h in d'.handles <==> h in s.d.handles) && (h in s.d.handles ==> d'.handles[h] == s.d.handles[h])
      && (h in d'.abandoned <==> h in s.d.abandoned)
      && !InProgress(PlanOf(s, a).pc, h) && !InProgress(At(s, a.t), h)
  {
  }

  /** What a step of its own call makes of a handle. */
  lemma OwnHandle(s: State, a: Action, h: nat)
    requires Enabled(s, a) && WorksOn(s, a, h) && ThreadOk(s.d, a.t, At(s, a.t)) && HandleOk(s, h)
    ensures var p := PlanOf(s, a);
      && h in p.d.handles
      && (p.d.handles[h].owner.Some? ==> p.d.handles[h].owner == Some(a.t))
      && (p.d.handles[h].counted <==> p.d.handles[h].owner == None || InProgress(p.pc, h) || h in p.d.abandoned)
      && (h in p.d.abandoned ==> p.d.handles[h].owner.Some? && !InProgress(p.pc, h))
  {
  }

  lemma HandleStep(s: State, a: Action, h: nat)
    requires Inv(s) && Enabled(s, a) && HandleOk(s, h)
    ensures HandleOk(Apply(s, a), h)
  {
    assert ThreadOk(s.d, a.t, At(s, a.t));
    var s' := Apply(s, a);
    assert forall t :: At(s', t) == if t == a.t then PlanOf(s, a).pc else At(s, t);
    if WorksOn(s, a, h) {
      OwnHandle(s, a, h);
    } else {
      OtherHandles(s, a, h);
    }
  }

  lemma HandlesNext(s: State, s': State)
    requires Inv(s) && HandlesOk(s) && Next(s, s')
    ensures HandlesOk(s')
  {
    var a :| Enabled(s, a) && s' == Apply(s, a);
    forall h: nat
      ensures HandleOk(s', h)
    {
      HandleStep(s, a, h);
    }
  }

  lemma HandlesInit()
    ensures HandlesOk(Init())
  {
  }

  lemma {:induction false} HandlesRun(tr: seq<State>, i: nat)
    requires Run(tr) && i < |tr|
    ensures HandlesOk(tr[i])
  {
    if i == 0 {
      HandlesInit();
    } else {
      HandlesRun(tr, i - 1);
      InvRun(tr, i - 1);
      assert Next(tr[i - 1], tr[i - 1 + 1]);
      HandlesNext(tr[i - 1], tr[i]);
    }
  }

  // ----- the theorems

  /**
    In every run num_cons is the number of reading handles that are open, being opened or released, or abandoned by a
    release that was interrupted; num_prod that of the writing ones. An interrupted open is in neither.
   */
  lemma CountsAreLiveHandles(tr: seq<State>, i: nat)
    requires Run(tr) && i < |tr|
    ensures tr[i].d.numCons == |LiveHandles(tr[i], true)| && tr[i].d.numProd == |LiveHandles(tr[i], false)|
  {
    var s := tr[i];
    InvRun(tr, i);
    HandlesRun(tr, i);
    forall h, reader
      ensures h in LiveHandles(s, reader) <==> h in Counted(s.d.handles, reader)
    {
      assert h in s.d.handles ==> HandleOk(s, h);
    }
    assert LiveHandles(s, true) == Counted(s.d.handles, true) && LiveHandles(s, false) == Counted(s.d.handles, false);
  }

  /** With no call in progress and no release ever interrupted, the counts are those of the handles that are open. */
  lemma CountsAreOpenHandles(tr: seq<State>, i: nat)
    requires Run(tr) && i < |tr| && tr[i].d.abandoned == {} && forall t :: At(tr[i], t) == Idle
    ensures tr[i].d.numCons == |set h | h in tr[i].d.handles && tr[i].d.handles[h] == Handle(true, true, None)|
    ensures tr[i].d.numProd == |set h | h in tr[i].d.handles && tr[i].d.handles[h] == Handle(false, true, None)|
  {
    var s := tr[i];
    CountsAreLiveHandles(tr, i);
    HandlesRun(tr, i);
    forall h | h in s.d.handles
      ensures forall reader :: h in LiveHandles(s, reader) <==> s.d.handles[h] == Handle(reader, true, None)
    {
      assert HandleOk(s, h);
    }
    assert LiveHandles(s, true) == set h | h in s.d.handles && s.d.handles[h] == Handle(true, true, None);
    assert LiveHandles(s, false) == set h | h in s.d.handles && s.d.handles[h] == Handle(false, true, None);
  }

  /** The count of the side of a handle. */
  function CountOf(d: Data, reader: bool): int { if reader then d.numCons else d.numProd }

  /** An open that returns has opened its handle; one that was interrupted is counted no more, or never was. */
  lemma OpenReturns(tr: seq<State>, i: nat, a: Action)
    requires Run(tr) && i < |tr| && Enabled(tr[i], a) && !At(tr[i], a.t).Idle? && At(tr[i], a.t).c.Open?
    requires At(Apply(tr[i], a), a.t).Idle?
    ensures var d, d', pc := tr[i].d, Apply(tr[i], a).d, At(tr[i], a.t);
      && pc.c.h in d'.handles
      && (if pc.Leave?
          then d'.handles[pc.c.h] == Handle(pc.c.reader, true, None) && (d'.numCons, d'.numProd) == (d.numCons, d.numProd)
          else d'.handles[pc.c.h] == Handle(pc.c.reader, false, Some(a.t)) && CountOf(d', !pc.c.reader) == CountOf(d, !pc.c.reader)
               && CountOf(d', pc.c.reader) == CountOf(d, pc.c.reader) - (if pc.Enter? then 0 else 1))
  {
    InvRun(tr, i);
    assert ThreadOk(tr[i].d, a.t, At(tr[i], a.t));
  }

  /** A handle is abandoned exactly when its release is interrupted at the mutex. */
  lemma AbandonedExactly(s: State, a: Action, h: nat)
    requires Enabled(s, a)
    ensures h in Apply(s, a).d.abandoned
      <==> h in s.d.abandoned || (a.Interrupt? && At(s, a.t).Enter? && At(s, a.t).c.Release? && At(s, a.t).c.h == h)
  {
  }
}
