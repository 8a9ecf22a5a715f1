/**
  The scheduler's bookkeeping of tasks and load across sleeping, waking,
  migration and taking CPUs down. A step is a section under the runqueue locks
  it needs, or one atomic operation on a global counter.
 */
module LoadAccounting {
  import opened Counting

  /** `Blocked` is a sleep that adds to the load, `Asleep` one that does not. */
  datatype Status = Running | Asleep | Blocked | Waking

  datatype Task = Task(cpu: nat, onRq: bool, status: Status)

  datatype State = State(
    tasks: map<nat, Task>,
    running: seq<int>,                       // nr_running of each runqueue
    uninterruptible: seq<int>,               // nr_uninterruptible of each runqueue
    active: seq<int>,                        // calc_load_active of each runqueue
    loadTasks: int,                          // calc_load_tasks
    loadIdle: int,                           // calc_load_tasks_idle
    inFlight: seq<int>)                      // the delta each execution context has taken and not yet added

  datatype Action =
    | SetStatus(t: nat, st: Status)          // the running task announces its next sleep, or withdraws it
    | Sleep(t: nat)
    | WakeQueued(t: nat)                     // the task has not left its queue yet
    | WakeInPlace(t: nat)                    // it is still on its CPU, or the waker holds its queue's lock
    | WakeBegin(t: nat, online: bool, here: nat, dest: nat)
    | WakeEnd(t: nat)
    | Migrate(t: nat, dest: nat)
    | Fork(t: nat, cpu: nat)
    | MoveUninterruptible(cpu: nat, dest: nat)   // CPU down
    | RemoveLoad(cpu: nat)                       // CPU down
    | FoldActive(cpu: nat, w: nat)
    | FoldIdle(w: nat)
    | AddTasks(w: nat)
    | AddIdle(w: nat)

  predicate Contributes(p: Task) { p.status == Blocked }

  function SetTask(s: State, t: nat, p: Task): State {
    s.(tasks := s.tasks[t := p])
  }

  /** activate_task. */
  function Activate(s: State, t: nat, p: Task): State {
    SetTask(s, t, p.(onRq := true)).(
      uninterruptible := Add(s.uninterruptible, p.cpu, if Contributes(p) then -1 else 0),
      running := Add(s.running, p.cpu, 1))
  }

  /** deactivate_task. */
  function Deactivate(s: State, t: nat, p: Task): State {
    SetTask(s, t, p.(onRq := false)).(
      uninterruptible := Add(s.uninterruptible, p.cpu, if Contributes(p) then 1 else 0),
      running := Add(s.running, p.cpu, -1))
  }

  /** calc_load_fold_active: what the queue has gained since it was last folded. */
  function FoldDelta(s: State, c: nat): int
    requires Sizes(s) && c < |s.active|
  {
    s.running[c] + s.uninterruptible[c] - s.active[c]
  }

  predicate Sizes(s: State) {
    |s.running| == |s.uninterruptible| == |s.active|
  }

  predicate Enabled(s: State, a: Action) {
    var cpus := |s.active|;
    Sizes(s) &&
    match a
    case SetStatus(t, st) => t in s.tasks && s.tasks[t].onRq && st != Waking
    case Sleep(t) => t in s.tasks && s.tasks[t].onRq && s.tasks[t].status != Running
    case WakeQueued(t) => t in s.tasks && s.tasks[t].onRq
    case WakeInPlace(t) => t in s.tasks && !s.tasks[t].onRq && (s.tasks[t].status == Asleep || s.tasks[t].status == Blocked)
    case WakeBegin(t, _, here, dest) =>
      t in s.tasks && !s.tasks[t].onRq && (s.tasks[t].status == Asleep || s.tasks[t].status == Blocked) && here < cpus && dest < cpus
    case WakeEnd(t) => t in s.tasks && !s.tasks[t].onRq && s.tasks[t].status == Waking
    case Migrate(t, dest) => t in s.tasks && s.tasks[t].onRq && dest < cpus
    case Fork(t, cpu) => t !in s.tasks && cpu < cpus
    case MoveUninterruptible(cpu, dest) => cpu < cpus && dest < cpus && cpu != dest
    case RemoveLoad(cpu) => cpu < cpus
    case FoldActive(cpu, w) => cpu < cpus && w < |s.inFlight|
    case FoldIdle(w) => w < |s.inFlight|
    case AddTasks(w) => w < |s.inFlight|
    case AddIdle(w) => w < |s.inFlight|
  }

  function Apply(s: State, a: Action): State
    requires Enabled(s, a)
  {
    match a
    case SetStatus(t, st) => SetTask(s, t, s.tasks[t].(status := st))
    case Sleep(t) => Deactivate(s, t, s.tasks[t])
    case WakeQueued(t) => SetTask(s, t, s.tasks[t].(status := Running))
    case WakeInPlace(t) =>
      var s1 := Activate(s, t, s.tasks[t]);
      SetTask(s1, t, s1.tasks[t].(status := Running))
    case WakeBegin(t, online, here, dest) =>
      var p := s.tasks[t];
      SetTask(s, t, p.(status := Waking, cpu := dest)).(
        uninterruptible := Add(s.uninterruptible, if online then p.cpu else here, if Contributes(p) then -1 else 0))
    case WakeEnd(t) =>
      var s1 := Activate(s, t, s.tasks[t]);
      SetTask(s1, t, s1.tasks[t].(status := Running))
    case Migrate(t, dest) =>
      var s1 := Deactivate(s, t, s.tasks[t]);
      Activate(s1, t, s1.tasks[t].(cpu := dest))
    case Fork(t, cpu) => Activate(s, t, Task(cpu, false, Running))
    case MoveUninterruptible(cpu, dest) =>
      s.(uninterruptible := Add(Add(s.uninterruptible, dest, s.uninterruptible[cpu]), cpu, -s.uninterruptible[cpu]))
    case RemoveLoad(cpu) => s.(loadTasks := s.loadTasks - s.active[cpu], active := Add(s.active, cpu, -s.active[cpu]))
    case FoldActive(cpu, w) =>
      s.(active := Add(s.active, cpu, FoldDelta(s, cpu)), inFlight := Add(s.inFlight, w, FoldDelta(s, cpu)))
    case FoldIdle(w) => s.(loadIdle := 0, inFlight := Add(s.inFlight, w, s.loadIdle))
    case AddTasks(w) => s.(loadTasks := s.loadTasks + s.inFlight[w], inFlight := Add(s.inFlight, w, -s.inFlight[w]))
    case AddIdle(w) => s.(loadIdle := s.loadIdle + s.inFlight[w], inFlight := Add(s.inFlight, w, -s.inFlight[w]))
  }

  /** The life of a task: on a queue it can be moved, woken, and put to sleep in a sleeping state; off it, woken in one step or two. */
  lemma LifeOfTask(s: State, t: nat, st: Status, online: bool, here: nat, dest: nat)
    requires Sizes(s) && here < |s.active| && dest < |s.active|
    ensures t !in s.tasks <==> Enabled(s, Fork(t, dest))
    ensures t in s.tasks ==>
      var p := s.tasks[t];
      && (Enabled(s, SetStatus(t, st)) <==> p.onRq && st != Waking)
      && (Enabled(s, Migrate(t, dest)) <==> p.onRq)
      && (Enabled(s, WakeQueued(t)) <==> p.onRq)
      && (Enabled(s, Sleep(t)) <==> p.onRq && p.status != Running)
      && (Enabled(s, WakeInPlace(t)) <==> !p.onRq && p.status in {Asleep, Blocked})
      && (Enabled(s, WakeBegin(t, online, here, dest)) <==> !p.onRq && p.status in {Asleep, Blocked})
      && (Enabled(s, WakeEnd(t)) <==> !p.onRq && p.status == Waking)
  {
  }

  /** What is left of a task after each way of waking it, of putting it to sleep and of moving it. */
  lemma TaskAfter(s: State, a: Action)
    requires Enabled(s, a)
    ensures var s' := Apply(s, a);
      match a
      case WakeQueued(t) => s'.tasks == s.tasks[t := s.tasks[t].(status := Running)]
      case WakeInPlace(t) => s'.tasks == s.tasks[t := Task(s.tasks[t].cpu, true, Running)]
      case WakeBegin(t, _, _, dest) => s'.tasks == s.tasks[t := Task(dest, false, Waking)]
      case WakeEnd(t) => s'.tasks == s.tasks[t := Task(s.tasks[t].cpu, true, Running)]
      case Sleep(t) => s'.tasks == s.tasks[t := s.tasks[t].(onRq := false)]
      case Migrate(t, dest) => s'.tasks == s.tasks[t := s.tasks[t].(cpu := dest)]
      case Fork(t, cpu) => s'.tasks == s.tasks[t := Task(cpu, true, Running)]
      case SetStatus(t, st) => s'.tasks == s.tasks[t := s.tasks[t].(status := st)]
      case _ => s'.tasks == s.tasks
  {
  }

  function At(xs: seq<int>, i: nat): int { if i < |xs| then xs[i] else 0 }

  /** Which queue each step charges, by how much. */
  lemma QueuesAfter(s: State, a: Action, c: nat)
    requires Enabled(s, a) && c < |s.active| && forall t :: t in s.tasks ==> s.tasks[t].cpu < |s.active|
    ensures var s' := Apply(s, a);
      var run, unint := At(s'.running, c) - At(s.running, c), At(s'.uninterruptible, c) - At(s.uninterruptible, c);
      match a
      case Sleep(t) => var p := s.tasks[t];
        run == -Bit(c == p.cpu) && unint == Bit(c == p.cpu && p.status == Blocked)
      case WakeInPlace(t) => var p := s.tasks[t];
        run == Bit(c == p.cpu) && unint == -Bit(c == p.cpu && p.status == Blocked)
      case WakeBegin(t, online, here, _) => var p := s.tasks[t];
        run == 0 && unint == -Bit(c == (if online then p.cpu else here) && p.status == Blocked)
      case WakeEnd(t) => run == Bit(c == s.tasks[t].cpu) && unint == 0
      case Migrate(t, dest) => var p := s.tasks[t];
        && run == Bit(c == dest) - Bit(c == p.cpu)
        && unint == if p.status == Blocked then Bit(c == p.cpu) - Bit(c == dest) else 0
      case Fork(t, cpu) => run == Bit(c == cpu) && unint == 0
      case MoveUninterruptible(cpu, dest) =>
        run == 0 && unint == At(s.uninterruptible, cpu) * (Bit(c == dest) - Bit(c == cpu))
      case _ => run == 0 && unint == 0
  {
  }

  /** A CPU that goes down takes its active tasks out of the global count; the idle delta is taken as a whole. */
  lemma GlobalAfter(s: State, cpu: nat, w: nat)
    requires Enabled(s, RemoveLoad(cpu)) && Enabled(s, FoldIdle(w))
    ensures var s' := Apply(s, RemoveLoad(cpu));
      s'.loadTasks == s.loadTasks - s.active[cpu] && s'.active == s.active[cpu := 0] && s'.inFlight == s.inFlight
    ensures var s' := Apply(s, FoldIdle(w));
      s'.loadIdle == 0 && s'.inFlight == s.inFlight[w := s.inFlight[w] + s.loadIdle] && s'.loadTasks == s.loadTasks
  {
  }

  // ----- counting tasks

  datatype Kind = OnCpu(c: nat) | Queued | Loading

  predicate Is(k: Kind, p: Task) {
    match k
    case OnCpu(c) => p.onRq && p.cpu == c
    case Queued => p.onRq
    case Loading => !p.onRq && Contributes(p)
  }

  function Those(tasks: map<nat, Task>, k: Kind): set<nat> {
    set t | t in tasks && Is(k, tasks[t])
  }

  function Count(tasks: map<nat, Task>, k: Kind): nat { |Those(tasks, k)| }

  lemma CountSet(tasks: map<nat, Task>, t: nat, p: Task, k: Kind)
    ensures Count(tasks[t := p], k) == Count(tasks, k) - Bit(t in tasks && Is(k, tasks[t])) + Bit(Is(k, p))
  {
    OneChange(Those(tasks, k), Those(tasks[t := p], k), t);
  }

  // ----- the invariant

  /** Each queue counts its tasks; together the queues count the off-queue tasks that add to the load. */
  ghost predicate TasksCounted(s: State) {
    && Sizes(s)
    && (forall t :: t in s.tasks ==> s.tasks[t].cpu < |s.running|)
    && (forall c :: 0 <= c < |s.running| ==> s.running[c] == Count(s.tasks, OnCpu(c)))
    && Sum(s.running) == Count(s.tasks, Queued)
    && Sum(s.uninterruptible) == Count(s.tasks, Loading)
  }

  /** What has been folded is in one of the two global counters or on its way there. */
  ghost predicate LoadCounted(s: State) {
    Sum(s.active) == s.loadTasks + s.loadIdle + Sum(s.inFlight)
  }

  ghost predicate Inv(s: State) { TasksCounted(s) && LoadCounted(s) }

  lemma ActivateKeeps(s: State, t: nat, p: Task)
    requires TasksCounted(s) && !p.onRq && p.cpu < |s.running|
    requires (t in s.tasks ==> s.tasks[t] == p) && (t !in s.tasks ==> !Contributes(p))
    ensures TasksCounted(Activate(s, t, p))
  {
    var q := p.(onRq := true);
    forall c
      ensures Count(s.tasks[t := q], OnCpu(c)) == Count(s.tasks, OnCpu(c)) + Bit(p.cpu == c)
    {
      CountSet(s.tasks, t, q, OnCpu(c));
    }
    CountSet(s.tasks, t, q, Queued);
    CountSet(s.tasks, t, q, Loading);
    SumAdd(s.running, p.cpu, 1);
    SumAdd(s.uninterruptible, p.cpu, if Contributes(p) then -1 else 0);
  }

  lemma DeactivateKeeps(s: State, t: nat, p: Task)
    requires TasksCounted(s) && t in s.tasks && s.tasks[t] == p && p.onRq
    ensures TasksCounted(Deactivate(s, t, p))
  {
    var q := p.(onRq := false);
    forall c
      ensures Count(s.tasks[t := q], OnCpu(c)) == Count(s.tasks, OnCpu(c)) - Bit(p.cpu == c)
    {
      CountSet(s.tasks, t, q, OnCpu(c));
    }
    CountSet(s.tasks, t, q, Queued);
    CountSet(s.tasks, t, q, Loading);
    SumAdd(s.running, p.cpu, -1);
    SumAdd(s.uninterruptible, p.cpu, if Contributes(p) then 1 else 0);
  }

  /** A task that keeps its place in every count may change freely. */
  lemma RelabelKeeps(s: State, t: nat, p: Task)
    requires TasksCounted(s) && t in s.tasks && p.cpu < |s.running|
    requires forall k :: Is(k, p) == Is(k, s.tasks[t])
    ensures TasksCounted(SetTask(s, t, p))
  {
    forall k
      ensures Count(s.tasks[t := p], k) == Count(s.tasks, k)
    {
      CountSet(s.tasks, t, p, k);
    }
  }

  /** The first half of a wake-up takes the task out of the load, whichever queue it is subtracted from. */
  lemma WakeBeginKeeps(s: State, t: nat, from: nat, dest: nat)
    requires TasksCounted(s) && t in s.tasks && !s.tasks[t].onRq && from < |s.running| && dest < |s.running|
    ensures var p := s.tasks[t];
      TasksCounted(SetTask(s, t, p.(status := Waking, cpu := dest)).(
        uninterruptible := Add(s.uninterruptible, from, if Contributes(p) then -1 else 0)))
  {
    var p := s.tasks[t];
    var q := p.(status := Waking, cpu := dest);
    forall k
      ensures Count(s.tasks[t := q], k) == Count(s.tasks, k) - Bit(k == Loading && Contributes(p))
    {
      CountSet(s.tasks, t, q, k);
    }
    SumAdd(s.uninterruptible, from, if Contributes(p) then -1 else 0);
  }

  lemma MoveKeeps(s: State, cpu: nat, dest: nat)
    requires TasksCounted(s) && cpu < |s.running| && dest < |s.running| && cpu != dest
    ensures var n := s.uninterruptible[cpu];
      TasksCounted(s.(uninterruptible := Add(Add(s.uninterruptible, dest, n), cpu, -n)))
  {
    SumAdd(s.uninterruptible, dest, s.uninterruptible[cpu]);
    SumAdd(Add(s.uninterruptible, dest, s.uninterruptible[cpu]), cpu, -s.uninterruptible[cpu]);
  }

  /** Waking puts a task that sleeps, or is marked as waking, on its queue, running. */
  lemma WakeKeeps(s: State, t: nat)
    requires TasksCounted(s) && t in s.tasks && !s.tasks[t].onRq
    ensures var s1 := Activate(s, t, s.tasks[t]); TasksCounted(SetTask(s1, t, s1.tasks[t].(status := Running)))
  {
    ActivateKeeps(s, t, s.tasks[t]);
    var s1 := Activate(s, t, s.tasks[t]);
    RelabelKeeps(s1, t, s1.tasks[t].(status := Running));
  }

  /** Migration takes a task off one queue and puts it on another. */
  lemma MigrateKeeps(s: State, t: nat, dest: nat)
    requires TasksCounted(s) && t in s.tasks && s.tasks[t].onRq && dest < |s.running|
    ensures var s1 := Deactivate(s, t, s.tasks[t]); TasksCounted(Activate(s1, t, s1.tasks[t].(cpu := dest)))
  {
    DeactivateKeeps(s, t, s.tasks[t]);
    var s1 := Deactivate(s, t, s.tasks[t]);
    var q := s1.tasks[t].(cpu := dest);
    RelabelKeeps(s1, t, q);
    ActivateKeeps(SetTask(s1, t, q), t, q);
    ActivateAfterSet(s1, t, q);
  }

  lemma ActivateAfterSet(s: State, t: nat, p: Task)
    ensures Activate(SetTask(s, t, p), t, p) == Activate(s, t, p)
  {
    assert s.tasks[t := p][t := p.(onRq := true)] == s.tasks[t := p.(onRq := true)];
  }

  lemma KeepsTasksCounted(s: State, a: Action)
    requires TasksCounted(s) && Enabled(s, a)
    ensures TasksCounted(Apply(s, a))
  {
    match a
    case SetStatus(t, st) => RelabelKeeps(s, t, s.tasks[t].(status := st));
    case Sleep(t) => DeactivateKeeps(s, t, s.tasks[t]);
    case WakeQueued(t) => RelabelKeeps(s, t, s.tasks[t].(status := Running));
    case WakeInPlace(t) => WakeKeeps(s, t);
    case WakeBegin(t, online, here, dest) => WakeBeginKeeps(s, t, if online then s.tasks[t].cpu else here, dest);
    case WakeEnd(t) => WakeKeeps(s, t);
    case Migrate(t, dest) => MigrateKeeps(s, t, dest);
    case Fork(t, cpu) => ActivateKeeps(s, t, Task(cpu, false, Running));
    case MoveUninterruptible(cpu, dest) => MoveKeeps(s, cpu, dest);
    case _ =>
  }

  lemma KeepsLoadCounted(s: State, a: Action)
    requires LoadCounted(s) && Enabled(s, a)
    ensures LoadCounted(Apply(s, a))
  {
    match a
    case RemoveLoad(cpu) => SumAdd(s.active, cpu, -s.active[cpu]);
    case FoldActive(cpu, w) =>
      SumAdd(s.active, cpu, FoldDelta(s, cpu));
      SumAdd(s.inFlight, w, FoldDelta(s, cpu));
    case FoldIdle(w) => SumAdd(s.inFlight, w, s.loadIdle);
    case AddTasks(w) => SumAdd(s.inFlight, w, -s.inFlight[w]);
    case AddIdle(w) => SumAdd(s.inFlight, w, -s.inFlight[w]);
    case _ =>
  }

  // ----- runs

  /** No tasks yet, on `cpus` CPUs with `contexts` execution contexts. */
  function Init(cpus: nat, contexts: nat): State {
    State(map[], seq(cpus, _ => 0), seq(cpus, _ => 0), seq(cpus, _ => 0), 0, 0, seq(contexts, _ => 0))
  }

  ghost predicate Next(s: State, s': State) {
    exists a :: Enabled(s, a) && s' == Apply(s, a)
  }

  ghost predicate Run(tr: seq<State>, cpus: nat, contexts: nat) {
    && |tr| > 0
    && tr[0] == Init(cpus, contexts)
    && forall i :: 0 <= i < |tr| - 1 ==> Next(tr[i], tr[i + 1])
  }

  lemma {:induction false} SumZero(n: nat)
    ensures Sum(seq(n, _ => 0)) == 0
  {
    if n > 0 {
      assert seq(n, _ => 0)[1..] == seq(n - 1, _ => 0);
      SumZero(n - 1);
    }
  }

  lemma InitInv(cpus: nat, contexts: nat)
    ensures Inv(Init(cpus, contexts))
  {
    SumZero(cpus);
    SumZero(contexts);
    assert forall k :: Those(map[], k) == {};
  }

  /** In every run: queue by queue nr_running, in sum nr_uninterruptible, and in sum the folded load, are exact. */
  lemma {:induction false} AccountsBalance(tr: seq<State>, cpus: nat, contexts: nat, i: nat)
    requires Run(tr, cpus, contexts) && i < |tr|
    ensures Inv(tr[i])
  {
    if i == 0 {
      InitInv(cpus, contexts);
    } else {
      AccountsBalance(tr, cpus, contexts, i - 1);
      assert Next(tr[i - 1], tr[i - 1 + 1]);
      var a :| Enabled(tr[i - 1], a) && tr[i] == Apply(tr[i - 1], a);
      KeepsTasksCounted(tr[i - 1], a);
      KeepsLoadCounted(tr[i - 1], a);
    }
  }

  lemma {:induction false} SumOfSums(xs: seq<int>, ys: seq<int>, zs: seq<int>)
    requires |xs| == |ys| == |zs| && forall c :: 0 <= c < |xs| ==> zs[c] == xs[c] + ys[c]
    ensures Sum(zs) == Sum(xs) + Sum(ys)
  {
    if xs != [] {
      SumOfSums(xs[1..], ys[1..], zs[1..]);
    }
  }

  // ----- folding

  /**
    Folding brings a queue's active count up to its running and uninterruptible tasks; what is new is on its way, and
    nothing else changes.
   */
  lemma FoldExact(s: State, cpu: nat, w: nat)
    requires Enabled(s, FoldActive(cpu, w))
    ensures var s' := Apply(s, FoldActive(cpu, w));
      && s'.active == s.active[cpu := s.running[cpu] + s.uninterruptible[cpu]]
      && s'.inFlight == s.inFlight[w := s.inFlight[w] + s.running[cpu] + s.uninterruptible[cpu] - s.active[cpu]]
      && (s'.running, s'.uninterruptible, s'.tasks) == (s.running, s.uninterruptible, s.tasks)
      && (s'.loadTasks, s'.loadIdle) == (s.loadTasks, s.loadIdle)
  {
  }

  /** A delta in flight is added to one of the global counts, whole and once. */
  lemma DeltaAdded(s: State, w: nat)
    requires Enabled(s, AddTasks(w))
    ensures var s' := Apply(s, AddTasks(w));
      s'.loadTasks == s.loadTasks + s.inFlight[w] && s'.inFlight == s.inFlight[w := 0] && s'.loadIdle == s.loadIdle
    ensures var s' := Apply(s, AddIdle(w));
      s'.loadIdle == s.loadIdle + s.inFlight[w] && s'.inFlight == s.inFlight[w := 0] && s'.loadTasks == s.loadTasks
  {
  }

  ghost predicate Takes(s: State, a: Action, s': State) {
    Enabled(s, a) && s' == Apply(s, a)
  }

  /** A run with its actions. */
  ghost predicate Acts(tr: seq<State>, actions: seq<Action>, cpus: nat, contexts: nat) {
    && |tr| == |actions| + 1
    && tr[0] == Init(cpus, contexts)
    && forall i {:trigger Takes(tr[i], actions[i], tr[i + 1])} :: 0 <= i < |actions| ==> Takes(tr[i], actions[i], tr[i + 1])
  }

  lemma StepTaken(tr: seq<State>, actions: seq<Action>, cpus: nat, contexts: nat, k: nat)
    requires Acts(tr, actions, cpus, contexts) && k < |actions|
    ensures Takes(tr[k], actions[k], tr[k + 1])
  {
  }

  lemma ActsRun(tr: seq<State>, actions: seq<Action>, cpus: nat, contexts: nat)
    requires Acts(tr, actions, cpus, contexts)
    ensures Run(tr, cpus, contexts)
  {
    forall i | 0 <= i < |tr| - 1
      ensures Next(tr[i], tr[i + 1])
    {
      assert Takes(tr[i], actions[i], tr[i + 1]);
    }
  }

  /** The counters that a fold of queue `c` looks at. */
  function Counters(s: State, c: nat): (int, int) {
    if c < |s.running| && c < |s.uninterruptible| then (s.running[c], s.uninterruptible[c]) else (0, 0)
  }

  /** Step `j` folds queue `c`; until state `i` its counters stay as they are and its CPU is not taken down. */
  ghost predicate FoldedAt(tr: seq<State>, actions: seq<Action>, c: nat, j: nat, i: nat) {
    && |tr| == |actions| + 1 && j < i < |tr|
    && actions[j].FoldActive? && actions[j].cpu == c
    && (forall k :: j <= k <= i ==> Counters(tr[k], c) == Counters(tr[j], c))
    && (forall k :: j < k < i ==> actions[k] != RemoveLoad(c))
  }

  /** Queue `c` has been folded since its counters last changed. */
  ghost predicate UpToDate(tr: seq<State>, actions: seq<Action>, c: nat, i: nat) {
    exists j :: FoldedAt(tr, actions, c, j, i)
  }

  /** Who else touches a queue's active count. */
  lemma ActiveStays(s: State, a: Action, c: nat)
    requires Enabled(s, a) && c < |s.active| && a != RemoveLoad(c)
    ensures c < |Apply(s, a).active|
    ensures Apply(s, a).active[c] == if a.FoldActive? && a.cpu == c then s.running[c] + s.uninterruptible[c] else s.active[c]
  {
  }

  lemma {:induction false} FoldedIsExact(tr: seq<State>, actions: seq<Action>, cpus: nat, contexts: nat, c: nat, j: nat, i: nat)
    requires Acts(tr, actions, cpus, contexts) && c < cpus && FoldedAt(tr, actions, c, j, i)
    ensures |tr[i].active| == cpus && tr[i].active[c] == Counters(tr[i], c).0 + Counters(tr[i], c).1
    decreases i
  {
    SizesStay(tr, actions, cpus, contexts, i - 1);
    SizesStay(tr, actions, cpus, contexts, i);
    StepTaken(tr, actions, cpus, contexts, i - 1);
    ActiveStays(tr[i - 1], actions[i - 1], c);
    assert Counters(tr[i - 1], c) == Counters(tr[j], c) == Counters(tr[i], c);
    if i - 1 > j {
      FoldedIsExact(tr, actions, cpus, contexts, c, j, i - 1);
    }
  }

  lemma {:induction false} SizesStay(tr: seq<State>, actions: seq<Action>, cpus: nat, contexts: nat, i: nat)
    requires Acts(tr, actions, cpus, contexts) && i < |tr|
    ensures |tr[i].running| == |tr[i].uninterruptible| == |tr[i].active| == cpus && |tr[i].inFlight| == contexts
  {
    if i > 0 {
      SizesStay(tr, actions, cpus, contexts, i - 1);
      StepTaken(tr, actions, cpus, contexts, i - 1);
      SizesStep(tr[i - 1], actions[i - 1]);
    }
  }

  lemma SizesStep(s: State, a: Action)
    requires Enabled(s, a)
    ensures var s' := Apply(s, a);
      |s'.running| == |s.running| && |s'.uninterruptible| == |s.uninterruptible| && |s'.active| == |s.active| && |s'.inFlight| == |s.inFlight|
  {
  }

  lemma {:induction false} SumOfZeros(xs: seq<int>)
    requires forall k :: 0 <= k < |xs| ==> xs[k] == 0
    ensures Sum(xs) == 0
  {
    if xs != [] {
      SumOfZeros(xs[1..]);
    }
  }

  /**
    When every queue has been folded since its counters last changed, and every delta has been added, the global count
    is the number of tasks that make the load: those on a queue and those in uninterruptible sleep.
   */
  lemma GlobalLoadExact(tr: seq<State>, actions: seq<Action>, cpus: nat, contexts: nat, i: nat)
    requires Acts(tr, actions, cpus, contexts) && i < |tr|
    requires forall c: nat :: c < cpus ==> UpToDate(tr, actions, c, i)
    requires forall w :: 0 <= w < |tr[i].inFlight| ==> tr[i].inFlight[w] == 0
    ensures tr[i].loadTasks + tr[i].loadIdle
         == |set t | t in tr[i].tasks && (tr[i].tasks[t].onRq || tr[i].tasks[t].status == Blocked)|
  {
    SizesStay(tr, actions, cpus, contexts, i);
    forall c: nat | c < cpus
      ensures tr[i].active[c] == tr[i].running[c] + tr[i].uninterruptible[c]
    {
      assert UpToDate(tr, actions, c, i);
      var j :| FoldedAt(tr, actions, c, j, i);
      FoldedIsExact(tr, actions, cpus, contexts, c, j, i);
    }
    ActsRun(tr, actions, cpus, contexts);
    SumOfZeros(tr[i].inFlight);
    FoldedLoad(tr, cpus, contexts, i);
  }

  /** When every queue has been folded and no delta is in flight, the global count is the number of tasks that make the load. */
  lemma FoldedLoad(tr: seq<State>, cpus: nat, contexts: nat, i: nat)
    requires Run(tr, cpus, contexts) && i < |tr|
    requires forall c :: 0 <= c < |tr[i].active| && c < |tr[i].running| && c < |tr[i].uninterruptible|
               ==> tr[i].active[c] == tr[i].running[c] + tr[i].uninterruptible[c]
    requires Sum(tr[i].inFlight) == 0
    ensures tr[i].loadTasks + tr[i].loadIdle == |set t | t in tr[i].tasks && (tr[i].tasks[t].onRq || tr[i].tasks[t].status == Blocked)|
  {
    var s := tr[i];
    AccountsBalance(tr, cpus, contexts, i);
    SumOfSums(s.running, s.uninterruptible, s.active);
    var both := set t | t in s.tasks && (s.tasks[t].onRq || s.tasks[t].status == Blocked);
    assert both == Those(s.tasks, Queued) + Those(s.tasks, Loading);
    assert Those(s.tasks, Queued) !! Those(s.tasks, Loading);
  }
}
