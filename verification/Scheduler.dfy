/** The scheduler: any thread enters tasks, one runner takes them when they are due. */
module Scheduler {

  // heapq is used by its contract: the list holds the same tasks and its first element is one of
  // the earliest. Time is a clock that never goes back. The runner may sleep longer than it asked.

  import opened Util

  datatype Task = Task(id: nat, time: real, stop: bool)

  const EMPTY_QUEUE_TIMEOUT := 600.0

  datatype Phase = Top | Running(task: Task) | Blocked(deadline: real) | Stopped

  datatype State = State(
    now: real,
    queue: seq<Task>,
    event: bool,
    pendingSets: nat,          // enterabs calls between their push and their event.set()
    phase: Phase,
    log: seq<(Task, real)>,    // tasks run so far, each with the time its action started
    entered: seq<Task>)

  ghost predicate HeadIsLeast(q: seq<Task>) {
    forall t :: t in q ==> q[0].time <= t.time
  }

  ghost predicate Pushed(q: seq<Task>, t: Task, q2: seq<Task>) {
    multiset(q2) == multiset(q) + multiset{t} && HeadIsLeast(q2)
  }

  ghost predicate Popped(q: seq<Task>, q2: seq<Task>) {
    q != [] && multiset(q2) == multiset(q) - multiset{q[0]} && HeadIsLeast(q2)
  }

  // ---------- the two blocks run under the lock ----------

  function PushFirst(t: Task, q2: seq<Task>): bool
  {
    q2 != [] && q2[0] == t
  }

  ghost function EnterStep(s: State, t: Task, q2: seq<Task>): State {
    s.(queue := q2, entered := s.entered + [t], pendingSets := s.pendingSets + if PushFirst(t, q2) then 1 else 0)
  }

  predicate HeadDue(s: State) {
    s.queue != [] && s.queue[0].time <= s.now
  }

  ghost function TopStep(s: State, q2: seq<Task>): State {
    if HeadDue(s) then s.(queue := q2, event := false, phase := Running(s.queue[0]))
    else s.(event := false,
            phase := Blocked(if s.queue != [] then s.queue[0].time else s.now + EMPTY_QUEUE_TIMEOUT))
  }

  // ---------- steps ----------

  datatype Event =
    | Enter(task: Task, queue: seq<Task>)
    | SetEvent
    | Look(queue: seq<Task>)
    | RunTask
    | Wake
    | Tick(elapsed: real)

  ghost predicate Enabled(s: State, e: Event) {
    match e
    case Enter(t, q2) => Pushed(s.queue, t, q2) && forall u :: u in s.entered ==> u.id != t.id
    case SetEvent => s.pendingSets > 0
    case Look(q2) => s.phase.Top? && (HeadDue(s) ==> Popped(s.queue, q2))
    case RunTask => s.phase.Running?
    case Wake => s.phase.Blocked? && (s.event || s.now >= s.phase.deadline)
    case Tick(d) => d >= 0.0
  }

  ghost function Step(s: State, e: Event): State
    requires Enabled(s, e)
  {
    match e
    case Enter(t, q2) => EnterStep(s, t, q2)
    case SetEvent => s.(pendingSets := s.pendingSets - 1, event := true)
    case Look(q2) => TopStep(s, q2)
    case RunTask =>
      var t := s.phase.task;
      s.(log := s.log + [(t, s.now)], phase := if t.stop then Stopped else Top)
    case Wake => s.(phase := Top)
    case Tick(d) => s.(now := s.now + d)
  }

  ghost predicate Init(s: State) {
    s.queue == [] && !s.event && s.pendingSets == 0 && s.phase == Top && s.log == [] && s.entered == []
  }

  // ---------- invariants ----------

  ghost function Started(log: seq<(Task, real)>): (r: seq<Task>)
    ensures |r| == |log|
    ensures forall i :: 0 <= i < |log| ==> r[i] == log[i].0
  {
    seq(|log|, i requires 0 <= i < |log| => log[i].0)
  }

  ghost function InHand(p: Phase): multiset<Task> {
    if p.Running? then multiset{p.task} else multiset{}
  }

  /** Every task entered is queued, about to run, or has started: none is lost or run twice. */
  ghost predicate Accounted(s: State) {
    && multiset(s.entered) == multiset(s.queue) + InHand(s.phase) + multiset(Started(s.log))
    && (forall i, j :: 0 <= i < j < |s.entered| ==> s.entered[i].id != s.entered[j].id)
  }

  ghost predicate NotEarly(s: State) {
    && (forall i :: 0 <= i < |s.log| ==> s.log[i].0.time <= s.log[i].1)
    && (s.phase.Running? ==> s.phase.task.time <= s.now)
  }

  /** While the runner blocks until D, nothing due before D can be forgotten. */
  ghost predicate NotForgotten(s: State) {
    s.phase.Blocked? ==>
      s.event || s.pendingSets > 0 || forall t :: t in s.queue ==> s.phase.deadline <= t.time
  }

  ghost predicate Inv(s: State) {
    HeadIsLeast(s.queue) && Accounted(s) && NotEarly(s) && NotForgotten(s)
  }

  lemma EnterInv(s: State, t: Task, q2: seq<Task>)
    requires Inv(s) && Enabled(s, Enter(t, q2))
    ensures Inv(EnterStep(s, t, q2))
  {
    var u := EnterStep(s, t, q2);
    assert t in multiset(q2);
    if u.phase.Blocked? && !u.event && u.pendingSets == 0 {
      forall x | x in q2 ensures u.phase.deadline <= x.time {
        assert q2[0] in multiset(q2) && q2[0] in s.queue;
      }
    }
  }

  lemma RunTaskInv(s: State)
    requires Inv(s) && Enabled(s, RunTask)
    ensures Inv(Step(s, RunTask))
  {
    var t := Step(s, RunTask);
    assert Started(t.log) == Started(s.log) + [s.phase.task];
  }

  lemma StepInv(s: State, e: Event)
    requires Inv(s) && Enabled(s, e)
    ensures Inv(Step(s, e))
  {
    match e
    case Enter(t, q2) => EnterInv(s, t, q2);
    case Look(q2) =>
    case RunTask => RunTaskInv(s);
    case SetEvent =>
    case Wake =>
    case Tick(_) =>
  }

  ghost predicate Valid(s: State, es: seq<Event>)
    decreases |es|
  {
    es != [] ==> Enabled(s, es[0]) && Valid(Step(s, es[0]), es[1..])
  }

  ghost function Final(s: State, es: seq<Event>): State
    requires Valid(s, es)
    decreases |es|
  {
    if es == [] then s else Final(Step(s, es[0]), es[1..])
  }

  lemma {:induction false} RunInv(s: State, es: seq<Event>)
    requires Inv(s) && Valid(s, es)
    ensures Inv(Final(s, es))
    decreases |es|
  {
    if es != [] {
      StepInv(s, es[0]);
      RunInv(Step(s, es[0]), es[1..]);
    }
  }

  lemma SplitAt<T>(s: seq<T>, k: nat)
    requires k < |s|
    ensures multiset(s) == multiset(s[..k]) + multiset{s[k]} + multiset(s[k + 1..])
  {
    assert s == s[..k] + [s[k]] + s[k + 1..];
  }

  lemma CountTwice<T>(s: seq<T>, i: nat, j: nat)
    requires i < j < |s| && s[i] == s[j]
    ensures multiset(s)[s[i]] >= 2
  {
    SplitAt(s, i);
    assert s[j] == s[i + 1..][j - i - 1];
    assert s[j] in multiset(s[i + 1..]);
  }

  lemma CountOnce(s: seq<Task>, k: nat)
    requires k < |s| && forall i, j :: 0 <= i < j < |s| ==> s[i].id != s[j].id
    ensures multiset(s)[s[k]] == 1
  {
    SplitAt(s, k);
    assert s[k] !in s[..k] && s[k] !in s[k + 1..];
  }

  lemma NoRepeat(log: seq<Task>, all: seq<Task>, i: nat, j: nat)
    requires i < j < |log| && multiset(log) <= multiset(all)
    requires forall k, l :: 0 <= k < l < |all| ==> all[k].id != all[l].id
    ensures log[i].id != log[j].id
  {
    assert log[i] in multiset(all) && log[j] in multiset(all);
    if log[i].id == log[j].id {
      var k :| 0 <= k < |all| && all[k] == log[i];
      var l :| 0 <= l < |all| && all[l] == log[j];
      CountTwice(log, i, j);
      CountOnce(all, k);
    }
  }

  /** In every run: no task starts before its time or twice, and the runner never sleeps through a due task. */
  lemma SchedulerIsCorrect(s: State, es: seq<Event>)
    requires Init(s) && Valid(s, es)
    ensures var t := Final(s, es);
            && (forall i :: 0 <= i < |t.log| ==> t.log[i].0.time <= t.log[i].1)
            && (forall i, j :: 0 <= i < j < |t.log| ==> t.log[i].0.id != t.log[j].0.id)
            && multiset(t.entered) == multiset(t.queue) + InHand(t.phase) + multiset(Started(t.log))
            && (t.phase.Blocked? ==>
                 t.event || t.pendingSets > 0 || forall u :: u in t.queue ==> t.phase.deadline <= u.time)
  {
    assert Started(s.log) == [];
    RunInv(s, es);
    var t := Final(s, es);
    forall i, j | 0 <= i < j < |t.log| ensures t.log[i].0.id != t.log[j].0.id {
      NoRepeat(Started(t.log), t.entered, i, j);
    }
  }

  /** The task taken to run is one of the earliest queued; with nothing queued the runner sleeps ten minutes. */
  lemma LookTakesEarliest(s: State, q2: seq<Task>)
    requires Inv(s) && Enabled(s, Look(q2))
    ensures var t := Step(s, Look(q2));
            && (t.phase.Running? <==> exists u :: u in s.queue && u.time <= s.now)
            && (t.phase.Running? ==> t.phase.task in s.queue && forall u :: u in s.queue ==> t.phase.task.time <= u.time)
            && (s.queue == [] ==> t.phase == Blocked(s.now + 600.0))
            && !t.event && t.entered == s.entered && t.log == s.log
  {
  }

  /** The log has what the clock showed when each task started. */
  lemma StartIsLogged(s: State, e: Event)
    requires Enabled(s, e)
    ensures Step(s, e).log == s.log + if e.RunTask? then [(s.phase.task, s.now)] else []
    ensures Step(s, e).now == s.now + if e.Tick? then e.elapsed else 0.0
  {
  }

  /** A task that says stop is the last one to start. */
  ghost predicate StopIsLast(s: State) {
    && (forall i :: 0 <= i < |s.log| - 1 ==> !s.log[i].0.stop)
    && (s.log != [] && s.log[|s.log| - 1].0.stop <==> s.phase.Stopped?)
  }

  lemma {:induction false} NothingAfterStop(s: State, es: seq<Event>)
    requires StopIsLast(s) && Valid(s, es)
    ensures StopIsLast(Final(s, es))
    decreases |es|
  {
    if es != [] {
      StopStep(s, es[0]);
      NothingAfterStop(Step(s, es[0]), es[1..]);
    }
  }

  lemma StopStep(s: State, e: Event)
    requires StopIsLast(s) && Enabled(s, e)
    ensures StopIsLast(Step(s, e))
  {
  }

  // ---------- the object ----------

  method HeapPush(q: seq<Task>, t: Task) returns (q2: seq<Task>)
    requires HeadIsLeast(q)
    ensures Pushed(q, t, q2)
  {
    q2 := if q == [] || t.time < q[0].time then [t] + q else q + [t];
  }

  /** Drop the first task and bring one of the earliest others to the front. */
  method HeapPop(q: seq<Task>) returns (q2: seq<Task>)
    requires q != []
    ensures Popped(q, q2)
  {
    q2 := q[1..];
    assert q == [q[0]] + q2;
    if q2 == [] { return; }
    var least := 0;
    for i := 1 to |q2|
      invariant least < |q2|
      invariant forall k :: 0 <= k < i ==> q2[least].time <= q2[k].time
    {
      if q2[i].time < q2[least].time { least := i; }
    }
    ghost var rest := q2;
    SplitAt(rest, least);
    q2 := [q2[least]] + (q2[..least] + q2[least + 1..]);
    assert multiset(q2) == multiset(rest);
    forall t | t in q2 ensures q2[0].time <= t.time {
      assert t in multiset(rest);
    }
  }

  class Scheduler {
    var queue: seq<Task>
    var event: bool

    constructor ()
      ensures queue == [] && !event
    {
      queue, event := [], false;
    }

    /** The block of enterabs; the caller sets the event afterwards if `first`. */
    method EnterAbs(t: Task) returns (first: bool)
      requires HeadIsLeast(queue)
      modifies this`queue
      ensures Pushed(old(queue), t, queue)
      ensures first == PushFirst(t, queue)
    {
      queue := HeapPush(queue, t);
      first := queue[0] == t;
    }

    method Notify()
      modifies this`event
      ensures event
    {
      event := true;
    }

    /** The block of run: a task to run now, or how long to block. */
    method LookAtHead(now: real) returns (task: Option<Task>, delay: real)
      requires HeadIsLeast(queue)
      modifies this
      ensures !event
      ensures task.Some? ==> old(queue) != [] && task.value == old(queue)[0] && task.value.time <= now && Popped(old(queue), queue)
      ensures task.None? ==> queue == old(queue) && delay > 0.0 && forall t :: t in queue ==> now + delay <= t.time
      ensures forall s: State :: s.now == now && s.queue == old(queue) && s.phase.Top? ==>
                TopStep(s, queue) == s.(queue := queue, event := false,
                                        phase := if task.Some? then Running(task.value) else Blocked(now + delay))
    {
      task, delay := None, 0.0;
      if queue != [] {
        if queue[0].time <= now {
          task := Some(queue[0]);
          queue := HeapPop(queue);
        } else {
          delay := queue[0].time - now;
        }
      } else {
        delay := EMPTY_QUEUE_TIMEOUT;
      }
      event := false;
    }
  }
}
