/** The queue of tasks that are run one at a time, each until it says that it is done. */
module AsyncQueues {
  import opened Wrappers

  const TERMINATE := -1

  // The tasks in order of arrival, and the waits of the timers that will call run_task.
  datatype QueueState<T> = QueueState(tasks: seq<T>, timers: multiset<int>)

  function AfterAdd<T>(q: QueueState<T>, task: T): QueueState<T> {
    QueueState(q.tasks + [task], if q.tasks == [] then q.timers + multiset{0} else q.timers)
  }

  /** After the timer `due` has run the front task, which added tasks itself and returned `wait`. */
  function AfterRun<T>(q: QueueState<T>, due: int, added: seq<T>, wait: int): QueueState<T>
    requires q.tasks != []
  {
    var tasks := if wait == TERMINATE then q.tasks[1..] + added else q.tasks + added;
    var next := if wait == TERMINATE then 0 else wait;
    QueueState(tasks, q.timers - multiset{due} + if tasks == [] then multiset{} else multiset{next})
  }

  class AsyncQueue<T> {
    var callbacks: seq<T>
    var timers: multiset<int>

    function State(): QueueState<T>
      reads this
    {
      QueueState(callbacks, timers)
    }

    constructor ()
      ensures State() == QueueState([], multiset{})
    {
      callbacks, timers := [], multiset{};
    }

    method AddTask(callback: T)
      modifies this
      ensures State() == AfterAdd(old(State()), callback)
      ensures callbacks == old(callbacks) + [callback]
      ensures timers == old(timers) + if old(callbacks) == [] then multiset{0} else multiset{}
    {
      callbacks := callbacks + [callback];
      if |callbacks| == 1 {
        timers := timers + multiset{0};
      }
    }

    /** What a running task adds waits behind it: no timer is set. */
    method AddFromTask(added: seq<T>)
      requires callbacks != []
      modifies this
      ensures callbacks == old(callbacks) + added && timers == old(timers)
    {
      for i := 0 to |added|
        invariant callbacks == old(callbacks) + added[..i] && timers == old(timers)
      {
        AddTask(added[i]);
        assert added[..i + 1] == added[..i] + [added[i]];
      }
      assert added[..|added|] == added;
    }

    method RunTask(due: int, added: seq<T>, wait: int)
      requires callbacks != [] && due in timers
      modifies this
      ensures State() == AfterRun(old(State()), due, added, wait)
      ensures callbacks == (if wait == TERMINATE then old(callbacks)[1..] else old(callbacks)) + added
      ensures timers == old(timers) - multiset{due}
                        + if wait != TERMINATE then multiset{wait}
                          else if |old(callbacks)| + |added| > 1 then multiset{0} else multiset{}
    {
      timers := timers - multiset{due};
      AddFromTask(added);
      if wait == TERMINATE {
        callbacks := callbacks[1..];
        assert callbacks == old(callbacks)[1..] + added;
        if |callbacks| > 0 {
          timers := timers + multiset{0};
        }
      } else {
        timers := timers + multiset{wait};
      }
    }

    method Empty() returns (empty: bool)
      ensures empty <==> State().tasks == []
    {
      empty := |callbacks| == 0;
    }
  }

  // ----- Runs -----

  // What happens to a queue: others add tasks, and timers fire.
  datatype Event<T> = Add(task: T) | Fire(due: int, added: seq<T>, wait: int)

  // A queue and its past: every task that arrived, those that finished, which task each run was of,
  // by order of arrival, and what the last run returned.
  datatype Trace<T> = Trace(q: QueueState<T>, arrived: seq<T>, finished: seq<T>, ran: seq<nat>, last: Option<int>)

  function InitTrace<T>(): Trace<T> {
    Trace(QueueState([], multiset{}), [], [], [], None)
  }

  /** A fired timer calls run_task, which takes the front of the queue whether or not there is one. */
  predicate Enabled<T>(q: QueueState<T>, e: Event<T>) {
    e.Fire? ==> e.due in q.timers
  }

  function Next<T>(t: Trace<T>, e: Event<T>): Trace<T>
    requires e.Fire? ==> t.q.tasks != []
  {
    match e
    case Add(task) => t.(q := AfterAdd(t.q, task), arrived := t.arrived + [task])
    case Fire(due, added, wait) =>
      Trace(
        AfterRun(t.q, due, added, wait),
        t.arrived + added,
        if wait == TERMINATE then t.finished + [t.q.tasks[0]] else t.finished,
        t.ran + [|t.finished|],
        Some(wait))
  }

  /** Where a run ends; None stands for taking the front of an empty queue. */
  function Run<T>(events: seq<Event<T>>): Option<Trace<T>> {
    if events == [] then Some(InitTrace())
    else
      var before, e := Run(events[..|events| - 1]), events[|events| - 1];
      if before.None? || (e.Fire? && before.value.q.tasks == []) then None else Some(Next(before.value, e))
  }

  /** Timers fire only if they are pending. */
  predicate Possible<T>(events: seq<Event<T>>) {
    if events == [] then true
    else
      var before, e := Run(events[..|events| - 1]), events[|events| - 1];
      Possible(events[..|events| - 1]) && (before.Some? ==> Enabled(before.value.q, e))
  }

  /** Runs of one task are together, no task is passed over, and none runs after it has finished. */
  predicate InOrder(ran: seq<nat>, finished: nat, idle: bool) {
    && (forall i :: 0 <= i < |ran| ==> ran[i] <= finished)
    && (forall i, j :: 0 <= i < j < |ran| ==> ran[i] <= ran[j])
    && (forall k :: 0 <= k < finished ==> k in ran)
    && (idle ==> finished !in ran)
  }

  /** The wait that the last run asked for, or none if it ended its task or there was no run. */
  function NextWait(last: Option<int>): int {
    if last.Some? && last.value != TERMINATE then last.value else 0
  }

  ghost predicate Disciplined<T>(t: Trace<T>) {
    && t.q.timers == (if t.q.tasks == [] then multiset{} else multiset{NextWait(t.last)})
    && (t.q.tasks == [] && t.last.Some? ==> t.last.value == TERMINATE)
    && t.finished + t.q.tasks == t.arrived
    && InOrder(t.ran, |t.finished|, t.q.tasks == [])
  }

  lemma StepKeeps<T>(t: Trace<T>, e: Event<T>)
    requires Disciplined(t) && Enabled(t.q, e)
    ensures e.Fire? ==> t.q.tasks != []
    ensures Disciplined(Next(t, e))
  {
    if e.Fire? {
      FireKeepsTimer(t, e);
      FireKeepsTasks(t, e);
      FireKeepsOrder(t, e);
    }
  }

  lemma FireKeepsTimer<T>(t: Trace<T>, e: Event<T>)
    requires Disciplined(t) && e.Fire? && Enabled(t.q, e)
    ensures t.q.tasks != []
    ensures Next(t, e).q.timers == if Next(t, e).q.tasks == [] then multiset{} else multiset{NextWait(Some(e.wait))}
  {
    assert t.q.timers == multiset{e.due};
    assert t.q.timers - multiset{e.due} == multiset{};
  }

  lemma FireKeepsTasks<T>(t: Trace<T>, e: Event<T>)
    requires e.Fire? && t.q.tasks != [] && t.finished + t.q.tasks == t.arrived
    ensures Next(t, e).finished + Next(t, e).q.tasks == Next(t, e).arrived
  {
    assert t.q.tasks == [t.q.tasks[0]] + t.q.tasks[1..];
  }

  lemma FireKeepsOrder<T>(t: Trace<T>, e: Event<T>)
    requires e.Fire? && t.q.tasks != [] && InOrder(t.ran, |t.finished|, false)
    ensures InOrder(Next(t, e).ran, |Next(t, e).finished|, Next(t, e).q.tasks == [])
  {
    var ran := t.ran + [|t.finished|];
    assert ran[|t.ran|] == |t.finished|;
    assert forall k :: k in t.ran ==> k in ran;
  }

  /**
   In every run: no timer ever finds the queue empty; exactly one is pending if there are tasks, for the
   wait that the last run asked for, or at once if that ended its task; none is pending otherwise; and
   tasks run and finish one after the other in order of arrival.
   */
  lemma {:induction false} RunsAreDisciplined<T>(events: seq<Event<T>>)
    requires Possible(events)
    ensures Run(events).Some? && Disciplined(Run(events).value)
  {
    if events == [] {
      assert InOrder([], 0, true);
    } else {
      RunsAreDisciplined(events[..|events| - 1]);
      StepKeeps(Run(events[..|events| - 1]).value, events[|events| - 1]);
    }
  }
}
