/** The counter of live service handles, and the waiter that is woken when the
    last one goes. */
module ActiveHandles {
  import opened Options

  type Handle = nat
  type TaskId = nat

  /** The shared cell, the handles that exist, and the tasks woken so far. */
  datatype Info = Info(active: int, blocker: Option<TaskId>, live: set<Handle>, woken: seq<TaskId>)

  /** One handle, held by the service. */
  function Start(first: Handle): Info { Info(1, None, {first}, []) }

  datatype Event =
    | Clone(from: Handle, to: Handle)
    | Drop(handle: Handle)
    | Poll(task: TaskId)

  predicate Enabled(s: Info, e: Event) {
    match e
    case Clone(from, to) => from in s.live && to !in s.live
    case Drop(h) => h in s.live
    case Poll(_) => true
  }

  function Step(s: Info, e: Event): Info
    requires Enabled(s, e)
  {
    match e
    case Clone(_, to) => s.(active := s.active + 1, live := s.live + {to})
    case Drop(h) =>
      var left := s.(active := s.active - 1, live := s.live - {h});
      if left.active == 0 && left.blocker.Some?
      then left.(blocker := None, woken := s.woken + [s.blocker.value])
      else left
    case Poll(task) => if s.active == 0 then s else s.(blocker := Some(task))
  }

  /** A poll is ready when no handle is left. */
  function Ready(s: Info): bool { s.active == 0 }

  predicate IsRun(s: Info, events: seq<Event>)
    decreases |events|, 0
  {
    events != [] ==>
      IsRun(s, events[..|events| - 1]) && Enabled(Run(s, events[..|events| - 1]), events[|events| - 1])
  }

  function Run(s: Info, events: seq<Event>): Info
    requires IsRun(s, events)
    decreases |events|, 1
  {
    if events == [] then s else Step(Run(s, events[..|events| - 1]), events[|events| - 1])
  }

  /** The last task that polled while some handle was live. */
  function LastWaiter(s: Info, events: seq<Event>): Option<TaskId>
    requires IsRun(s, events)
    decreases |events|
  {
    if events == [] then None
    else
      var before, e := events[..|events| - 1], events[|events| - 1];
      if e.Poll? && !Ready(Run(s, before)) then Some(e.task) else LastWaiter(s, before)
  }

  /** No wake-up is lost and the counter never underflows. In every run `active` counts the live handles, a
      stored waiter implies that some are left, no task is woken before the last
      handle goes, and then exactly the last registered waiter has been, once. */
  lemma {:induction false} NoLostWakeup(first: Handle, events: seq<Event>)
    requires IsRun(Start(first), events)
    ensures
      var s := Run(Start(first), events);
      var waiter := LastWaiter(Start(first), events);
      && s.active == |s.live|
      && (s.blocker.Some? ==> s.active > 0)
      && (s.active > 0 ==> s.woken == [] && s.blocker == waiter)
      && (s.active == 0 ==> s.blocker == None && s.woken == if waiter.Some? then [waiter.value] else [])
    decreases |events|
  {
    if events != [] {
      NoLostWakeup(first, events[..|events| - 1]);
      var s, e := Run(Start(first), events[..|events| - 1]), events[|events| - 1];
      StepKeepsWaiter(s, e, LastWaiter(Start(first), events[..|events| - 1]));
    }
  }

  /** What holds between steps, `waiter` being the last task that had to wait. */
  ghost predicate Accounted(s: Info, waiter: Option<TaskId>) {
    && s.active == |s.live|
    && (s.active > 0 ==> s.woken == [] && s.blocker == waiter)
    && (s.active == 0 ==> s.blocker == None && s.woken == if waiter.Some? then [waiter.value] else [])
  }

  lemma {:induction false} StepKeepsWaiter(s: Info, e: Event, waiter: Option<TaskId>)
    requires Enabled(s, e) && Accounted(s, waiter)
    ensures Accounted(Step(s, e), if e.Poll? && !Ready(s) then Some(e.task) else waiter)
  {
    match e
    case Clone(_, to) => assert |s.live + {to}| == |s.live| + 1;
    case Drop(h) => assert |s.live - {h}| == |s.live| - 1;
    case Poll(_) =>
  }

  lemma {:induction false} RunPrefix(s: Info, events: seq<Event>, n: nat)
    requires IsRun(s, events) && n <= |events|
    ensures IsRun(s, events[..n])
    decreases |events|
  {
    if n < |events| {
      assert events[..|events| - 1][..n] == events[..n];
      RunPrefix(s, events[..|events| - 1], n);
    } else {
      assert events[..n] == events;
    }
  }

  /** Zero is permanent: once the last handle is gone, every later poll is ready
      and nobody is woken again. */
  lemma {:induction false} ZeroIsPermanent(first: Handle, events: seq<Event>, n: nat)
    requires IsRun(Start(first), events) && n <= |events|
    ensures IsRun(Start(first), events[..n])
    ensures Run(Start(first), events[..n]).active == 0
            ==> Run(Start(first), events) == Run(Start(first), events[..n])
    decreases |events|
  {
    RunPrefix(Start(first), events, n);
    if n == |events| {
      assert events[..n] == events;
    } else {
      var before := events[..|events| - 1];
      assert before[..n] == events[..n];
      ZeroIsPermanent(first, before, n);
      NoLostWakeup(first, before);
      var s := Run(Start(first), before);
      if s.active == 0 { assert s.live == {}; }
    }
  }

  /** The shared cell of the source, with its counter and waiter. */
  class SharedInfo {
    var active: int
    var blocker: Option<TaskId>
    ghost var live: set<Handle>
    var woken: seq<TaskId>

    ghost function Value(): Info
      reads this
    {
      Info(active, blocker, live, woken)
    }

    constructor (ghost first: Handle)
      ensures Value() == Start(first)
    {
      active, blocker, live, woken := 1, None, {first}, [];
    }

    method CloneHandle(ghost from: Handle, ghost to: Handle)
      requires Enabled(Value(), Clone(from, to))
      modifies this
      ensures Value() == Step(old(Value()), Clone(from, to))
    {
      active := active + 1;
      live := live + {to};
    }

    method DropHandle(ghost h: Handle)
      requires Enabled(Value(), Drop(h))
      modifies this
      ensures Value() == Step(old(Value()), Drop(h))
    {
      active := active - 1;
      live := live - {h};
      if active == 0 {
        if blocker.Some? {
          var task := blocker.value;
          blocker := None;
          woken := woken + [task];
        }
      }
    }

    method PollZero(task: TaskId) returns (ready: bool)
      modifies this
      ensures Value() == Step(old(Value()), Poll(task))
      ensures ready <==> Ready(old(Value()))
    {
      if active == 0 {
        ready := true;
      } else {
        blocker := Some(task);
        ready := false;
      }
    }
  }
}
