/** The future that ends the server's main loop: on a shutdown message, on a
    closed channel, or after a time without requests. */
module IdleShutdown {
  datatype Message = Request | Shutdown

  datatype Outcome = Pending | OnShutdown | OnClosed | OnIdle

  /** The channel, the timer, and the times at which requests were consumed. */
  datatype State = State(
    queue: seq<Message>,
    closed: bool,
    deadline: int,
    started: int,
    consumed: seq<int>)

  /** The loop of `poll`: messages are taken until there are none, and each
      request sets a new timer. */
  function Drain(s: State, timeout: nat, now: int): (State, Outcome)
    decreases |s.queue|
  {
    if s.queue == [] then
      (s, if s.closed then OnClosed else if now >= s.deadline then OnIdle else Pending)
    else
      var rest := s.(queue := s.queue[1..]);
      match s.queue[0]
      case Shutdown => (rest, OnShutdown)
      case Request => Drain(rest.(deadline := now + timeout, consumed := s.consumed + [now]), timeout, now)
  }

  datatype Event =
    | Send(message: Message)
    | Close
    | Poll(now: int)

  function Start(timeout: nat, now: int): State {
    State([], false, now + timeout, now, [])
  }

  function Step(s: State, timeout: nat, e: Event): (State, Outcome) {
    match e
    case Send(m) => (s.(queue := s.queue + [m]), Pending)
    case Close => (s.(closed := true), Pending)
    case Poll(now) => Drain(s, timeout, now)
  }

  function Run(s: State, timeout: nat, events: seq<Event>): State {
    if events == [] then s
    else Step(Run(s, timeout, events[..|events| - 1]), timeout, events[|events| - 1]).0
  }

  /** The clock does not go back, and nothing is sent on a closed channel. */
  predicate Plausible(events: seq<Event>, from: int) {
    && (forall i :: 0 <= i < |events| && events[i].Poll? ==> from <= events[i].now)
    && (forall i, j :: 0 <= i < j < |events| && events[i].Poll? && events[j].Poll? ==> events[i].now <= events[j].now)
    && (forall i, j :: 0 <= i < j < |events| && events[i].Close? ==> !events[j].Send?)
  }

  function LastUse(s: State): int {
    if s.consumed == [] then s.started else s.consumed[|s.consumed| - 1]
  }

  /** The timer always counts from the last request consumed. */
  ghost predicate Timed(s: State, timeout: nat, now: int) {
    && s.deadline == LastUse(s) + timeout
    && s.started <= now
    && (forall t :: t in s.consumed ==> t <= LastUse(s) <= now)
    && s.started <= LastUse(s)
  }

  /** What one poll does to a timed state. */
  lemma {:induction false} DrainTimed(s: State, timeout: nat, now: int)
    requires Timed(s, timeout, now)
    ensures Timed(Drain(s, timeout, now).0, timeout, now)
    ensures Drain(s, timeout, now).0.started == s.started
    ensures forall t :: t in s.consumed ==> t in Drain(s, timeout, now).0.consumed
    ensures !Drain(s, timeout, now).1.OnShutdown? ==> Drain(s, timeout, now).0.queue == []
    ensures Drain(s, timeout, now).1.OnShutdown? <==> Shutdown in s.queue
    decreases |s.queue|
  {
    if s.queue != [] && s.queue[0].Request? {
      var next := s.(queue := s.queue[1..], deadline := now + timeout, consumed := s.consumed + [now]);
      DrainTimed(next, timeout, now);
    }
  }

  lemma {:induction false} RunTimed(timeout: nat, from: int, events: seq<Event>, now: int)
    requires Plausible(events, from) && from <= now
    requires forall i :: 0 <= i < |events| && events[i].Poll? ==> events[i].now <= now
    ensures Timed(Run(Start(timeout, from), timeout, events), timeout, now)
    ensures Run(Start(timeout, from), timeout, events).started == from
    decreases |events|
  {
    if events != [] {
      var before, e := events[..|events| - 1], events[|events| - 1];
      assert events == before + [e];
      assert Plausible(before, from);
      if e.Poll? {
        forall i | 0 <= i < |before| && before[i].Poll? ensures before[i].now <= e.now {
          assert events[i] == before[i];
        }
        RunTimed(timeout, from, before, e.now);
        DrainTimed(Run(Start(timeout, from), timeout, before), timeout, e.now);
      } else {
        forall i | 0 <= i < |before| && before[i].Poll? ensures before[i].now <= now {
          assert events[i] == before[i];
        }
        RunTimed(timeout, from, before, now);
      }
    }
  }

  /** Idle shutdown is justified. In every run, a poll finishes exactly when it
      finds a shutdown message, or else the channel is closed, or else the time
      since the last consumed request has run out; it stops early only for a
      shutdown message, and otherwise leaves the queue empty before it looks at
      the timer. If it finishes by the timer, no request was consumed in the
      preceding timeout. */
  lemma {:induction false} ShutdownJustified(timeout: nat, from: int, events: seq<Event>, now: int)
    requires Plausible(events + [Poll(now)], from)
    ensures
      var s := Run(Start(timeout, from), timeout, events);
      var (t, outcome) := Step(s, timeout, Poll(now));
      && (outcome.OnShutdown? <==> Shutdown in s.queue)
      && (outcome.OnClosed? <==> Shutdown !in s.queue && s.closed)
      && (outcome.OnIdle? <==> Shutdown !in s.queue && !s.closed && LastUse(t) + timeout <= now)
      && (!outcome.OnShutdown? ==> t.queue == [])
      && (outcome.OnIdle? ==> from + timeout <= now && forall at :: at in t.consumed ==> at + timeout <= now)
  {
    var all := events + [Poll(now)];
    forall i | 0 <= i < |events| ensures events[i] == all[i] { }
    assert all[|events|] == Poll(now);
    assert Plausible(events, from);
    RunTimed(timeout, from, events, now);
    var s := Run(Start(timeout, from), timeout, events);
    DrainTimed(s, timeout, now);
    DrainOutcome(s, timeout, now);
  }

  lemma {:induction false} DrainOutcome(s: State, timeout: nat, now: int)
    ensures
      var (t, outcome) := Drain(s, timeout, now);
      && t.closed == s.closed
      && (outcome.OnClosed? <==> Shutdown !in s.queue && s.closed)
      && (outcome.OnIdle? <==> Shutdown !in s.queue && !s.closed && now >= t.deadline)
    decreases |s.queue|
  {
    if s.queue != [] && s.queue[0].Request? {
      DrainOutcome(s.(queue := s.queue[1..], deadline := now + timeout, consumed := s.consumed + [now]), timeout, now);
    }
  }

  /** A request waiting in the queue always keeps the server alive, for a
      positive timeout. */
  lemma {:induction false} RequestKeepsAlive(timeout: nat, from: int, events: seq<Event>, now: int)
    requires Plausible(events + [Poll(now)], from) && timeout > 0
    requires Request in Run(Start(timeout, from), timeout, events).queue
    ensures !Step(Run(Start(timeout, from), timeout, events), timeout, Poll(now)).1.OnIdle?
  {
    var s := Run(Start(timeout, from), timeout, events);
    ShutdownJustified(timeout, from, events, now);
    if Shutdown !in s.queue { DrainConsumes(s, timeout, now); }
  }

  lemma {:induction false} DrainConsumes(s: State, timeout: nat, now: int)
    requires Shutdown !in s.queue
    ensures Drain(s, timeout, now).0.consumed == s.consumed + seq(|s.queue|, i => now)
    decreases |s.queue|
  {
    if s.queue != [] {
      assert s.queue[0] in s.queue;
      var next := s.(queue := s.queue[1..], deadline := now + timeout, consumed := s.consumed + [now]);
      DrainConsumes(next, timeout, now);
      assert s.consumed + [now] + seq(|s.queue| - 1, i => now) == s.consumed + seq(|s.queue|, i => now);
    }
  }

  class ShutdownOrInactive {
    const timeout: nat
    var queue: seq<Message>
    var closed: bool
    var deadline: int
    ghost var started: int
    ghost var consumed: seq<int>

    ghost function Value(): State
      reads this
    {
      State(queue, closed, deadline, started, consumed)
    }

    constructor (timeout: nat, now: int)
      ensures this.timeout == timeout && Value() == Start(timeout, now)
    {
      this.timeout := timeout;
      queue, closed, deadline, started, consumed := [], false, now + timeout, now, [];
    }

    method Poll(now: int) returns (outcome: Outcome)
      modifies this
      ensures (Value(), outcome) == Drain(old(Value()), timeout, now)
    {
      while queue != []
        invariant Drain(Value(), timeout, now) == Drain(old(Value()), timeout, now)
        decreases |queue|
      {
        var message := queue[0];
        queue := queue[1..];
        if message.Shutdown? { return OnShutdown; }
        deadline := now + timeout;
        consumed := consumed + [now];
      }
      if closed { return OnClosed; }
      outcome := if now >= deadline then OnIdle else Pending;
    }
  }
}
