/** The server's statistics over asynchronous requests, compile tasks and cache
    writes. Each callback of the event loop is one step. */
module ServerStatistics {
  type Id = nat

  datatype Stats = Stats(
    compileRequests: nat,
    unsupportedCompiler: nat,
    notCompile: nat,
    notCacheable: nat,
    executed: nat,
    cacheErrors: nat,
    cacheHits: nat,
    cacheMisses: nat,
    nonCacheableCompilations: nat,
    forcedRecaches: nat,
    cacheWriteErrors: nat,
    cacheWrites: nat,
    compileFails: nat)

  const ZERO := Stats(0, 0, 0, 0, 0, 0, 0, 0, 0, 0, 0, 0, 0)

  /** What is under way: requests waiting for their compiler's identity, compile
      tasks, and cache writes whose task still waits for them. */
  datatype Server = Server(stats: Stats, requests: set<Id>, tasks: set<Id>, writes: set<Id>)

  const Fresh := Server(ZERO, {}, {}, {})

  datatype Check = NoCompiler | Compilation | CannotCache | NotCompilation

  datatype TaskResult =
    | PreprocessorError
    | CacheHit
    | CacheMiss(forced: bool)
    | NotCacheable
    | CompileFailed
    | TaskError

  datatype Event =
    | Call(id: Id)
    | CheckCompiler(id: Id, check: Check)
    | Disconnect(id: Id)
    | FinishTask(id: Id, result: TaskResult)
    | ReplyFailed(id: Id)
    | FinishWrite(id: Id, ok: bool)
    | ZeroStats

  predicate Enabled(s: Server, e: Event) {
    match e
    case Call(id) => id !in s.requests + s.tasks + s.writes
    case CheckCompiler(id, _) => id in s.requests
    case Disconnect(id) => id in s.requests
    case FinishTask(id, _) => id in s.tasks
    case ReplyFailed(id) => id in s.writes
    case FinishWrite(id, _) => id in s.writes
    case ZeroStats => true
  }

  function Checked(stats: Stats, check: Check): Stats {
    match check
    case NoCompiler => stats.(unsupportedCompiler := stats.unsupportedCompiler + 1)
    case Compilation => stats.(executed := stats.executed + 1)
    case CannotCache => stats.(notCacheable := stats.notCacheable + 1)
    case NotCompilation => stats.(notCompile := stats.notCompile + 1)
  }

  function Finished(stats: Stats, result: TaskResult): Stats {
    match result
    case PreprocessorError => stats.(cacheErrors := stats.cacheErrors + 1)
    case CacheHit => stats.(cacheHits := stats.cacheHits + 1)
    case CacheMiss(forced) =>
      stats.(cacheMisses := stats.cacheMisses + 1,
             forcedRecaches := stats.forcedRecaches + if forced then 1 else 0)
    case NotCacheable =>
      stats.(cacheMisses := stats.cacheMisses + 1,
             nonCacheableCompilations := stats.nonCacheableCompilations + 1)
    case CompileFailed => stats.(compileFails := stats.compileFails + 1)
    case TaskError => stats.(cacheErrors := stats.cacheErrors + 1)
  }

  /** A disconnected client takes its waiting request with it; a started task
      runs on. A reply that cannot be sent makes the task give up on its cache
      write. */
  function Step(s: Server, e: Event): Server
    requires Enabled(s, e)
  {
    match e
    case Call(id) =>
      s.(stats := s.stats.(compileRequests := s.stats.compileRequests + 1), requests := s.requests + {id})
    case CheckCompiler(id, check) =>
      s.(stats := Checked(s.stats, check), requests := s.requests - {id},
         tasks := if check.Compilation? then s.tasks + {id} else s.tasks)
    case Disconnect(id) => s.(requests := s.requests - {id})
    case FinishTask(id, result) =>
      s.(stats := Finished(s.stats, result), tasks := s.tasks - {id},
         writes := if result.CacheMiss? then s.writes + {id} else s.writes)
    case ReplyFailed(id) => s.(writes := s.writes - {id})
    case FinishWrite(id, ok) =>
      s.(writes := s.writes - {id},
         stats := if ok then s.stats.(cacheWrites := s.stats.cacheWrites + 1)
                  else s.stats.(cacheWriteErrors := s.stats.cacheWriteErrors + 1))
    case ZeroStats => s.(stats := ZERO)
  }

  predicate IsRun(s: Server, events: seq<Event>)
    decreases |events|
  {
    events != [] ==> Enabled(s, events[0]) && IsRun(Step(s, events[0]), events[1..])
  }

  function Run(s: Server, events: seq<Event>): Server
    requires IsRun(s, events)
    decreases |events|
  {
    if events == [] then s else Run(Step(s, events[0]), events[1..])
  }

  // ----- Conservation -----

  /** Requests and writes that were given up. */
  function AbandonedRequests(events: seq<Event>): nat {
    if events == [] then 0 else (if events[0].Disconnect? then 1 else 0) + AbandonedRequests(events[1..])
  }

  function AbandonedWrites(events: seq<Event>): nat {
    if events == [] then 0 else (if events[0].ReplyFailed? then 1 else 0) + AbandonedWrites(events[1..])
  }

  /** Phases do not overlap, and the two special kinds of miss are misses. */
  predicate Sound(s: Server) {
    && s.requests !! s.tasks && s.requests !! s.writes && s.tasks !! s.writes
    && s.stats.forcedRecaches + s.stats.nonCacheableCompilations <= s.stats.cacheMisses
  }

  function Classified(t: Stats): nat { t.unsupportedCompiler + t.notCompile + t.notCacheable + t.executed }

  function Concluded(t: Stats): nat { t.cacheHits + t.cacheMisses + t.cacheErrors + t.compileFails }

  /** Misses with something to write. */
  function CacheableMisses(t: Stats): int { t.cacheMisses - t.nonCacheableCompilations }

  predicate RequestsBalance(s: Server, t: Server, abandoned: nat) {
    t.stats.compileRequests - s.stats.compileRequests + |s.requests|
    == Classified(t.stats) - Classified(s.stats) + |t.requests| + abandoned
  }

  predicate TasksBalance(s: Server, t: Server) {
    t.stats.executed - s.stats.executed + |s.tasks| == Concluded(t.stats) - Concluded(s.stats) + |t.tasks|
  }

  predicate WritesBalance(s: Server, t: Server, abandoned: nat) {
    CacheableMisses(t.stats) - CacheableMisses(s.stats) + |s.writes|
    == (t.stats.cacheWrites - s.stats.cacheWrites) + (t.stats.cacheWriteErrors - s.stats.cacheWriteErrors)
       + |t.writes| + abandoned
  }

  /** The books, from a state `s` to a later state `t` with some requests and
      writes abandoned in between. */
  predicate Balanced(s: Server, t: Server, abandonedRequests: nat, abandonedWrites: nat) {
    RequestsBalance(s, t, abandonedRequests) && TasksBalance(s, t) && WritesBalance(s, t, abandonedWrites)
  }

  lemma {:induction false} Sizes(ids: set<Id>, id: Id)
    ensures id in ids ==> |ids - {id}| == |ids| - 1
    ensures id !in ids ==> |ids + {id}| == |ids| + 1
  {
  }

  lemma {:induction false} CheckBalances(s: Server, id: Id, check: Check)
    requires Sound(s) && id in s.requests
    ensures Sound(Step(s, CheckCompiler(id, check)))
    ensures Balanced(s, Step(s, CheckCompiler(id, check)), 0, 0)
  {
    Sizes(s.requests, id);
    Sizes(s.tasks, id);
    match check
    case NoCompiler =>
    case Compilation =>
    case CannotCache =>
    case NotCompilation =>
  }

  lemma {:induction false} FinishBalances(s: Server, id: Id, result: TaskResult)
    requires Sound(s) && id in s.tasks
    ensures Sound(Step(s, FinishTask(id, result)))
    ensures Balanced(s, Step(s, FinishTask(id, result)), 0, 0)
  {
    Sizes(s.tasks, id);
    Sizes(s.writes, id);
    match result
    case PreprocessorError =>
    case CacheHit =>
    case CacheMiss(forced) =>
    case NotCacheable =>
    case CompileFailed =>
    case TaskError =>
  }

  lemma {:induction false} WriteBalances(s: Server, e: Event)
    requires Sound(s) && Enabled(s, e) && (e.FinishWrite? || e.ReplyFailed?)
    ensures Sound(Step(s, e))
    ensures Balanced(s, Step(s, e), 0, if e.ReplyFailed? then 1 else 0)
  {
    Sizes(s.writes, e.id);
  }

  lemma {:induction false} StepBalances(s: Server, e: Event)
    requires Sound(s) && Enabled(s, e)
    ensures Sound(Step(s, e))
    ensures !e.ZeroStats? ==>
              Balanced(s, Step(s, e), if e.Disconnect? then 1 else 0, if e.ReplyFailed? then 1 else 0)
  {
    match e
    case Call(id) => Sizes(s.requests, id);
    case CheckCompiler(id, check) => CheckBalances(s, id, check);
    case Disconnect(id) => Sizes(s.requests, id);
    case FinishTask(id, result) => FinishBalances(s, id, result);
    case ReplyFailed(_) => WriteBalances(s, e);
    case FinishWrite(_, _) => WriteBalances(s, e);
    case ZeroStats =>
  }

  predicate NoZero(events: seq<Event>) {
    forall e :: e in events ==> !e.ZeroStats?
  }

  lemma {:induction false} RunBalances(s: Server, events: seq<Event>)
    requires Sound(s) && IsRun(s, events)
    ensures Sound(Run(s, events))
    ensures NoZero(events) ==> Balanced(s, Run(s, events), AbandonedRequests(events), AbandonedWrites(events))
    decreases |events|
  {
    if events != [] {
      StepBalances(s, events[0]);
      RunBalances(Step(s, events[0]), events[1..]);
    }
  }

  /** The part of a run since statistics were last zeroed. */
  function SinceZero(events: seq<Event>): (n: nat)
    ensures n <= |events|
    ensures NoZero(events[n..])
    ensures n > 0 ==> events[n - 1].ZeroStats?
  {
    if events == [] then 0
    else if events[|events| - 1].ZeroStats? then |events|
    else SinceZero(events[..|events| - 1])
  }

  lemma {:induction false} RunSplits(s: Server, events: seq<Event>, n: nat)
    requires IsRun(s, events) && n <= |events|
    ensures IsRun(s, events[..n]) && IsRun(Run(s, events[..n]), events[n..])
    ensures Run(s, events) == Run(Run(s, events[..n]), events[n..])
    decreases n
  {
    if n == 0 {
      assert events[0..] == events;
    } else {
      assert events[..n][1..] == events[1..][..n - 1] && events[1..][n - 1..] == events[n..];
      RunSplits(Step(s, events[0]), events[1..], n - 1);
    }
  }

  lemma {:induction false} JustZeroed(s: Server, events: seq<Event>)
    requires IsRun(s, events)
    requires events != [] && events[|events| - 1].ZeroStats?
    ensures Run(s, events).stats == ZERO
    decreases |events|
  {
    if |events| > 1 {
      JustZeroed(Step(s, events[0]), events[1..]);
    } else {
      assert events[1..] == [];
    }
  }

  /** The books since the statistics were zero at `mid`. */
  predicate Conserved(mid: Server, now: Server, abandonedRequests: nat, abandonedWrites: nat) {
    var t := now.stats;
    && t.compileRequests + |mid.requests| == Classified(t) + |now.requests| + abandonedRequests
    && t.executed + |mid.tasks| == Concluded(t) + |now.tasks|
    && CacheableMisses(t) + |mid.writes| == t.cacheWrites + t.cacheWriteErrors + |now.writes| + abandonedWrites
    && t.forcedRecaches + t.nonCacheableCompilations <= t.cacheMisses
  }

  predicate AllZero(z: Stats) {
    && z.unsupportedCompiler == 0 && z.notCompile == 0 && z.notCacheable == 0 && z.executed == 0
    && z.cacheHits == 0 && z.cacheMisses == 0 && z.cacheErrors == 0 && z.compileFails == 0
    && z.compileRequests == 0 && z.cacheWrites == 0 && z.cacheWriteErrors == 0 && z.nonCacheableCompilations == 0
  }

  lemma {:induction false} ZeroIsZero(z: Stats)
    requires z == ZERO
    ensures AllZero(z)
  {
  }

  lemma {:induction false} ZeroSums(z: Stats)
    requires AllZero(z)
    ensures Classified(z) == 0 && Concluded(z) == 0 && CacheableMisses(z) == 0
  {
  }

  lemma {:induction false} FromZero(mid: Server, now: Server, abandonedRequests: nat, abandonedWrites: nat)
    requires Balanced(mid, now, abandonedRequests, abandonedWrites) && AllZero(mid.stats) && Sound(now)
    ensures Conserved(mid, now, abandonedRequests, abandonedWrites)
  {
    ZeroSums(mid.stats);
    ConserveSums(mid, now, abandonedRequests, abandonedWrites);
  }

  lemma {:induction false} ConserveSums(mid: Server, now: Server, abandonedRequests: nat, abandonedWrites: nat)
    requires Balanced(mid, now, abandonedRequests, abandonedWrites) && Sound(now)
    requires Classified(mid.stats) == 0 && Concluded(mid.stats) == 0 && CacheableMisses(mid.stats) == 0
    requires mid.stats.compileRequests == 0 && mid.stats.executed == 0
    requires mid.stats.cacheWrites == 0 && mid.stats.cacheWriteErrors == 0
    ensures Conserved(mid, now, abandonedRequests, abandonedWrites)
  {
  }

  /** Statistics are conserved, in every run from zero statistics (a fresh
      server among them) with any number of zeroings. With `mid` the state at the last zeroing: requests counted
      since then plus those waiting at it are those classified, waiting or
      abandoned; tasks started since plus those running at it are hits, misses,
      errors, failures or still running; cacheable misses since plus writes
      pending at it are written, failed, pending or abandoned; and forced and
      non-cacheable compilations are at most the misses. */
  lemma {:induction false} StatisticsConserved(s: Server, events: seq<Event>)
    requires Sound(s) && AllZero(s.stats) && IsRun(s, events)
    ensures
      var n := SinceZero(events);
      IsRun(s, events[..n]) &&
      Conserved(Run(s, events[..n]), Run(s, events), AbandonedRequests(events[n..]), AbandonedWrites(events[n..]))
  {
    var n := SinceZero(events);
    RunSplits(s, events, n);
    ZeroedAt(s, events, n);
    var mid, later := Run(s, events[..n]), events[n..];
    RunBalances(mid, later);
    FromZero(mid, Run(mid, later), AbandonedRequests(later), AbandonedWrites(later));
  }

  lemma {:induction false} ZeroedAt(s: Server, events: seq<Event>, n: nat)
    requires Sound(s) && AllZero(s.stats) && n <= |events| && IsRun(s, events[..n])
    requires n > 0 ==> events[n - 1].ZeroStats?
    ensures AllZero(Run(s, events[..n]).stats) && Sound(Run(s, events[..n]))
  {
    if n > 0 {
      assert events[..n][n - 1] == events[n - 1];
      JustZeroed(s, events[..n]);
      ZeroIsZero(Run(s, events[..n]).stats);
    }
    RunBalances(s, events[..n]);
  }

  // ----- Each counter -----

  function Count(events: seq<Event>, kind: Event -> bool): nat {
    if events == [] then 0 else (if kind(events[0]) then 1 else 0) + Count(events[1..], kind)
  }

  // What each counter counts.
  predicate IsCall(e: Event) { e.Call? }
  predicate IsUnsupported(e: Event) { e.CheckCompiler? && e.check == NoCompiler }
  predicate IsExecuted(e: Event) { e.CheckCompiler? && e.check == Compilation }
  predicate IsNotCacheable(e: Event) { e.CheckCompiler? && e.check == CannotCache }
  predicate IsNotCompile(e: Event) { e.CheckCompiler? && e.check == NotCompilation }
  predicate IsHit(e: Event) { e.FinishTask? && e.result == CacheHit }
  predicate IsMiss(e: Event) { e.FinishTask? && (e.result.CacheMiss? || e.result == NotCacheable) }
  predicate IsForced(e: Event) { e.FinishTask? && e.result == CacheMiss(true) }
  predicate IsNonCacheable(e: Event) { e.FinishTask? && e.result == NotCacheable }
  predicate IsFailure(e: Event) { e.FinishTask? && e.result == CompileFailed }
  predicate IsError(e: Event) { e.FinishTask? && (e.result == PreprocessorError || e.result == TaskError) }
  predicate IsWrite(e: Event) { e.FinishWrite? && e.ok }
  predicate IsWriteError(e: Event) { e.FinishWrite? && !e.ok }

  /** Each counter is the number of events of its kind, over what it was. */
  predicate Counts(before: Stats, after: Stats, events: seq<Event>) {
    && after.compileRequests == before.compileRequests + Count(events, IsCall)
    && CountsChecks(before, after, events) && CountsResults(before, after, events)
    && after.cacheWrites == before.cacheWrites + Count(events, IsWrite)
    && after.cacheWriteErrors == before.cacheWriteErrors + Count(events, IsWriteError)
  }

  predicate CountsChecks(before: Stats, after: Stats, events: seq<Event>) {
    && after.unsupportedCompiler == before.unsupportedCompiler
         + Count(events, IsUnsupported)
    && after.executed == before.executed + Count(events, IsExecuted)
    && after.notCacheable == before.notCacheable + Count(events, IsNotCacheable)
    && after.notCompile == before.notCompile + Count(events, IsNotCompile)
  }

  predicate CountsResults(before: Stats, after: Stats, events: seq<Event>) {
    && after.cacheHits == before.cacheHits + Count(events, IsHit)
    && after.cacheMisses == before.cacheMisses
         + Count(events, IsMiss)
    && after.forcedRecaches == before.forcedRecaches
         + Count(events, IsForced)
    && after.nonCacheableCompilations == before.nonCacheableCompilations
         + Count(events, IsNonCacheable)
    && after.compileFails == before.compileFails + Count(events, IsFailure)
    && after.cacheErrors == before.cacheErrors
         + Count(events, IsError)
  }

  lemma {:induction false} CountOne(e: Event, kind: Event -> bool)
    ensures Count([e], kind) == if kind(e) then 1 else 0
  {
    assert [e][1..] == [];
  }

  lemma {:induction false} ChecksOn(before: Stats, mid: Stats, after: Stats, events: seq<Event>)
    requires events != [] && CountsChecks(before, mid, [events[0]]) && CountsChecks(mid, after, events[1..])
    ensures CountsChecks(before, after, events)
  {
    CountOne(events[0], IsUnsupported);
    CountOne(events[0], IsExecuted);
    CountOne(events[0], IsNotCacheable);
    CountOne(events[0], IsNotCompile);
  }

  lemma {:induction false} ResultsOn(before: Stats, mid: Stats, after: Stats, events: seq<Event>)
    requires events != [] && CountsResults(before, mid, [events[0]]) && CountsResults(mid, after, events[1..])
    ensures CountsResults(before, after, events)
  {
    CountOne(events[0], IsHit);
    CountOne(events[0], IsMiss);
    CountOne(events[0], IsForced);
    CountOne(events[0], IsNonCacheable);
    CountOne(events[0], IsFailure);
    CountOne(events[0], IsError);
  }

  lemma {:induction false} CountsOn(before: Stats, mid: Stats, after: Stats, events: seq<Event>)
    requires events != [] && Counts(before, mid, [events[0]]) && Counts(mid, after, events[1..])
    ensures Counts(before, after, events)
  {
    ChecksOn(before, mid, after, events);
    ResultsOn(before, mid, after, events);
    CountOne(events[0], IsCall);
    CountOne(events[0], IsWrite);
    CountOne(events[0], IsWriteError);
  }

  lemma {:induction false} StepChecks(s: Server, e: Event)
    requires Enabled(s, e) && !e.ZeroStats?
    ensures CountsChecks(s.stats, Step(s, e).stats, [e])
  {
    CountOne(e, IsUnsupported);
    CountOne(e, IsExecuted);
    CountOne(e, IsNotCacheable);
    CountOne(e, IsNotCompile);
  }

  lemma {:induction false} StepResults(s: Server, e: Event)
    requires Enabled(s, e) && !e.ZeroStats?
    ensures CountsResults(s.stats, Step(s, e).stats, [e])
  {
    CountOne(e, IsHit);
    CountOne(e, IsMiss);
    CountOne(e, IsForced);
    CountOne(e, IsNonCacheable);
    CountOne(e, IsFailure);
    CountOne(e, IsError);
  }

  lemma {:induction false} StepCounts(s: Server, e: Event)
    requires Enabled(s, e) && !e.ZeroStats?
    ensures Counts(s.stats, Step(s, e).stats, [e])
  {
    StepChecks(s, e);
    StepResults(s, e);
    CountOne(e, IsCall);
    CountOne(e, IsWrite);
    CountOne(e, IsWriteError);
  }

  lemma {:induction false} RunCounts(s: Server, events: seq<Event>)
    requires IsRun(s, events) && NoZero(events)
    ensures Counts(s.stats, Run(s, events).stats, events)
    decreases |events|
  {
    if events != [] {
      assert events[0] in events;
      StepCounts(s, events[0]);
      RunCounts(Step(s, events[0]), events[1..]);
      CountsOn(s.stats, Step(s, events[0]).stats, Run(s, events).stats, events);
    }
  }

  /** In every run from zero statistics, each of the thirteen counters is the
      number of events of its kind since the last zeroing. */
  lemma {:induction false} CountersCount(s: Server, events: seq<Event>)
    requires Sound(s) && AllZero(s.stats) && IsRun(s, events)
    ensures
      var t, since := Run(s, events).stats, events[SinceZero(events)..];
      && t.compileRequests == Count(since, IsCall)
      && t.unsupportedCompiler == Count(since, IsUnsupported)
      && t.executed == Count(since, IsExecuted)
      && t.notCacheable == Count(since, IsNotCacheable)
      && t.notCompile == Count(since, IsNotCompile)
      && t.cacheHits == Count(since, IsHit)
      && t.cacheMisses == Count(since, IsMiss)
      && t.forcedRecaches == Count(since, IsForced)
      && t.nonCacheableCompilations == Count(since, IsNonCacheable)
      && t.compileFails == Count(since, IsFailure)
      && t.cacheErrors == Count(since, IsError)
      && t.cacheWrites == Count(since, IsWrite)
      && t.cacheWriteErrors == Count(since, IsWriteError)
  {
    var n := SinceZero(events);
    RunSplits(s, events, n);
    ZeroedAt(s, events, n);
    RunCounts(Run(s, events[..n]), events[n..]);
  }

  // ----- The service -----

  /** The service with its shared statistics, and what the event loop holds for
      it. */
  class SccacheService {
    var stats: Stats
    var requests: set<Id>
    var tasks: set<Id>
    var writes: set<Id>

    ghost function State(): Server
      reads this
    {
      Server(stats, requests, tasks, writes)
    }

    constructor ()
      ensures State() == Fresh && Sound(State()) && AllZero(stats)
    {
      stats, requests, tasks, writes := ZERO, {}, {}, {};
    }

    /** `call` with a compile request: counted now, classified later. */
    method CallCompile(id: Id)
      requires Enabled(State(), Call(id))
      modifies this
      ensures State() == Step(old(State()), Call(id))
    {
      stats := stats.(compileRequests := stats.compileRequests + 1);
      requests := requests + {id};
    }

    /** `check_compiler`, and `start_compile_task` for a compilation. */
    method CheckCompilerOf(id: Id, check: Check)
      requires Enabled(State(), CheckCompiler(id, check))
      modifies this
      ensures State() == Step(old(State()), CheckCompiler(id, check))
    {
      requests := requests - {id};
      match check
      case NoCompiler => stats := stats.(unsupportedCompiler := stats.unsupportedCompiler + 1);
      case Compilation =>
        stats := stats.(executed := stats.executed + 1);
        tasks := tasks + {id};
      case CannotCache => stats := stats.(notCacheable := stats.notCacheable + 1);
      case NotCompilation => stats := stats.(notCompile := stats.notCompile + 1);
    }

    /** The continuation of a compile task. */
    method TaskDone(id: Id, result: TaskResult)
      requires Enabled(State(), FinishTask(id, result))
      modifies this
      ensures State() == Step(old(State()), FinishTask(id, result))
    {
      tasks := tasks - {id};
      match result
      case PreprocessorError => stats := stats.(cacheErrors := stats.cacheErrors + 1);
      case CacheHit => stats := stats.(cacheHits := stats.cacheHits + 1);
      case CacheMiss(forced) =>
        stats := stats.(cacheMisses := stats.cacheMisses + 1);
        if forced { stats := stats.(forcedRecaches := stats.forcedRecaches + 1); }
        writes := writes + {id};
      case NotCacheable =>
        stats := stats.(cacheMisses := stats.cacheMisses + 1);
        stats := stats.(nonCacheableCompilations := stats.nonCacheableCompilations + 1);
      case CompileFailed => stats := stats.(compileFails := stats.compileFails + 1);
      case TaskError => stats := stats.(cacheErrors := stats.cacheErrors + 1);
    }

    /** The continuation of a cache write. */
    method WriteDone(id: Id, ok: bool)
      requires Enabled(State(), FinishWrite(id, ok))
      modifies this
      ensures State() == Step(old(State()), FinishWrite(id, ok))
    {
      writes := writes - {id};
      if ok {
        stats := stats.(cacheWrites := stats.cacheWrites + 1);
      } else {
        stats := stats.(cacheWriteErrors := stats.cacheWriteErrors + 1);
      }
    }

    /** The client is gone: its waiting request is dropped, or the reply to its
        task fails and takes the joined write with it. */
    method ClientGone(id: Id)
      modifies this
      ensures State() ==
                if id in old(requests) then Step(old(State()), Disconnect(id))
                else if id in old(writes) then Step(old(State()), ReplyFailed(id))
                else old(State())
    {
      if id in requests {
        requests := requests - {id};
      } else {
        writes := writes - {id};
      }
    }

    method Zero()
      modifies this
      ensures State() == Step(old(State()), ZeroStats)
    {
      stats := ZERO;
    }
  }
}
