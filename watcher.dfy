/**
  The watcher's start-up life cycle as ensureFileWatcher and close drive it:
  the stored watcher, the "is starting" flag and the start sentinel, and how
  each request, start result and sentinel firing moves them.
 */
module WatcherLifecycle {
  import opened Common

  /** A started watcher, as the watcher service hands it back. */
  datatype Handle = Handle(id: nat)

  /**
    fileWatcher, _fileWatcherIsStarting and whether _startSentinel is still
    set (the timer is never cancelled, so the field stays set after a start
    that ends with a result).
   */
  datatype WatcherState = WatcherState(fileWatcher: Option<Handle>, starting: bool, sentinelSet: bool)

  /** A fresh fuser: no watcher, nothing starting, no sentinel. */
  const Initial := WatcherState(None, false, false)

  /**
    What can happen to the life cycle: a call of ensureFileWatcher (from a
    request or a 200 ms poll), a result of the watcher service's start
    (which carries no reference to the start it answers), the firing of a
    start sentinel, and a call of close.
   */
  datatype Event =
    | Ensure
    | StartSucceeded(watcher: Handle)
    | StartErred(message: string)
    | SentinelFires
    | Close

  /** What the callback concerned is told, or what is started. */
  datatype Reply =
    | Ready(watcher: Handle)       // the stored watcher, at once
    | Poll                         // a start is in flight: ask again in 200 ms
    | StartIssued                  // the watcher service was asked to start, the sentinel armed
    | Started(watcher: Handle)     // the starter's callback gets the new watcher
    | StartError(error: FuserError) // the starter's callback gets an error or a timeout
    | Ignored                      // a result or a firing with no start in flight
    | CloseDone                    // close with nothing to close
    | Closing(watcher: Handle)     // close closes the stored watcher
    | CloseWaiting                 // close waits for the start in flight

  /** The sentinel's error message. */
  function TimeoutMessage(baseDirectory: Path): string {
    "file fuser timed out while starting on " + baseDirectory
  }

  /** ensureFileWatcher: return the watcher, poll while starting, or start one. */
  function EnsureStep(s: WatcherState): (r: (WatcherState, Reply))
    ensures r.1.Ready? <==> s.fileWatcher.Some?
    ensures r.1 == StartIssued <==> s.fileWatcher.None? && !s.starting
    ensures r.1 != StartIssued ==> r.0 == s
    ensures r.1 == StartIssued ==> r.0.starting && r.0.sentinelSet && r.0.fileWatcher.None?
  {
    if s.fileWatcher.Some? then (s, Ready(s.fileWatcher.value))
    else if s.starting then (s, Poll)
    else (WatcherState(None, true, true), StartIssued)
  }

  /** One event. */
  function Step(baseDirectory: Path, s: WatcherState, e: Event): (r: (WatcherState, Reply))
    ensures Consistent(s) && s.fileWatcher.Some? ==> r.0.fileWatcher == s.fileWatcher
    ensures r.0.fileWatcher != s.fileWatcher ==> s.starting && e.StartSucceeded? && r.0.fileWatcher == Some(e.watcher)
    ensures r.0.starting && !s.starting ==> r.1 == StartIssued
  {
    match e
      case Ensure => EnsureStep(s)
      case StartSucceeded(h) =>
        if !s.starting then (s, Ignored)
        else (s.(fileWatcher := Some(h), starting := false), Started(h))
      case StartErred(message) =>
        if !s.starting then (s, Ignored)
        else (s.(starting := false), StartError(StartFailed(message)))
      case SentinelFires =>
        if !s.starting then (s, Ignored)
        else (s.(starting := false, sentinelSet := false), StartError(StartTimedOut(TimeoutMessage(baseDirectory))))
      case Close =>
        if s.fileWatcher.None? && !s.starting then (s, CloseDone)
        else
          var (s', r) := EnsureStep(s);
          (s', if r.Ready? then Closing(r.watcher) else CloseWaiting)
  }

  /** A sequence of events, from s: the final state and every reply in order. */
  function Run(baseDirectory: Path, s: WatcherState, events: seq<Event>): (r: (WatcherState, seq<Reply>))
    ensures |r.1| == |events|
    decreases |events|
  {
    if events == [] then (s, [])
    else
      var (s1, reply) := Step(baseDirectory, s, events[0]);
      var (s2, replies) := Run(baseDirectory, s1, events[1..]);
      (s2, [reply] + replies)
  }

  function CountStarts(replies: seq<Reply>): nat {
    if replies == [] then 0 else (if replies[0] == StartIssued then 1 else 0) + CountStarts(replies[1..])
  }

  function CountStartErrors(replies: seq<Reply>): nat {
    if replies == [] then 0 else (if replies[0].StartError? then 1 else 0) + CountStartErrors(replies[1..])
  }

  /** A start in flight has no stored watcher and an armed sentinel. */
  predicate Consistent(s: WatcherState) {
    s.starting ==> s.fileWatcher.None? && s.sentinelSet
  }

  /**
    A count balance: the starts issued equal the errors and timeouts reported,
    plus one for a start in flight, plus one for a stored watcher. The events
    carry no identity, so an ending counted may belong to an earlier start
    than the one it ends (see StaleSentinelEndsRetry).
   */
  predicate StartsAccounted(s: WatcherState, starts: nat, errors: nat) {
    starts == errors + (if s.starting then 1 else 0) + (if s.fileWatcher.Some? then 1 else 0)
  }

  /** One event keeps the state consistent and the starts accounted for. */
  lemma StepKeepsAccount(baseDirectory: Path, s: WatcherState, e: Event, starts: nat, errors: nat)
    requires Consistent(s) && StartsAccounted(s, starts, errors)
    ensures var (s', r) := Step(baseDirectory, s, e);
            && Consistent(s')
            && StartsAccounted(s', starts + (if r == StartIssued then 1 else 0), errors + (if r.StartError? then 1 else 0))
  {
  }

  /** Over any sequence of events. */
  lemma {:induction false} RunKeepsAccount(baseDirectory: Path, s: WatcherState, events: seq<Event>, starts: nat, errors: nat)
    requires Consistent(s) && StartsAccounted(s, starts, errors)
    ensures var (s', replies) := Run(baseDirectory, s, events);
            && Consistent(s')
            && StartsAccounted(s', starts + CountStarts(replies), errors + CountStartErrors(replies))
    decreases |events|
  {
    if events != [] {
      var (s1, reply) := Step(baseDirectory, s, events[0]);
      StepKeepsAccount(baseDirectory, s, events[0], starts, errors);
      var starts1 := starts + (if reply == StartIssued then 1 else 0);
      var errors1 := errors + (if reply.StartError? then 1 else 0);
      RunKeepsAccount(baseDirectory, s1, events[1..], starts1, errors1);
    }
  }

  /**
    From a fresh fuser, whatever happens, the watcher service is asked to
    start at most once more than starts have failed or timed out: a second
    start is only ever issued after the previous one ended without a watcher.
   */
  lemma StartsBoundedByFailures(baseDirectory: Path, events: seq<Event>)
    ensures var (s, replies) := Run(baseDirectory, Initial, events);
            && CountStarts(replies) <= CountStartErrors(replies) + 1
            && (s.starting || s.fileWatcher.Some? ==> CountStarts(replies) == CountStartErrors(replies) + 1)
  {
    RunKeepsAccount(baseDirectory, Initial, events, 0, 0);
  }

  /**
    Once a watcher is stored it stays, every later ensureFileWatcher returns
    it, and no further start is ever issued.
   */
  lemma {:induction false} WatcherIsKept(baseDirectory: Path, s: WatcherState, events: seq<Event>)
    requires s.fileWatcher.Some? && !s.starting
    ensures var (s', replies) := Run(baseDirectory, s, events);
            && s'.fileWatcher == s.fileWatcher && !s'.starting
            && CountStarts(replies) == 0
            && forall i | 0 <= i < |events| && events[i] == Ensure :: replies[i] == Ready(s.fileWatcher.value)
    decreases |events|
  {
    if events != [] {
      var (s1, reply) := Step(baseDirectory, s, events[0]);
      WatcherIsKept(baseDirectory, s1, events[1..]);
      var replies := Run(baseDirectory, s, events).1;
      assert replies == [reply] + Run(baseDirectory, s1, events[1..]).1;
      forall i | 0 <= i < |events| && events[i] == Ensure ensures replies[i] == Ready(s.fileWatcher.value) {
        if i > 0 {
          assert events[1..][i - 1] == events[i];
        }
      }
    }
  }

  /** While a start is in flight, ensureFileWatcher polls and issues no second start. */
  lemma NoSecondStart(baseDirectory: Path, s: WatcherState)
    requires Consistent(s) && s.starting
    ensures Step(baseDirectory, s, Ensure) == (s, Poll)
  {
  }

  /** A start result or a sentinel firing with no start in flight changes nothing and reports nothing. */
  lemma LateEventsIgnored(baseDirectory: Path, s: WatcherState, e: Event)
    requires !s.starting && (e.StartSucceeded? || e.StartErred? || e.SentinelFires?)
    ensures Step(baseDirectory, s, e) == (s, Ignored)
  {
  }

  predicate LateEvent(e: Event) {
    e.StartSucceeded? || e.StartErred? || e.SentinelFires?
  }

  /**
    With no start in flight, any run of start results and sentinel firings
    leaves the state as it was and every one of them is ignored.
   */
  lemma {:induction false} LateEventsAllIgnored(baseDirectory: Path, s: WatcherState, events: seq<Event>)
    requires !s.starting
    requires forall i | 0 <= i < |events| :: LateEvent(events[i])
    ensures Run(baseDirectory, s, events) == (s, seq(|events|, _ => Ignored))
    decreases |events|
  {
    if events != [] {
      LateEventsIgnored(baseDirectory, s, events[0]);
      LateEventsAllIgnored(baseDirectory, s, events[1..]);
      assert Run(baseDirectory, s, events) == (s, [Ignored] + seq(|events| - 1, _ => Ignored));
      assert seq(|events|, _ => Ignored) == [Ignored] + seq(|events| - 1, _ => Ignored);
    } else {
      assert seq(|events|, _ => Ignored) == [];
    }
  }

  /** Two events in a row. */
  lemma RunTwo(baseDirectory: Path, s: WatcherState, e1: Event, e2: Event)
    ensures var (s1, r1) := Step(baseDirectory, s, e1);
            var (s2, r2) := Step(baseDirectory, s1, e2);
            Run(baseDirectory, s, [e1, e2]) == (s2, [r1, r2])
  {
    var (s1, r1) := Step(baseDirectory, s, e1);
    var (s2, r2) := Step(baseDirectory, s1, e2);
    assert [e2][0] == e2 && [e2][1..] == [];
    assert Run(baseDirectory, s2, []) == (s2, []);
    assert [r2] + [] == [r2];
    assert Run(baseDirectory, s1, [e2]) == (s2, [r2]);
    assert [e1, e2][1..] == [e2];
    assert [r1] + [r2] == [r1, r2];
  }

  /** The sentinel fires first: the starter gets a timeout and the late watcher is not stored. */
  lemma TimeoutThenLateResult(baseDirectory: Path, s: WatcherState, h: Handle)
    requires Consistent(s) && s.starting
    ensures var (s', replies) := Run(baseDirectory, s, [SentinelFires, StartSucceeded(h)]);
            && replies == [StartError(StartTimedOut(TimeoutMessage(baseDirectory))), Ignored]
            && s'.fileWatcher.None? && !s'.starting && !s'.sentinelSet
  {
    RunTwo(baseDirectory, s, SentinelFires, StartSucceeded(h));
  }

  /** The start succeeds first: the watcher is stored and the sentinel's later firing reports nothing. */
  lemma ResultThenLateTimeout(baseDirectory: Path, s: WatcherState, h: Handle)
    requires Consistent(s) && s.starting
    ensures var (s', replies) := Run(baseDirectory, s, [StartSucceeded(h), SentinelFires]);
            && replies == [Started(h), Ignored]
            && s'.fileWatcher == Some(h) && !s'.starting
  {
    RunTwo(baseDirectory, s, StartSucceeded(h), SentinelFires);
  }

  /** A start error leaves no watcher, so the next ensureFileWatcher starts again. */
  lemma ErrorThenRetry(baseDirectory: Path, s: WatcherState, message: string)
    requires Consistent(s) && s.starting
    ensures var (s', replies) := Run(baseDirectory, s, [StartErred(message), Ensure]);
            && replies == [StartError(StartFailed(message)), StartIssued]
            && s'.starting && s'.fileWatcher.None?
  {
    RunTwo(baseDirectory, s, StartErred(message), Ensure);
  }

  /**
    close: with no watcher and no start in flight it does nothing; otherwise
    it closes the stored watcher or waits for the start in flight. It never
    clears the stored watcher.
   */
  lemma CloseOutcomes(baseDirectory: Path, s: WatcherState)
    requires Consistent(s)
    ensures var (s', r) := Step(baseDirectory, s, Close);
            && s' == s
            && (r == CloseDone <==> s.fileWatcher.None? && !s.starting)
            && (s.fileWatcher.Some? ==> r == Closing(s.fileWatcher.value))
  {
  }

  /** Three events in a row. */
  lemma RunThree(baseDirectory: Path, s: WatcherState, e1: Event, e2: Event, e3: Event)
    ensures var (s1, r1) := Step(baseDirectory, s, e1);
            var (s2, r2) := Step(baseDirectory, s1, e2);
            var (s3, r3) := Step(baseDirectory, s2, e3);
            Run(baseDirectory, s, [e1, e2, e3]) == (s3, [r1, r2, r3])
  {
    var (s1, r1) := Step(baseDirectory, s, e1);
    RunTwo(baseDirectory, s1, e2, e3);
    assert [e1, e2, e3][0] == e1 && [e1, e2, e3][1..] == [e2, e3];
    var rest := Run(baseDirectory, s1, [e2, e3]);
    assert [r1] + rest.1 == [r1, rest.1[0], rest.1[1]];
  }

  /**
    Results carry no identity. The first start fails, a retry is issued, and
    then the first start's sentinel fires: it ends the retry with a timeout,
    and the retry's own result, when it comes, is ignored.
   */
  lemma StaleSentinelEndsRetry(baseDirectory: Path, s: WatcherState, message: string, h: Handle)
    requires Consistent(s) && s.starting
    ensures var (s', replies) := Run(baseDirectory, s, [StartErred(message), Ensure, SentinelFires]);
            && replies == [StartError(StartFailed(message)), StartIssued, StartError(StartTimedOut(TimeoutMessage(baseDirectory)))]
            && !s'.starting && s'.fileWatcher.None?
            && Step(baseDirectory, s', StartSucceeded(h)) == (s', Ignored)
  {
    RunThree(baseDirectory, s, StartErred(message), Ensure, SentinelFires);
  }

  /**
    Results carry no identity. The first start times out, a retry is issued,
    and then the first start's late result arrives: its watcher is stored as
    if it were the retry's.
   */
  lemma StaleResultEndsRetry(baseDirectory: Path, s: WatcherState, h: Handle)
    requires Consistent(s) && s.starting
    ensures var (s', replies) := Run(baseDirectory, s, [SentinelFires, Ensure, StartSucceeded(h)]);
            && replies == [StartError(StartTimedOut(TimeoutMessage(baseDirectory))), StartIssued, Started(h)]
            && s'.fileWatcher == Some(h) && !s'.starting
  {
    RunThree(baseDirectory, s, SentinelFires, Ensure, StartSucceeded(h));
  }
}
