/** Keeping an index fresh for calls: a watcher flags changes, a call re-indexes when the flag is set or the watcher
    had been suspended. Calls, watcher callbacks, watcher failures, idle suspension and re-indexing interleave freely
    between the points where the mutex is held. */
module Freshness {

  /** Where the call that holds the gate is. `locked` is when it took the mutex. */
  datatype Call =
    | Free
    | Gated
    | Cleared(locked: nat)
    | Reindexing(locked: nat, began: nat)
    | Failed(locked: nat)
    | Returned(locked: nat, ok: bool)

  /** The protected fields, the call in the gate, and the history the guarantee speaks of. A change made while a watcher
      runs is `pending` until it is reported or the watcher stops; `known` says when each other change became known: at
      its report, when its watcher stopped, or at once when none ran. `indexed` is when the last successful re-index
      began. */
  datatype State = State(
    dirty: bool, running: bool, watcherID: nat, last: nat,
    call: Call, clock: nat, now: nat, pending: set<nat>, known: map<nat, nat>, indexed: nat)

  datatype Event =
    | Wait(time: nat)
    | Changed
    | Reported(id: nat)
    | WatchFailed(id: nat)
    | IdleTick
    | Stop
    | Gate
    | Lock
    | Begin
    | End(ok: bool)
    | Reflag
    | Release

  const IDLE: nat := 1800

  /** The index is fresh at startup and the watcher has just been started. */
  const STARTED := State(false, true, 1, 0, Free, 0, 1, {}, map[], 0)

  /** What the environment may do at any time; the others are the call's own steps, in its own order. */
  predicate Outside(e: Event)
  {
    e.Wait? || e.Changed? || e.Reported? || e.WatchFailed? || e.IdleTick? || e.Stop?
  }

  predicate Enabled(s: State, e: Event)
  {
    match e
    case Gate => s.call.Free?
    case Lock => s.call.Gated?
    case Begin => s.call.Cleared?
    case End(_) => s.call.Reindexing?
    case Reflag => s.call.Failed?
    case Release => s.call.Returned?
    case _ => true
  }

  /** From now on the pending changes are known. */
  function Told(s: State): State
  {
    s.(pending := {}, known := s.known + map c | c in s.pending :: s.now)
  }

  /** The watcher stops; what it has not reported is left to the next call. */
  function Stopped(s: State): State
  {
    if s.running then Told(s).(running := false) else s
  }

  /** One atomic step. A step that is not enabled does not happen. */
  function Step(s: State, e: Event): State
  {
    if !Enabled(s, e) then s
    else
      var t := s.(now := s.now + 1);
      match e
      case Wait(time) => t.(clock := s.clock + time)
      case Changed => if s.running then t.(pending := s.pending + {s.now}) else t.(known := s.known[s.now := s.now])
      case Reported(_) => Told(s).(now := s.now + 1, dirty := true)
      case WatchFailed(id) =>
        if id == s.watcherID && s.running then Stopped(s).(now := s.now + 1, dirty := true) else t
      case IdleTick => if s.running && s.clock - s.last > IDLE then Stopped(s).(now := s.now + 1) else t
      case Stop => Stopped(s).(now := s.now + 1)
      case Gate => t.(call := Gated)
      case Lock =>
        if !s.running then
          t.(last := s.clock, dirty := false, running := true, watcherID := s.watcherID + 1, call := Cleared(s.now))
        else
          t.(last := s.clock, dirty := false, call := if s.dirty then Cleared(s.now) else Returned(s.now, true))
      case Begin => t.(call := Reindexing(s.call.locked, s.now))
      case End(ok) =>
        if ok then t.(indexed := s.call.began, call := Returned(s.call.locked, true))
        else t.(call := Failed(s.call.locked))
      case Reflag => t.(dirty := true, call := Returned(s.call.locked, false))
      case Release => t.(call := Free)
  }

  function Run(s: State, events: seq<Event>): State
  {
    if events == [] then s else Step(Run(s, events[..|events| - 1]), events[|events| - 1])
  }

  // ---------------------------------------------------------------- no change is lost

  /** The re-index the call in the gate is making, or has yet to make, begins after `c`. */
  ghost predicate InHand(call: Call, c: nat)
  {
    call.Cleared? || (call.Reindexing? && c < call.began) || call.Failed?
  }

  /** A change is pending only while a watcher runs. Every known change is indexed, or flagged, or waits for the watcher
      to resume, or is in a call's hand; and a call that has returned well has every change indexed that was known
      before it took the mutex. */
  ghost predicate NothingLost(s: State)
  {
    (forall c | c in s.pending :: c < s.now && c !in s.known) && (s.pending != {} ==> s.running) &&
    (forall c | c in s.known :: c <= s.known[c] < s.now) &&
    (s.call.Reindexing? ==> s.call.locked < s.call.began < s.now) &&
    (forall c | c in s.known :: s.known[c] < s.indexed || s.dirty || !s.running || InHand(s.call, s.known[c])) &&
    (s.call.Returned? && s.call.ok ==> forall c | c in s.known && s.known[c] < s.call.locked ::
      s.known[c] < s.indexed) &&
    s.indexed < s.now && (s.call.Reindexing? ==> s.indexed <= s.call.began) &&
    (!s.call.Free? && !s.call.Gated? ==> s.call.locked < s.now)
  }

  /** Telling what is pending loses nothing when the flag is set or the watcher stopped with it. */
  lemma TellingLosesNothing(s: State, dirty: bool, running: bool)
    requires NothingLost(s) && (s.dirty ==> dirty) && (running ==> s.running) && (dirty || !running)
    ensures NothingLost(Told(s).(now := s.now + 1, dirty := dirty, running := running))
  {}

  lemma TimeLosesNothing(s: State, e: Event)
    requires NothingLost(s) && (e.Wait? || e.Changed?)
    ensures NothingLost(Step(s, e)) && NothingLost(s.(now := s.now + 1))
  {}

  lemma OutsideLosesNothing(s: State, e: Event)
    requires NothingLost(s) && Outside(e)
    ensures NothingLost(Step(s, e))
  {
    hide NothingLost, Told;
    ToldKeepsFlag(s);
    if e.Wait? || e.Changed? {
      TimeLosesNothing(s, e);
    } else if e.Reported? {
      TellingLosesNothing(s, true, s.running);
    } else {
      TimeLosesNothing(s, Changed);
      if s.running {
        TellingLosesNothing(s, true, false);
        TellingLosesNothing(s, s.dirty, false);
      }
    }
  }

  lemma ToldKeepsFlag(s: State)
    ensures Told(s).dirty == s.dirty && Told(s).running == s.running && Told(s).now == s.now
  {}

  lemma CallLosesNothing(s: State, e: Event)
    requires NothingLost(s) && !Outside(e)
    ensures NothingLost(Step(s, e))
  {}

  lemma StepLosesNothing(s: State, e: Event)
    requires NothingLost(s)
    ensures NothingLost(Step(s, e))
  {
    hide NothingLost, Step;
    if Outside(e) {
      OutsideLosesNothing(s, e);
    } else {
      CallLosesNothing(s, e);
    }
  }

  /** One step keeps a change pending or known, and when it became known. */
  lemma StepKeepsChange(s: State, e: Event, c: nat)
    requires NothingLost(s)
    ensures c in s.pending || c in s.known ==> c in Step(s, e).pending || c in Step(s, e).known
    ensures c in s.known ==> c in Step(s, e).known && Step(s, e).known[c] == s.known[c]
  {}

  lemma {:induction false} RunsLoseNothing(events: seq<Event>)
    ensures NothingLost(Run(STARTED, events))
  {
    if events != [] {
      RunsLoseNothing(events[..|events| - 1]);
      StepLosesNothing(Run(STARTED, events[..|events| - 1]), events[|events| - 1]);
    }
  }

  lemma {:induction false} RunAppend(s: State, a: seq<Event>, b: seq<Event>)
    ensures Run(s, a + b) == Run(Run(s, a), b)
    decreases |b|
  {
    if b == [] {
      assert a + b == a;
    } else {
      var front := b[..|b| - 1];
      assert (a + b)[..|a + b| - 1] == a + front;
      RunAppend(s, a, front);
    }
  }

  /** After any run, a call that returns without an error has behind it a successful re-index, or the start, that began
      after every change that was known before the call took the mutex. */
  lemma NoChangeIsLost(events: seq<Event>, c: nat)
    ensures var s := Run(STARTED, events);
      s.call.Returned? && s.call.ok && c in s.known && s.known[c] < s.call.locked ==> c < s.indexed
  {
    RunsLoseNothing(events);
  }

  /** A change, once made, stays pending or known, and when it became known does not change. */
  lemma {:induction false} ChangesStay(events: seq<Event>, more: seq<Event>, c: nat)
    ensures var s, t := Run(STARTED, events), Run(STARTED, events + more);
      && (c in s.pending || c in s.known ==> c in t.pending || c in t.known)
      && (c in s.known ==> c in t.known && t.known[c] == s.known[c])
    decreases |more|
  {
    if more == [] {
      assert events + more == events;
    } else {
      hide NothingLost, Step;
      var front := more[..|more| - 1];
      ChangesStay(events, front, c);
      RunsLoseNothing(events + front);
      StepKeepsChange(Run(STARTED, events + front), more[|more| - 1], c);
      assert (events + more)[..|events + more| - 1] == events + front;
    }
  }

  /** Every change is pending or known from the moment it is made. */
  lemma ChangeIsNoted(events: seq<Event>, more: seq<Event>)
    ensures var c, t := Run(STARTED, events).now, Run(STARTED, events + [Changed] + more);
      c in t.pending || c in t.known
  {
    var made := events + [Changed];
    assert made[..|made| - 1] == events;
    ChangesStay(made, more, Run(STARTED, events).now);
  }

  /** Suspended, stopped or failed, a watcher leaves no change pending: all are known at once, so that the next call
      that returns well has them indexed. */
  lemma StoppedLeavesNothing(events: seq<Event>, c: nat)
    ensures var s := Run(STARTED, events); !s.running ==> c !in s.pending
  {
    RunsLoseNothing(events);
  }

  /** What is indexed never becomes older. */
  lemma {:induction false} IndexedOnlyAdvances(events: seq<Event>, more: seq<Event>)
    ensures Run(STARTED, events).indexed <= Run(STARTED, events + more).indexed
    decreases |more|
  {
    if more == [] {
      assert events + more == events;
    } else {
      var front := more[..|more| - 1];
      hide NothingLost, Step;
      IndexedOnlyAdvances(events, front);
      RunsLoseNothing(events + front);
      StepAdvances(Run(STARTED, events + front), more[|more| - 1]);
      assert (events + more)[..|events + more| - 1] == events + front;
    }
  }

  /** A change that no call has yet indexed or taken in hand makes the next call that takes the mutex re-index. */
  lemma PendingChangeForcesReindex(events: seq<Event>, c: nat)
    ensures var s := Run(STARTED, events);
      s.call.Gated? && c in s.known && c >= s.indexed ==> Step(s, Lock).call == Cleared(s.now)
  {
    RunsLoseNothing(events);
  }

  /** Taking the mutex, a call returns with every known change indexed, or will re-index from a later moment on. */
  lemma LockDecides(s: State, c: nat)
    requires NothingLost(s) && s.call.Free?
    ensures var locked := Step(Step(s, Gate), Lock);
      && (locked.call.Cleared? || (locked.call.Returned? && locked.call.ok && (c in s.known ==> c < locked.indexed)))
      && (c in s.known ==> c < locked.now)
  {}

  lemma StepAdvances(s: State, e: Event)
    requires NothingLost(s)
    ensures s.indexed <= Step(s, e).indexed
  {}

  /** The guarantee for one call as a whole, from any reachable state and whatever happens between its steps. */
  lemma CallCoversChanges(events: seq<Event>, quiet: seq<Event>, busy: seq<Event>, late: seq<Event>, ok: bool, c: nat)
    requires Run(STARTED, events).call.Free?
    requires forall e | e in quiet || e in busy || e in late :: Outside(e)
    ensures var s := Run(STARTED, events); var r := AfterCall(s, quiet, busy, late, ok);
      r.call.Returned? && (r.call.ok && c in s.known ==> c < r.indexed) && (!r.call.ok ==> r.dirty)
  {
    var s := Run(STARTED, events);
    RunsLoseNothing(events);
    LockDecides(s, c);
    hide NothingLost, Step;
    var locked := Step(Step(s, Gate), Lock);
    if locked.call.Cleared? {
      OutsideKeepsCall(locked, quiet);
      BeginsNow(Run(locked, quiet));
      var begun := Step(Run(locked, quiet), Begin);
      OutsideKeepsCall(begun, busy);
      EndsWell(Run(begun, busy), ok);
      var ended := Step(Run(begun, busy), End(ok));
      if !ok {
        OutsideKeepsCall(ended, late);
        FlagsAgain(Run(ended, late));
      }
    }
  }

  lemma BeginsNow(s: State)
    requires s.call.Cleared?
    ensures Step(s, Begin).call == Reindexing(s.call.locked, s.now)
  {}

  lemma EndsWell(s: State, ok: bool)
    requires s.call.Reindexing?
    ensures var t := Step(s, End(ok));
      if ok then t.call.Returned? && t.call.ok && t.indexed == s.call.began else t.call.Failed?
  {}

  lemma FlagsAgain(s: State)
    requires s.call.Failed?
    ensures var t := Step(s, Reflag); t.call.Returned? && !t.call.ok && t.dirty
  {}

  /** When no watcher runs, the next call that returns well has every change indexed that was made before, reported or
      not. */
  lemma StoppedIsCaughtUp(events: seq<Event>, quiet: seq<Event>, busy: seq<Event>, late: seq<Event>, ok: bool, c: nat)
    requires var s := Run(STARTED, events); s.call.Free? && !s.running && (c in s.pending || c in s.known)
    requires forall e | e in quiet || e in busy || e in late :: Outside(e)
    ensures var r := AfterCall(Run(STARTED, events), quiet, busy, late, ok);
      r.call.Returned? && (r.call.ok ==> c < r.indexed)
  {
    StoppedLeavesNothing(events, c);
    CallCoversChanges(events, quiet, busy, late, ok, c);
    hide Run, AfterCall;
  }

  /** One call: the mutex, then what happens until the re-index begins, while it runs, and before a failure is
      flagged. */
  function AfterCall(s: State, quiet: seq<Event>, busy: seq<Event>, late: seq<Event>, ok: bool): State
  {
    var locked := Step(Step(s, Gate), Lock);
    if !locked.call.Cleared? then locked
    else
      var ended := Step(Run(Step(Run(locked, quiet), Begin), busy), End(ok));
      if ok then ended else Step(Run(ended, late), Reflag)
  }

  /** The environment never moves the call, and time goes on. */
  lemma {:induction false} OutsideKeepsCall(s: State, events: seq<Event>)
    requires forall e | e in events :: Outside(e)
    ensures Run(s, events).call == s.call && Run(s, events).indexed == s.indexed
    ensures s.now <= Run(s, events).now
  {
    if events != [] {
      assert events[|events| - 1] in events;
      OutsideKeepsCall(s, events[..|events| - 1]);
    }
  }

  // ---------------------------------------------------------------- the object

  class Guard {
    var dirty: bool
    var running: bool
    var watcherID: nat
    var last: nat
    ghost var call: Call
    var clock: nat
    ghost var now: nat
    ghost var pending: set<nat>
    ghost var known: map<nat, nat>
    ghost var indexed: nat

    ghost function View(): State
      reads this
    {
      State(dirty, running, watcherID, last, call, clock, now, pending, known, indexed)
    }

    /** Brings the watcher up at startup. */
    constructor ()
      ensures View() == STARTED
    {
      dirty, running, watcherID, last, clock := false, true, 1, 0, 0;
      call, now, pending, known, indexed := Free, 1, {}, map[], 0;
    }

    method StartWatcherLocked()
      modifies this`running, this`watcherID
      ensures running && watcherID == old(watcherID) + 1
    {
      running := true;
      watcherID := watcherID + 1;
    }

    /** What was pending is known from now on. */
    ghost method Tell()
      modifies this`pending, this`known
      ensures View() == Told(old(View()))
    {
      known, pending := known + map c | c in pending :: now, {};
    }

    /** The watcher's callback, of the current watcher or of one already stopped. */
    method Flag(id: nat)
      modifies this
      ensures View() == Step(old(View()), Reported(id))
    {
      dirty := true;
      Tell();
      now := now + 1;
    }

    /** A watcher ends with an error. */
    method WatcherEnded(id: nat)
      modifies this
      ensures View() == Step(old(View()), WatchFailed(id))
    {
      if watcherID == id && running {
        Tell();
        running := false;
        dirty := true;
      }
      now := now + 1;
    }

    /** One tick of an idle loop. */
    method Tick()
      modifies this
      ensures View() == Step(old(View()), IdleTick)
    {
      if running && clock - last > IDLE {
        Tell();
        running := false;
      }
      now := now + 1;
    }

    method Halt()
      modifies this
      ensures View() == Step(old(View()), Stop)
    {
      if running {
        Tell();
        running := false;
      }
      now := now + 1;
    }

    /** A file changes: the watcher has it to report, or nobody has. */
    ghost method Change()
      modifies this`pending, this`known, this`now
      ensures View() == Step(old(View()), Changed)
    {
      if running {
        pending := pending + {now};
      } else {
        known := known[now := now];
      }
      now := now + 1;
    }

    /** What happens outside the call while the mutex is free. */
    method Elsewhere(events: seq<Event>)
      requires forall e | e in events :: Outside(e)
      modifies this
      ensures View() == Run(old(View()), events)
    {
      ghost var before := View();
      for i := 0 to |events|
        invariant View() == Run(before, events[..i])
      {
        assert events[..i + 1][..i] == events[..i];
        assert events[i] in events;
        var e := events[i];
        if e.Wait? {
          clock := clock + e.time;
          now := now + 1;
        } else if e.Changed? {
          Change();
        } else if e.Reported? {
          Flag(e.id);
        } else if e.WatchFailed? {
          WatcherEnded(e.id);
        } else if e.IdleTick? {
          Tick();
        } else {
          Halt();
        }
      }
      assert events[..|events|] == events;
    }

    /** The mutex: the flag is taken down, a suspended watcher is started, and it is known whether to re-index. */
    method TakeMutex() returns (needed: bool)
      requires call.Free?
      modifies this
      ensures View() == Step(Step(old(View()), Gate), Lock)
      ensures needed == call.Cleared? && (!needed ==> call.Returned? && call.ok)
    {
      call, now := Gated, now + 1;
      last := clock;
      if !running {
        dirty := false;
        StartWatcherLocked();
        needed := true;
      } else {
        needed := dirty;
        dirty := false;
      }
      call, now := if needed then Cleared(now) else Returned(now, true), now + 1;
    }

    /** One call, holding the gate throughout; `ok` says how its re-index ends, should it make one. */
    method OnCall(quiet: seq<Event>, busy: seq<Event>, late: seq<Event>, ok: bool) returns (failed: bool)
      requires call.Free?
      requires forall e | e in quiet || e in busy || e in late :: Outside(e)
      modifies this
      ensures View() == Step(AfterCall(old(View()), quiet, busy, late, ok), Release)
      ensures var r := AfterCall(old(View()), quiet, busy, late, ok).call; failed == !(r.Returned? && r.ok)
    {
      ghost var before := View();
      var needed := TakeMutex();
      failed := false;
      if needed {
        hide Step, Run, View;
        OutsideKeepsCall(View(), quiet);
        Elsewhere(quiet);
        BeginReindex();
        OutsideKeepsCall(View(), busy);
        Elsewhere(busy);
        EndReindex(ok);
        if !ok {
          OutsideKeepsCall(View(), late);
          Elsewhere(late);
          FlagAgain();
          failed := true;
        }
      }
      ReleaseGate();
    }

    ghost method BeginReindex()
      requires call.Cleared?
      modifies this
      ensures View() == Step(old(View()), Begin) && call.Reindexing?
    {
      call, now := Reindexing(call.locked, now), now + 1;
    }

    ghost method EndReindex(ok: bool)
      requires call.Reindexing?
      modifies this
      ensures View() == Step(old(View()), End(ok)) && (if ok then call.Returned? && call.ok else call.Failed?)
    {
      if ok {
        indexed, call, now := call.began, Returned(call.locked, true), now + 1;
      } else {
        call, now := Failed(call.locked), now + 1;
      }
    }

    method FlagAgain()
      requires call.Failed?
      modifies this
      ensures View() == Step(old(View()), Reflag) && call.Returned? && !call.ok
    {
      dirty := true;
      call, now := Returned(call.locked, false), now + 1;
    }

    ghost method ReleaseGate()
      requires call.Returned?
      modifies this
      ensures View() == Step(old(View()), Release) && call.Free?
    {
      call, now := Free, now + 1;
    }
  }
}
