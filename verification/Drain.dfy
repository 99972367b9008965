/**
 The body of a plumbing drain, run under the global mutex: read the outbox, append it to the
 cortex branch, push, and retry a rejected push at most three times on a branch reset to origin.

 The world around it is a parameter: what each fetch and push returns, which commits other
 writers land on origin before and after each fetch, and which lines this daemon's own handlers
 enqueue while the drain is waiting on git.
 */
module DrainLoop {
  import opened Wrappers
  import opened L1Log
  import opened Replica

  /** One attempt's surroundings.  `early` lands on origin before the fetch, `racing` between the
      fetch and the push; `enqueued` reaches the outbox meanwhile. */
  datatype Surroundings = Surroundings(
    fetched: bool, early: seq<Commit>, racing: seq<Commit>, enqueued: seq<Line>,
    stamp: nat, outcome: PushOutcome)

  datatype Weather = Weather(preflight: bool, threshold: nat, attempts: seq<Surroundings>, removed: bool)

  function Advance(origin: Option<History>, cs: seq<Commit>): Option<History> {
    if cs == [] then origin else Some(HistoryOf(origin) + cs)
  }

  // ----- what an execution is, in terms of the replica's atomic steps -----

  datatype Happening = Own(action: Action) | Others(commits: seq<Commit>) | Enqueues(lines: seq<Line>)

  function EnqueueAll(r: Replica, ls: seq<Line>): (r': Replica)
    ensures r'.drain == r.drain && r'.local == r.local && r'.tracking == r.tracking
    ensures r.outbox <= r'.outbox
  {
    if ls == [] then r else Enqueue(EnqueueAll(r, ls[..|ls|-1]), ls[|ls|-1])
  }

  function Happen(sh: Shared, r: Replica, h: Happening): (Shared, Replica) {
    match h
    case Own(a) => Act(sh, r, a)
    case Others(cs) => (sh.(origin := Advance(sh.origin, cs)), r)
    case Enqueues(ls) => (sh, EnqueueAll(r, ls))
  }

  function Replay(sh: Shared, r: Replica, hs: seq<Happening>): (Shared, Replica) {
    if hs == [] then (sh, r)
    else var (sh1, r1) := Replay(sh, r, hs[..|hs|-1]); Happen(sh1, r1, hs[|hs|-1])
  }

  // ----- one attempt and a whole drain, as compositions of the atomic steps -----

  datatype AttemptResult = Delivered | Bounced | Stopped

  /** The drain after a bounced push. */
  function NextDrain(d: Drain): Drain
    requires d.Running?
  {
    if d.attempt < MAX_PUSH_ATTEMPTS then d.(attempt := d.attempt + 1, phase := Fetching) else Idle
  }

  /** Fetch, reset when forced, resolve the tip and commit on it. */
  function Build(sh: Shared, r: Replica, s: Surroundings): (r': Replica)
    requires r.drain.Running?
    ensures r'.drain.Running? ==>
      && r'.drain == r.drain.(phase := if r.drain.skipPush then Removing else Pushing)
      && r'.local.Some?
  {
    var r1 := DoFetch(sh, r, s.fetched);
    var r2 := if At(r1, Resetting) then DoReset(r1) else r1;
    DoAppend(r2, s.stamp)
  }

  function Finish(sh: Shared, r: Replica, s: Surroundings, removed: bool)
    : (res: (Shared, Replica, AttemptResult))
    requires r.drain.Running? && r.local.Some?
    requires !r.drain.skipPush ==> r.drain.phase == Pushing
    ensures res.1.drain == if res.2.Bounced? then NextDrain(r.drain) else Idle
  {
    if r.drain.skipPush then (sh, DoRemove(r, removed), Delivered)
    else
      var (sh1, r1) := DoPush(sh, r, s.outcome);
      if At(r1, Removing) then (sh1, DoRemove(r1, removed), Delivered)
      else (sh1, r1, if s.outcome.Rejected? || (!IsPrefixOf(sh.origin, r.local) && !s.outcome.Failed?)
                     then Bounced else Stopped)
  }

  function Attempted(sh: Shared, r: Replica, s: Surroundings, removed: bool)
    : (res: (Shared, Replica, AttemptResult))
    requires r.drain.Running?
    ensures res.1.drain == if res.2.Bounced? then NextDrain(r.drain) else Idle
  {
    var sh1 := sh.(origin := Advance(sh.origin, s.early));
    var r1 := Build(sh1, r, s);
    if r1.drain.Idle? then (sh1, r1, Stopped)
    else Finish(sh1.(origin := Advance(sh1.origin, s.racing)), EnqueueAll(r1, s.enqueued), s, removed)
  }

  /** Attempts k, k+1, ... until one is not bounced or none is left. */
  function Attempts(sh: Shared, r: Replica, w: Weather, k: nat): (Shared, Replica, AttemptResult)
    requires |w.attempts| == MAX_PUSH_ATTEMPTS && k <= MAX_PUSH_ATTEMPTS
    decreases MAX_PUSH_ATTEMPTS - k
  {
    if k == MAX_PUSH_ATTEMPTS || r.drain.Idle? then (sh, r, Bounced)
    else
      var (sh1, r1, result) := Attempted(sh, r, w.attempts[k], w.removed);
      if result.Bounced? then Attempts(sh1, r1, w, k + 1) else (sh1, r1, result)
  }

  predicate StartsWithReset(local: Option<History>, tracking: Option<History>, threshold: nat) {
    && Behind(local, tracking).Some? && threshold > 0
    && Behind(local, tracking).value >= threshold
  }

  /** The rows are read and the preflight fetch has told how far behind the branch is. */
  function Started(sh: Shared, r: Replica, skipPush: bool, w: Weather): Replica
    requires r.drain.Idle? && r.outbox != []
  {
    DoPreflight(sh, DoDrainStart(r, skipPush), w.preflight, w.threshold)
  }

  function Drained(sh: Shared, r: Replica, skipPush: bool, w: Weather): (Shared, Replica, AttemptResult)
    requires |w.attempts| == MAX_PUSH_ATTEMPTS && r.drain.Idle?
  {
    if r.outbox == [] then (sh, r, Stopped)
    else Attempts(sh, Started(sh, r, skipPush, w), w, 0)
  }

  predicate AscendingIds(rows: seq<OutboxRow>) {
    forall i, j :: 0 <= i < j < |rows| ==> rows[i].rowId < rows[j].rowId
  }

  class Clone {
    var outbox: seq<OutboxRow>
    var nextRow: nat
    var local: Option<History>
    var tracking: Option<History>
    var origin: Option<History>
    var pushSuccesses: nat
    var pushFailuresNonFastForward: nat

    constructor ()
      ensures outbox == [] && nextRow == 1 && local == tracking == origin == None
      ensures pushSuccesses == 0 && pushFailuresNonFastForward == 0
    {
      outbox, nextRow := [], 1;
      local, tracking, origin := None, None, None;
      pushSuccesses, pushFailuresNonFastForward := 0, 0;
    }

    /** The clone holds what the replica `r` around `sh` holds. */
    ghost predicate Matches(sh: Shared, r: Replica)
      reads this
    {
      && r.outbox == outbox && r.nextRow == nextRow
      && r.local == local && r.tracking == tracking && sh.origin == origin
    }

    /** The lines this daemon's handlers enqueue while the drain waits. */
    method EnqueueMeanwhile(lines: seq<Line>, ghost sh: Shared, ghost r: Replica)
      requires Matches(sh, r)
      modifies this`outbox, this`nextRow
      ensures Matches(sh, EnqueueAll(r, lines))
    {
      for k := 0 to |lines|
        invariant Matches(sh, EnqueueAll(r, lines[..k]))
      {
        assert lines[..k+1][..k] == lines[..k];
        outbox := outbox + [OutboxRow(nextRow, lines[k])];
        nextRow := nextRow + 1;
      }
      assert lines[..|lines|] == lines;
    }

    /** Fails when the tip exists only remotely: the compare-and-swap finds no local branch. */
    method AppendLines(rows: seq<OutboxRow>, s: Surroundings, forced: bool, ghost sh: Shared, ghost r: Replica)
      returns (ok: bool)
      requires Matches(sh, r) && r.drain.Running? && r.drain.rows == rows && Forced(r.drain) == forced
      modifies this`local, this`tracking
      ensures Matches(sh, Build(sh, r, s))
      ensures ok == Build(sh, r, s).drain.Running?
    {
      if s.fetched { tracking := origin; }
      if forced && tracking.Some? { local := tracking; }
      var tip := ResolveTip(local, tracking);
      if local.Some? && tip != local { local := tip; }
      if local != tip { return false; }
      local := Some(HistoryOf(tip) + [Commit(s.stamp, LinesOfRows(rows))]);
      ok := true;
    }

    /** `git push`; a push that lands also moves the remote-tracking ref. */
    method PushBranch(outcome: PushOutcome, ghost sh: Shared, ghost r: Replica) returns (result: AttemptResult)
      requires Matches(sh, r) && r.drain.Running? && local.Some?
      modifies this`origin, this`tracking
      ensures Matches(DoPush(sh, r, outcome).0, DoPush(sh, r, outcome).1)
      ensures result.Delivered? <==> outcome.Landed? && IsPrefixOf(sh.origin, r.local)
      ensures result.Bounced? <==>
        outcome.Rejected? || (!IsPrefixOf(sh.origin, r.local) && !outcome.Failed?)
    {
      var ff := IsPrefixOf(origin, local);
      match outcome {
        case Landed =>
          if ff { origin, tracking := local, local; result := Delivered; } else { result := Bounced; }
        case LandedUnacknowledged =>
          if ff { origin := local; result := Stopped; } else { result := Bounced; }
        case Rejected => result := Bounced;
        case Failed => result := Stopped;
      }
    }

    /** Deletes the rows by id: exactly the rows whose ids are not listed stay, in their order.  An error is
        only logged, and all rows stay. */
    method DeleteOutboxRows(rows: seq<OutboxRow>, ok: bool)
      modifies this`outbox
      ensures !ok ==> outbox == old(outbox)
      ensures ok ==> forall row :: row in outbox <==> row in old(outbox) && row.rowId !in RowIds(rows)
      ensures AscendingIds(old(outbox)) ==> AscendingIds(outbox)
      ensures ok ==> outbox == Without(old(outbox), RowIds(rows))
    {
      if !ok { return; }
      var ids, kept := RowIds(rows), [];
      for k := |outbox| downto 0
        invariant kept == Without(outbox[k..], ids)
        invariant forall row :: row in kept <==> row in outbox[k..] && row.rowId !in ids
        invariant AscendingIds(outbox) ==> AscendingIds(kept)
      {
        assert outbox[k..] == [outbox[k]] + outbox[k+1..];
        if outbox[k].rowId !in ids { kept := [outbox[k]] + kept; }
      }
      assert outbox[0..] == outbox;
      outbox := kept;
    }

    /** The push and what follows it. */
    method FinishAttempt(rows: seq<OutboxRow>, skipPush: bool, s: Surroundings, removed: bool,
                         ghost sh: Shared, ghost r: Replica)
      returns (result: AttemptResult)
      requires Matches(sh, r) && r.drain.Running? && local.Some?
      requires r.drain.rows == rows && r.drain.skipPush == skipPush
      requires !skipPush ==> r.drain.phase == Pushing
      modifies this`outbox, this`tracking, this`origin
      ensures Matches(Finish(sh, r, s, removed).0, Finish(sh, r, s, removed).1)
      ensures result == Finish(sh, r, s, removed).2
    {
      if skipPush {
        result := Delivered;
      } else {
        result := PushBranch(s.outcome, sh, r);
      }
      if result.Delivered? { DeleteOutboxRows(rows, removed); }
    }

    /** One attempt, from its fetch to the outcome of its push. */
    method Attempt(rows: seq<OutboxRow>, skipPush: bool, forced: bool, s: Surroundings, removed: bool,
                   ghost sh: Shared, ghost r: Replica)
      returns (result: AttemptResult)
      requires Matches(sh, r) && r.drain.Running?
      requires r.drain.rows == rows && r.drain.skipPush == skipPush && Forced(r.drain) == forced
      modifies this`outbox, this`nextRow, this`local, this`tracking, this`origin
      ensures Matches(Attempted(sh, r, s, removed).0, Attempted(sh, r, s, removed).1)
      ensures result == Attempted(sh, r, s, removed).2
    {
      origin := Advance(origin, s.early);
      ghost var sh1 := sh.(origin := origin);
      ghost var r1 := Build(sh1, r, s);
      var appended := AppendLines(rows, s, forced, sh1, r);
      if !appended { return Stopped; }
      origin := Advance(origin, s.racing);
      ghost var sh2 := sh1.(origin := origin);
      EnqueueMeanwhile(s.enqueued, sh2, r1);
      result := FinishAttempt(rows, skipPush, s, removed, sh2, EnqueueAll(r1, s.enqueued));
    }

    /** At most three attempts; a rejected push starts the next one. */
    method RunAttempts(rows: seq<OutboxRow>, skipPush: bool, startWithReset: bool, w: Weather,
                       ghost sh0: Shared, ghost r0: Replica)
      returns (result: AttemptResult, pushes: nat)
      requires |w.attempts| == MAX_PUSH_ATTEMPTS && Matches(sh0, r0)
      requires r0.drain == Running(rows, skipPush, startWithReset, 1, Fetching)
      modifies this`outbox, this`nextRow, this`local, this`tracking, this`origin
      ensures Matches(Attempts(sh0, r0, w, 0).0, Attempts(sh0, r0, w, 0).1)
      ensures result == Attempts(sh0, r0, w, 0).2
      ensures pushes <= 3 && (result.Bounced? ==> pushes == 3)
    {
      result, pushes := Bounced, 0;
      ghost var sh, r := sh0, r0;
      for attempt := 0 to MAX_PUSH_ATTEMPTS
        invariant Matches(sh, r) && pushes == attempt && result.Bounced?
        invariant r.drain == if attempt < MAX_PUSH_ATTEMPTS
          then Running(rows, skipPush, startWithReset, attempt + 1, Fetching) else Idle
        invariant Attempts(sh0, r0, w, 0) == Attempts(sh, r, w, attempt)
      {
        var s := w.attempts[attempt];
        ghost var next := Attempted(sh, r, s, w.removed);
        result := Attempt(rows, skipPush, startWithReset || attempt > 0, s, w.removed, sh, r);
        pushes := pushes + 1;
        if !result.Bounced? { return; }
        sh, r := next.0, next.1;
      }
    }

    /** The drain: read the outbox, look how far behind the branch is, then attempt. */
    method ExecutePlumbing(skipPush: bool, w: Weather, ghost sh0: Shared, ghost r0: Replica)
      returns (result: AttemptResult)
      requires |w.attempts| == MAX_PUSH_ATTEMPTS
      requires Matches(sh0, r0) && r0.drain.Idle?
      modifies this
      ensures Matches(Drained(sh0, r0, skipPush, w).0, Drained(sh0, r0, skipPush, w).1)
      ensures result == Drained(sh0, r0, skipPush, w).2
      ensures pushSuccesses == old(pushSuccesses) + if result.Delivered? && !skipPush then 1 else 0
      ensures pushFailuresNonFastForward ==
        old(pushFailuresNonFastForward) + if result.Bounced? then 1 else 0
    {
      var rows := outbox;
      if rows == [] { return Stopped; }
      if w.preflight { tracking := origin; }
      var startWithReset := w.preflight && StartsWithReset(local, tracking, w.threshold);
      var pushes;
      result, pushes := RunAttempts(rows, skipPush, startWithReset, w, sh0, Started(sh0, r0, skipPush, w));
      match result {
        case Delivered => if !skipPush { pushSuccesses := pushSuccesses + 1; }
        case Bounced => pushFailuresNonFastForward := pushFailuresNonFastForward + 1;
        case Stopped =>
      }
    }
  }
}
