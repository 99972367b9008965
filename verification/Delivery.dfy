/**
 What a whole drain does: it is a run of the replica's atomic steps, it removes only the rows it
 read, and when nothing but a rejected push can go wrong it delivers exactly when one of its three
 windows between fetch and push stays free of other writers.
 */
module Delivery {
  import opened Wrappers
  import opened L1Log
  import opened Replica
  import opened Replication
  import opened Runs
  import opened DrainLoop

  // ----- a drain is a run of atomic steps -----

  lemma ReplayOne(sh: Shared, r: Replica, hs: seq<Happening>, h: Happening)
    ensures Replay(sh, r, hs + [h]) == Happen(Replay(sh, r, hs).0, Replay(sh, r, hs).1, h)
  {
    assert (hs + [h])[..|hs + [h]|-1] == hs;
  }

  lemma {:induction false} ReplayConcat(sh: Shared, r: Replica, xs: seq<Happening>, ys: seq<Happening>)
    ensures Replay(sh, r, xs + ys) == Replay(Replay(sh, r, xs).0, Replay(sh, r, xs).1, ys)
    decreases |ys|
  {
    if ys == [] {
      assert xs + ys == xs;
    } else {
      ReplayConcat(sh, r, xs, ys[..|ys|-1]);
      assert (xs + ys)[..|xs + ys|-1] == xs + ys[..|ys|-1];
    }
  }

  function BuildSteps(s: Surroundings): seq<Happening> {
    [Others(s.early)] + [Own(Fetch(s.fetched))] + [Own(Reset)] + [Own(Append(s.stamp))]
  }

  function FinishSteps(s: Surroundings, removed: bool): seq<Happening> {
    [Others(s.racing)] + [Enqueues(s.enqueued)] + [Own(Push(s.outcome))] + [Own(Remove(removed))]
  }

  predicate DrainStep(a: Action, skipPush: bool) {
    match a
    case DrainStart(skip) => skip == skipPush
    case PreflightFetch(_, _) => true
    case Fetch(_) => true
    case Reset => true
    case Append(_) => true
    case Push(_) => true
    case Remove(_) => true
    case _ => false
  }

  /** The drain's own step, or what one of its attempts finds around it. */
  predicate BelongsTo(h: Happening, skipPush: bool, ss: seq<Surroundings>) {
    match h
    case Own(a) => DrainStep(a, skipPush)
    case Others(cs) => exists s :: s in ss && (cs == s.early || cs == s.racing)
    case Enqueues(ls) => exists s :: s in ss && ls == s.enqueued
  }

  predicate AllBelong(hs: seq<Happening>, skipPush: bool, ss: seq<Surroundings>) {
    forall h :: h in hs ==> BelongsTo(h, skipPush, ss)
  }

  lemma StepsBelong(s: Surroundings, removed: bool, skipPush: bool, ss: seq<Surroundings>)
    requires s in ss
    ensures AllBelong(BuildSteps(s), skipPush, ss) && AllBelong(FinishSteps(s, removed), skipPush, ss)
  {
  }

  lemma FourSteps(sh: Shared, r: Replica, a: Happening, b: Happening, c: Happening, d: Happening)
    ensures Replay(sh, r, [a] + [b] + [c] + [d]) ==
      var (sh1, r1) := Happen(sh, r, a);
      var (sh2, r2) := Happen(sh1, r1, b);
      var (sh3, r3) := Happen(sh2, r2, c);
      Happen(sh3, r3, d)
  {
    ReplayOne(sh, r, [], a);
    assert [] + [a] == [a];
    ReplayOne(sh, r, [a], b);
    ReplayOne(sh, r, [a] + [b], c);
    ReplayOne(sh, r, [a] + [b] + [c], d);
  }

  lemma BuildIsReplay(sh: Shared, r: Replica, s: Surroundings)
    requires At(r, Fetching)
    ensures Replay(sh, r, BuildSteps(s)) ==
      (sh.(origin := Advance(sh.origin, s.early)),
       Build(sh.(origin := Advance(sh.origin, s.early)), r, s))
  {
    var sh1 := sh.(origin := Advance(sh.origin, s.early));
    var r1 := DoFetch(sh1, r, s.fetched);
    var r2 := if At(r1, Resetting) then DoReset(r1) else r1;
    FourSteps(sh, r, Others(s.early), Own(Fetch(s.fetched)), Own(Reset), Own(Append(s.stamp)));
    assert Happen(sh1, r, Own(Fetch(s.fetched))) == (sh1, r1);
    assert Happen(sh1, r1, Own(Reset)) == (sh1, r2);
    assert Happen(sh1, r2, Own(Append(s.stamp))) == (sh1, DoAppend(r2, s.stamp));
  }

  lemma FinishIsReplay(sh: Shared, r: Replica, s: Surroundings, removed: bool)
    requires r.drain.Running? && r.local.Some?
    requires r.drain.phase == if r.drain.skipPush then Removing else Pushing
    ensures var (sh', r', _) :=
        Finish(sh.(origin := Advance(sh.origin, s.racing)), EnqueueAll(r, s.enqueued), s, removed);
      Replay(sh, r, FinishSteps(s, removed)) == (sh', r')
  {
    var sh1, r1 := sh.(origin := Advance(sh.origin, s.racing)), EnqueueAll(r, s.enqueued);
    FourSteps(sh, r, Others(s.racing), Enqueues(s.enqueued), Own(Push(s.outcome)), Own(Remove(removed)));
  }

  lemma AttemptIsReplay(sh: Shared, r: Replica, s: Surroundings, removed: bool, skipPush: bool, ss: seq<Surroundings>)
    returns (hs: seq<Happening>)
    requires At(r, Fetching) && s in ss
    ensures AllBelong(hs, skipPush, ss)
    ensures Replay(sh, r, hs) == (Attempted(sh, r, s, removed).0, Attempted(sh, r, s, removed).1)
  {
    var sh1 := sh.(origin := Advance(sh.origin, s.early));
    var r1 := Build(sh1, r, s);
    BuildIsReplay(sh, r, s);
    StepsBelong(s, removed, skipPush, ss);
    hs := BuildSteps(s);
    if r1.drain.Running? {
      FinishIsReplay(sh1, r1, s, removed);
      ReplayConcat(sh, r, hs, FinishSteps(s, removed));
      hs := hs + FinishSteps(s, removed);
    }
  }

  lemma ReplayThen(sh: Shared, r: Replica, xs: seq<Happening>, sh1: Shared, r1: Replica,
                   ys: seq<Happening>, sh2: Shared, r2: Replica)
    requires Replay(sh, r, xs) == (sh1, r1) && Replay(sh1, r1, ys) == (sh2, r2)
    ensures Replay(sh, r, xs + ys) == (sh2, r2)
  {
    ReplayConcat(sh, r, xs, ys);
  }

  lemma {:induction false} AttemptsAreReplay(sh: Shared, r: Replica, skipPush: bool, w: Weather, k: nat,
                                             sh2: Shared, r2: Replica, last: AttemptResult)
    returns (hs: seq<Happening>)
    requires |w.attempts| == MAX_PUSH_ATTEMPTS && k <= MAX_PUSH_ATTEMPTS
    requires r.drain.Running? ==> r.drain.phase == Fetching
    requires Attempts(sh, r, w, k) == (sh2, r2, last)
    ensures Replay(sh, r, hs) == (sh2, r2) && AllBelong(hs, skipPush, w.attempts)
    decreases MAX_PUSH_ATTEMPTS - k
  {
    if k == MAX_PUSH_ATTEMPTS || r.drain.Idle? {
      hs := [];
    } else {
      var (sh1, r1, result) := Attempted(sh, r, w.attempts[k], w.removed);
      hs := AttemptIsReplay(sh, r, w.attempts[k], w.removed, skipPush, w.attempts);
      if result.Bounced? {
        var rest := AttemptsAreReplay(sh1, r1, skipPush, w, k + 1, sh2, r2, last);
        ReplayThen(sh, r, hs, sh1, r1, rest, sh2, r2);
        hs := hs + rest;
      }
    }
  }

  lemma StartIsReplay(sh: Shared, r: Replica, skipPush: bool, w: Weather) returns (hs: seq<Happening>)
    requires r.drain.Idle? && r.outbox != []
    ensures Replay(sh, r, hs) == (sh, Started(sh, r, skipPush, w))
    ensures AllBelong(hs, skipPush, w.attempts)
  {
    var first, second := Own(DrainStart(skipPush)), Own(PreflightFetch(w.preflight, w.threshold));
    hs := [first] + [second];
    ReplayOne(sh, r, [], first);
    assert [] + [first] == [first];
    ReplayOne(sh, r, [first], second);
  }

  /** Whatever git, the other writers and the handlers do meanwhile, a drain is a run of its own atomic
      steps interleaved with what its attempts find around them. */
  lemma DrainIsReplay(sh: Shared, r: Replica, skipPush: bool, w: Weather) returns (hs: seq<Happening>)
    requires |w.attempts| == MAX_PUSH_ATTEMPTS && r.drain.Idle?
    ensures var (sh', r', _) := Drained(sh, r, skipPush, w); Replay(sh, r, hs) == (sh', r')
    ensures AllBelong(hs, skipPush, w.attempts)
  {
    hs := [];
    if r.outbox != [] {
      var r1 := Started(sh, r, skipPush, w);
      var (sh2, r2, last) := Attempts(sh, r1, w, 0);
      hs := DrainFrom(sh, r, skipPush, w, r1, sh2, r2, last);
    }
  }

  lemma DrainFrom(sh: Shared, r: Replica, skipPush: bool, w: Weather,
                  r1: Replica, sh2: Shared, r2: Replica, last: AttemptResult)
    returns (hs: seq<Happening>)
    requires |w.attempts| == MAX_PUSH_ATTEMPTS && r.drain.Idle? && r.outbox != []
    requires r1 == Started(sh, r, skipPush, w) && Attempts(sh, r1, w, 0) == (sh2, r2, last)
    ensures Replay(sh, r, hs) == (sh2, r2) && AllBelong(hs, skipPush, w.attempts)
  {
    hs := StartIsReplay(sh, r, skipPush, w);
    var rest := AttemptsAreReplay(sh, r1, skipPush, w, 0, sh2, r2, last);
    ReplayThen(sh, r, hs, sh, r1, rest, sh2, r2);
    hs := hs + rest;
  }

  // ----- what a drain keeps -----

  /** Other writers and handlers only bring lines that are known to have been written. */
  ghost predicate Known(h: Happening, ever: set<Line>) {
    match h
    case Own(_) => true
    case Others(cs) => Lines(cs) <= ever
    case Enqueues(ls) => SetOf(ls) <= ever
  }

  ghost predicate WeatherKnown(w: Weather, ever: set<Line>) {
    forall s :: s in w.attempts ==> Lines(s.early) <= ever && Lines(s.racing) <= ever && SetOf(s.enqueued) <= ever
  }

  lemma {:induction false} EnqueueAllKeeps(sh: Shared, r: Replica, ls: seq<Line>)
    requires SharedInv(sh) && ReplicaInv(sh, r) && SetOf(ls) <= sh.ever
    ensures ReplicaInv(sh, EnqueueAll(r, ls)) && (NothingSkipped(r) ==> NothingSkipped(EnqueueAll(r, ls)))
  {
    if ls != [] {
      var init, l := ls[..|ls|-1], ls[|ls|-1];
      assert l in ls && forall x :: x in init ==> x in ls;
      EnqueueAllKeeps(sh, r, init);
      var r1 := EnqueueAll(r, init);
      WriteKeeps(sh, r1, l, r1.memories, r1.seen);
      assert sh.ever + {l} == sh.ever;
    }
  }

  lemma OthersAdvance(sh: Shared, r: Replica, cs: seq<Commit>)
    requires SharedInv(sh) && ReplicaInv(sh, r) && Lines(cs) <= sh.ever
    ensures Kept(sh, (sh.(origin := Advance(sh.origin, cs)), r))
  {
    var h := HistoryOf(sh.origin);
    FlatConcat(h, cs);
    OthersKeepInv(sh, sh.(origin := Advance(sh.origin, cs)), r);
  }

  lemma HappenKeeps(sh: Shared, r: Replica, h: Happening)
    requires SharedInv(sh) && ReplicaInv(sh, r) && Known(h, sh.ever)
    ensures Kept(sh, Happen(sh, r, h))
    ensures NothingSkipped(r) && !(h.Own? && h.action.DrainStart? && h.action.skipPush) ==>
      NothingSkipped(Happen(sh, r, h).1)
  {
    match h {
      case Own(a) =>
        StepKeeps(sh, r, a);
        StepWrites(sh, r, a);
      case Others(cs) => OthersAdvance(sh, r, cs);
      case Enqueues(ls) => EnqueueAllKeeps(sh, r, ls);
    }
  }

  /** Any interleaving of steps with known commits and lines keeps the replica accounted for. */
  lemma {:induction false} ReplayKeeps(sh: Shared, r: Replica, hs: seq<Happening>)
    requires SharedInv(sh) && ReplicaInv(sh, r) && forall h :: h in hs ==> Known(h, sh.ever)
    ensures Kept(sh, Replay(sh, r, hs))
    ensures NothingSkipped(r) && (forall h :: h in hs ==> !(h.Own? && h.action.DrainStart? && h.action.skipPush)) ==>
      NothingSkipped(Replay(sh, r, hs).1)
  {
    if hs != [] {
      var init, h := hs[..|hs|-1], hs[|hs|-1];
      assert h in hs && forall x :: x in init ==> x in hs;
      ReplayKeeps(sh, r, init);
      HappenKeeps(Replay(sh, r, init).0, Replay(sh, r, init).1, h);
    }
  }

  /** A whole drain, however it ends, keeps the replica accounted for; and without `skipPush` every line
      written before or during it is queued or on origin afterwards. */
  lemma DrainKeepsPromise(sh: Shared, r: Replica, skipPush: bool, w: Weather)
    requires |w.attempts| == MAX_PUSH_ATTEMPTS && r.drain.Idle?
    requires SharedInv(sh) && ReplicaInv(sh, r) && WeatherKnown(w, sh.ever)
    ensures var (sh', r', _) := Drained(sh, r, skipPush, w);
      && Kept(sh, (sh', r'))
      && (!skipPush && r.skipped == {} ==> SetOf(r'.written) <= RowLines(r'.outbox) + RefLines(sh'.origin))
  {
    var hs := DrainIsReplay(sh, r, skipPush, w);
    forall h | h in hs ensures Known(h, sh.ever) { assert BelongsTo(h, skipPush, w.attempts); }
    ReplayKeeps(sh, r, hs);
    forall h | h in hs && !skipPush ensures !(h.Own? && h.action.DrainStart? && h.action.skipPush) {
      assert BelongsTo(h, skipPush, w.attempts);
    }
  }

  // ----- which rows leave the outbox -----

  /** Since `r0`, the outbox has only gained the rows of the lines written since. */
  ghost predicate OnlyGained(r0: Replica, r: Replica) {
    && RowsOrdered(r)
    && r0.outbox <= r.outbox && r0.written <= r.written
    && LinesOfRows(r.outbox[|r0.outbox|..]) == r.written[|r0.written|..]
  }

  /** The rows behind the first ones carry the lines written since. */
  lemma GainOne(was: seq<OutboxRow>, rows: seq<OutboxRow>, wrote: seq<Line>, written: seq<Line>, row: OutboxRow)
    requires was <= rows && wrote <= written && LinesOfRows(rows[|was|..]) == written[|wrote|..]
    ensures LinesOfRows((rows + [row])[|was|..]) == (written + [row.line])[|wrote|..]
  {
    var gained := rows[|was|..];
    assert (rows + [row])[|was|..] == gained + [row];
    assert (gained + [row])[..|gained + [row]|-1] == gained;
    assert (written + [row.line])[|wrote|..] == written[|wrote|..] + [row.line];
  }

  lemma EnqueueGains(r0: Replica, r: Replica, l: Line)
    requires OnlyGained(r0, r)
    ensures OnlyGained(r0, Enqueue(r, l))
  {
    EnqueueKeepsRows(r, l);
    GainOne(r0.outbox, r.outbox, r0.written, r.written, OutboxRow(r.nextRow, l));
  }

  lemma {:induction false} EnqueueAllGains(r0: Replica, r: Replica, ls: seq<Line>)
    requires OnlyGained(r0, r)
    ensures OnlyGained(r0, EnqueueAll(r, ls))
  {
    if ls != [] {
      EnqueueAllGains(r0, r, ls[..|ls|-1]);
      EnqueueGains(r0, EnqueueAll(r, ls[..|ls|-1]), ls[|ls|-1]);
    }
  }

  /** The outbox after a drain of `r0`'s rows that ended with `result`. */
  ghost predicate Removed(r0: Replica, r: Replica, delivered: bool) {
    if delivered then r0.written <= r.written && LinesOfRows(r.outbox) == r.written[|r0.written|..]
    else OnlyGained(r0, r)
  }

  lemma FinishRemoves(r0: Replica, sh: Shared, r: Replica, s: Surroundings, removed: bool)
    requires OnlyGained(r0, r) && r.drain.Running? && r.drain.rows == r0.outbox && r.local.Some?
    requires !r.drain.skipPush ==> r.drain.phase == Pushing
    ensures Removed(r0, Finish(sh, r, s, removed).1, Finish(sh, r, s, removed).2.Delivered? && removed)
  {
    PushKeepsRows(sh, r, s.outcome);
    RemoveGained(r0, r);
  }

  lemma PushKeepsRows(sh: Shared, r: Replica, outcome: PushOutcome)
    requires r.drain.Running?
    ensures var r1 := DoPush(sh, r, outcome).1;
      && r1.outbox == r.outbox && r1.written == r.written && r1.nextRow == r.nextRow
      && (r1.drain.Running? ==> r1.drain.rows == r.drain.rows)
  {
  }

  lemma RemoveGained(r0: Replica, r: Replica)
    requires OnlyGained(r0, r)
    ensures Without(r.outbox, RowIds(r0.outbox)) == r.outbox[|r0.outbox|..]
  {
    assert r0.outbox == r.outbox[..|r0.outbox|];
    RemovalIsSuffix(r.outbox, |r0.outbox|);
  }

  /** A delivered attempt whose removal succeeds leaves only what came in meanwhile; every other
      attempt leaves everything. */
  lemma AttemptRemoves(r0: Replica, sh: Shared, r: Replica, s: Surroundings, removed: bool)
    requires OnlyGained(r0, r) && r.drain.Running? && r.drain.rows == r0.outbox
    ensures Removed(r0, Attempted(sh, r, s, removed).1, Attempted(sh, r, s, removed).2.Delivered? && removed)
  {
    var sh1 := sh.(origin := Advance(sh.origin, s.early));
    var r1 := Build(sh1, r, s);
    if r1.drain.Running? {
      EnqueueAllGains(r0, r1, s.enqueued);
      FinishRemoves(r0, sh1.(origin := Advance(sh1.origin, s.racing)), EnqueueAll(r1, s.enqueued), s, removed);
    }
  }

  /** One turn of the retry loop. */
  lemma NextAttempt(sh: Shared, r: Replica, w: Weather, k: nat) returns (sh1: Shared, r1: Replica, result: AttemptResult)
    requires |w.attempts| == MAX_PUSH_ATTEMPTS && k < MAX_PUSH_ATTEMPTS && r.drain.Running?
    ensures (sh1, r1, result) == Attempted(sh, r, w.attempts[k], w.removed)
    ensures Attempts(sh, r, w, k) == if result.Bounced? then Attempts(sh1, r1, w, k + 1) else (sh1, r1, result)
    ensures r1.drain == if result.Bounced? then NextDrain(r.drain) else Idle
  {
    var next := Attempted(sh, r, w.attempts[k], w.removed);
    sh1, r1, result := next.0, next.1, next.2;
  }

  lemma OneAttemptRemoves(r0: Replica, sh: Shared, r: Replica, w: Weather, k: nat)
    returns (sh1: Shared, r1: Replica, result: AttemptResult)
    requires |w.attempts| == MAX_PUSH_ATTEMPTS && k < MAX_PUSH_ATTEMPTS && r.drain.Running?
    requires OnlyGained(r0, r) && r.drain.rows == r0.outbox
    ensures Attempts(sh, r, w, k) == if result.Bounced? then Attempts(sh1, r1, w, k + 1) else (sh1, r1, result)
    ensures Removed(r0, r1, result.Delivered? && w.removed)
    ensures r1.drain == if result.Bounced? then NextDrain(r.drain) else Idle
  {
    sh1, r1, result := NextAttempt(sh, r, w, k);
    AttemptRemoves(r0, sh, r, w.attempts[k], w.removed);
  }

  lemma {:induction false} AttemptsRemove(r0: Replica, sh: Shared, r: Replica, w: Weather, k: nat,
                                          r2: Replica, last: AttemptResult)
    requires |w.attempts| == MAX_PUSH_ATTEMPTS && k <= MAX_PUSH_ATTEMPTS
    requires OnlyGained(r0, r) && (r.drain.Running? ==> r.drain.rows == r0.outbox)
    requires Attempts(sh, r, w, k).1 == r2 && Attempts(sh, r, w, k).2 == last
    ensures Removed(r0, r2, last.Delivered? && w.removed)
    decreases MAX_PUSH_ATTEMPTS - k
  {
    if k < MAX_PUSH_ATTEMPTS && r.drain.Running? {
      var sh1, r1, result := OneAttemptRemoves(r0, sh, r, w, k);
      if result.Bounced? { AttemptsRemove(r0, sh1, r1, w, k + 1, r2, last); }
    }
  }

  /** A drain removes exactly the rows it read, and only when it delivered them and the removal
      succeeded; lines written during the drain are still queued, in order. */
  lemma DrainRemovesWhatItRead(sh: Shared, r: Replica, skipPush: bool, w: Weather)
    requires |w.attempts| == MAX_PUSH_ATTEMPTS && r.drain.Idle? && RowsOrdered(r)
    ensures var (_, r', result) := Drained(sh, r, skipPush, w);
      && r.written <= r'.written
      && (if result.Delivered? && w.removed
          then LinesOfRows(r'.outbox) == r'.written[|r.written|..]
          else r.outbox <= r'.outbox && LinesOfRows(r'.outbox[|r.outbox|..]) == r'.written[|r.written|..])
  {
    assert r.outbox[|r.outbox|..] == [] && r.written[|r.written|..] == [];
    if r.outbox != [] {
      var (_, r', last) := Drained(sh, r, skipPush, w);
      AttemptsRemove(r, sh, Started(sh, r, skipPush, w), w, 0, r', last);
    }
  }

  // ----- a drain of a clone without a local branch -----

  lemma AttemptKeepsBranch(sh: Shared, r: Replica, s: Surroundings, removed: bool)
    requires r.drain.Running? && r.local.Some?
    ensures Attempted(sh, r, s, removed).1.local.Some?
  {
  }

  lemma {:induction false} AttemptsKeepBranch(sh: Shared, r: Replica, w: Weather, k: nat, r2: Replica)
    requires |w.attempts| == MAX_PUSH_ATTEMPTS && k <= MAX_PUSH_ATTEMPTS && r.local.Some?
    requires Attempts(sh, r, w, k).1 == r2
    ensures r2.local.Some?
    decreases MAX_PUSH_ATTEMPTS - k
  {
    if k < MAX_PUSH_ATTEMPTS && r.drain.Running? {
      AttemptKeepsBranch(sh, r, w.attempts[k], w.removed);
      var sh1, r1, result := NextAttempt(sh, r, w, k);
      if result.Bounced? { AttemptsKeepBranch(sh1, r1, w, k + 1, r2); }
    }
  }

  /** What the clone takes for the remote tip when its first attempt appends. */
  function TrackedAtAppend(sh: Shared, r: Replica, w: Weather): Option<History>
    requires |w.attempts| == MAX_PUSH_ATTEMPTS
  {
    if w.attempts[0].fetched then Advance(sh.origin, w.attempts[0].early)
    else if w.preflight then sh.origin
    else r.tracking
  }

  lemma FirstAttemptBranches(sh: Shared, r: Replica, s: Surroundings, removed: bool)
    requires At(r, Fetching) && !Forced(r.drain) && r.local.None?
    ensures var tracked := if s.fetched then Advance(sh.origin, s.early) else r.tracking;
      var (_, r', result) := Attempted(sh, r, s, removed);
      if tracked.Some? then r'.local.None? && result.Stopped? && r'.outbox == r.outbox else r'.local.Some?
  {
  }

  /** A drain gives a clone without a local branch one, exactly when the clone knows of no remote branch by
      the time it appends; otherwise the drain stops there and leaves the outbox as it was. */
  lemma DrainBranchesIff(sh: Shared, r: Replica, skipPush: bool, w: Weather)
    requires |w.attempts| == MAX_PUSH_ATTEMPTS && r.drain.Idle? && r.outbox != [] && r.local.None?
    ensures var (_, r', result) := Drained(sh, r, skipPush, w);
      && (r'.local.Some? <==> TrackedAtAppend(sh, r, w).None?)
      && (r'.local.None? ==> result.Stopped? && r'.outbox == r.outbox)
  {
    var r1 := Started(sh, r, skipPush, w);
    var (_, r2, last) := Drained(sh, r, skipPush, w);
    FirstAttemptBranches(sh, r1, w.attempts[0], w.removed);
    DrainFromFirst(sh, r1, w, 0, r2, last);
  }

  lemma DrainFromFirst(sh: Shared, r: Replica, w: Weather, k: nat, r2: Replica, last: AttemptResult)
    requires |w.attempts| == MAX_PUSH_ATTEMPTS && k < MAX_PUSH_ATTEMPTS && r.drain.Running?
    requires Attempts(sh, r, w, k).1 == r2 && Attempts(sh, r, w, k).2 == last
    ensures var (_, r1, result) := Attempted(sh, r, w.attempts[k], w.removed);
      && (r1.local.Some? ==> r2.local.Some?)
      && (!result.Bounced? ==> r2 == r1 && last == result)
  {
    var sh1, r1, result := NextAttempt(sh, r, w, k);
    if result.Bounced? && r1.local.Some? { AttemptsKeepBranch(sh1, r1, w, k + 1, r2); }
  }

  // ----- bounded retry -----

  /** Every fetch works, and a push fails only when it is not a fast-forward. */
  predicate OnlyRejectionsFail(w: Weather) {
    && |w.attempts| == MAX_PUSH_ATTEMPTS && w.preflight
    && forall s :: s in w.attempts ==> s.fetched && s.outcome.Landed?
  }

  function NewCommit(s: Surroundings, rows: seq<OutboxRow>): Commit {
    Commit(s.stamp, LinesOfRows(rows))
  }

  /** Nothing lands between this attempt's fetch and its push that the push would not contain: no commit
      of another writer, unless it is the very commit this attempt made. */
  predicate WindowQuiet(s: Surroundings, rows: seq<OutboxRow>) {
    s.racing <= [NewCommit(s, rows)]
  }

  /** Attempt k or a later one has its window to itself. */
  predicate QuietFrom(w: Weather, k: nat, rows: seq<OutboxRow>)
    requires |w.attempts| == MAX_PUSH_ATTEMPTS
  {
    exists j :: k <= j < MAX_PUSH_ATTEMPTS && WindowQuiet(w.attempts[j], rows)
  }

  lemma QuietStep(w: Weather, k: nat, rows: seq<OutboxRow>)
    requires |w.attempts| == MAX_PUSH_ATTEMPTS && k < MAX_PUSH_ATTEMPTS
    ensures QuietFrom(w, k, rows) <==> WindowQuiet(w.attempts[k], rows) || QuietFrom(w, k + 1, rows)
  {
  }

  /** There is a local branch, or no branch anywhere: otherwise appending fails at once. */
  predicate CanAppend(origin: Option<History>, local: Option<History>, s: Surroundings) {
    local.Some? || Advance(origin, s.early).None?
  }

  /** Each has a commit the other lacks. */
  predicate Diverged(local: Option<History>, remote: Option<History>) {
    !IsPrefixOf(local, remote) && !IsPrefixOf(remote, local)
  }

  /** What the local branch has on top of the remote one. */
  function Unpushed(local: Option<History>, remote: Option<History>): History {
    if local.Some? && IsPrefixOf(remote, local) then local.value[|HistoryOf(remote)|..] else []
  }

  /** The local branch has not diverged from what is fetched, and what others land before the push are at
      most commits that the push contains anyway. */
  predicate PlainAttemptLands(origin: Option<History>, local: Option<History>, s: Surroundings, rows: seq<OutboxRow>) {
    var fetched := Advance(origin, s.early);
    !Diverged(local, fetched) && s.racing <= Unpushed(local, fetched) + [NewCommit(s, rows)]
  }

  /** In particular a clone without unpushed commits needs a quiet window. */
  lemma CleanCloneNeedsQuiet(origin: Option<History>, local: Option<History>, s: Surroundings, rows: seq<OutboxRow>)
    requires IsPrefixOf(local, Advance(origin, s.early))
    ensures PlainAttemptLands(origin, local, s, rows) <==> WindowQuiet(s, rows)
  {
  }

  lemma PrefixBehind(h: History, xs: seq<Commit>, ys: seq<Commit>)
    ensures h + xs <= h + ys <==> xs <= ys
  {
    if h + xs <= h + ys {
      forall i | 0 <= i < |xs| ensures xs[i] == ys[i] { assert (h + xs)[|h|+i] == (h + ys)[|h|+i]; }
    }
  }

  /** That is when the commit built on the resolved tip contains what origin holds at push time. */
  lemma FastForwardIff(fetched: Option<History>, local: Option<History>, racing: seq<Commit>, c: Commit)
    requires local.Some? || fetched.None?
    ensures IsPrefixOf(Advance(fetched, racing), Some(HistoryOf(ResolveTip(local, fetched)) + [c]))
      <==> !Diverged(local, fetched) && racing <= Unpushed(local, fetched) + [c]
  {
    var f, tip := HistoryOf(fetched), HistoryOf(ResolveTip(local, fetched));
    assert racing == [] ==> f + racing == f;
    if Diverged(local, fetched) {
      DivergedNeverFits(local.value, f, racing, c);
    } else {
      assert tip == f + Unpushed(local, fetched);
      assert tip + [c] == f + (Unpushed(local, fetched) + [c]);
      PrefixBehind(f, racing, Unpushed(local, fetched) + [c]);
    }
  }

  /** What fits on a branch with one more commit is that branch with the commit, or fits on the branch. */
  lemma FitsOnSnoc(f: History, l: History, c: Commit)
    requires f <= l + [c]
    ensures f <= l || l <= f
  {
    if |f| <= |l| { assert f == l[..|f|]; } else { assert f == l + [c]; }
  }

  lemma DivergedNeverFits(l: History, f: History, racing: seq<Commit>, c: Commit)
    requires !(l <= f) && !(f <= l)
    ensures !(f + racing <= l + [c])
  {
    if f + racing <= l + [c] { FitsOnSnoc(f, l, c); }
  }

  predicate FirstAttemptLands(origin: Option<History>, local: Option<History>, w: Weather, rows: seq<OutboxRow>)
    requires |w.attempts| > 0
  {
    if StartsWithReset(local, origin, w.threshold) then WindowQuiet(w.attempts[0], rows)
    else PlainAttemptLands(origin, local, w.attempts[0], rows)
  }

  lemma ForcedLandsIff(origin: History, s: Surroundings, rows: seq<OutboxRow>)
    ensures IsPrefixOf(Advance(Some(origin), s.racing), Some(origin + [NewCommit(s, rows)]))
      <==> WindowQuiet(s, rows)
  {
    var c := NewCommit(s, rows);
    if origin + s.racing <= origin + [c] {
      forall i | 0 <= i < |s.racing| ensures s.racing[i] == [c][i] {
        assert (origin + s.racing)[|origin| + i] == (origin + [c])[|origin| + i];
      }
    }
    if s.racing == [] { assert origin + s.racing == origin; }
  }

  /** The tip an attempt builds on. */
  function TipOf(origin: Option<History>, local: Option<History>, forced: bool): Option<History> {
    if forced then origin else ResolveTip(local, origin)
  }

  lemma CommitHoldsRows(tip: History, s: Surroundings, rows: seq<OutboxRow>)
    ensures RowLines(rows) <= RefLines(Some(tip + [NewCommit(s, rows)]))
  {
    FlatAppend(tip, NewCommit(s, rows));
    RowLinesAre(rows);
  }

  /** One attempt: it delivers iff the commit it built contains what origin holds at push time,
      and otherwise it is bounced and origin exists. */
  lemma AttemptLandsIff(sh: Shared, r: Replica, s: Surroundings, removed: bool)
    requires At(r, Fetching) && !r.drain.skipPush && CanAppend(sh.origin, r.local, s)
    requires s.fetched && s.outcome.Landed?
    requires Forced(r.drain) ==> sh.origin.Some?
    ensures var (sh', r', result) := Attempted(sh, r, s, removed);
      && (result.Delivered? <==>
          if Forced(r.drain) then WindowQuiet(s, r.drain.rows)
          else PlainAttemptLands(sh.origin, r.local, s, r.drain.rows))
      && (!result.Delivered? ==> result.Bounced? && sh'.origin.Some? && r'.local.Some?)
      && (result.Delivered? ==> RowLines(r.drain.rows) <= RefLines(sh'.origin))
  {
    var fetched := Advance(sh.origin, s.early);
    var sh1 := sh.(origin := fetched);
    var r1, tip := Build(sh1, r, s), HistoryOf(TipOf(fetched, r.local, Forced(r.drain)));
    if Forced(r.drain) { ForcedLandsIff(tip, s, r.drain.rows); }
    else { FastForwardIff(fetched, r.local, s.racing, NewCommit(s, r.drain.rows)); }
    CommitHoldsRows(tip, s, r.drain.rows);
  }

  lemma OneAttemptLands(sh: Shared, r: Replica, w: Weather, k: nat)
    returns (sh1: Shared, r1: Replica, result: AttemptResult)
    requires OnlyRejectionsFail(w) && 1 <= k < MAX_PUSH_ATTEMPTS && sh.origin.Some?
    requires At(r, Fetching) && r.drain.attempt == k + 1 && !r.drain.skipPush && r.local.Some?
    ensures Attempts(sh, r, w, k) == if result.Bounced? then Attempts(sh1, r1, w, k + 1) else (sh1, r1, result)
    ensures r1.drain == if result.Bounced? then NextDrain(r.drain) else Idle
    ensures result.Delivered? <==> WindowQuiet(w.attempts[k], r.drain.rows)
    ensures !result.Delivered? ==> result.Bounced? && sh1.origin.Some? && r1.local.Some?
    ensures result.Delivered? ==> RowLines(r.drain.rows) <= RefLines(sh1.origin)
  {
    sh1, r1, result := NextAttempt(sh, r, w, k);
    AttemptLandsIff(sh, r, w.attempts[k], w.removed);
  }

  lemma {:induction false} LaterAttemptsLandIff(sh: Shared, r: Replica, w: Weather, k: nat, rows: seq<OutboxRow>,
                                                sh2: Shared, last: AttemptResult)
    requires OnlyRejectionsFail(w) && 1 <= k <= MAX_PUSH_ATTEMPTS && sh.origin.Some?
    requires if k == MAX_PUSH_ATTEMPTS then r.drain.Idle? else
      At(r, Fetching) && r.drain.attempt == k + 1 && !r.drain.skipPush && r.local.Some? && r.drain.rows == rows
    requires Attempts(sh, r, w, k).0 == sh2 && Attempts(sh, r, w, k).2 == last
    ensures last.Delivered? <==> QuietFrom(w, k, rows)
    ensures if last.Delivered? then RowLines(rows) <= RefLines(sh2.origin) else last.Bounced?
    decreases MAX_PUSH_ATTEMPTS - k
  {
    if k < MAX_PUSH_ATTEMPTS {
      var sh1, r1, result := OneAttemptLands(sh, r, w, k);
      QuietStep(w, k, rows);
      if result.Bounced? { LaterAttemptsLandIff(sh1, r1, w, k + 1, rows, sh2, last); }
    }
  }

  lemma AttemptsLandIff(sh: Shared, r: Replica, w: Weather, k: nat, sh2: Shared, last: AttemptResult)
    requires OnlyRejectionsFail(w) && k == 0 && At(r, Fetching)
    requires CanAppend(sh.origin, r.local, w.attempts[0])
    requires r.drain.attempt == 1 && !r.drain.skipPush
    requires r.drain.startWithReset ==> sh.origin.Some?
    requires Attempts(sh, r, w, k).0 == sh2 && Attempts(sh, r, w, k).2 == last
    ensures last.Delivered? <==>
      || (if r.drain.startWithReset then WindowQuiet(w.attempts[0], r.drain.rows)
          else PlainAttemptLands(sh.origin, r.local, w.attempts[0], r.drain.rows))
      || QuietFrom(w, 1, r.drain.rows)
    ensures if last.Delivered? then RowLines(r.drain.rows) <= RefLines(sh2.origin) else last.Bounced?
  {
    var sh1, r1, first := FirstAttempt(sh, r, w, k);
    if first.Bounced? {
      LaterAttemptsLandIff(sh1, r1, w, k + 1, r.drain.rows, sh2, last);
    }
  }

  lemma FirstAttempt(sh: Shared, r: Replica, w: Weather, k: nat)
    returns (sh1: Shared, r1: Replica, result: AttemptResult)
    requires OnlyRejectionsFail(w) && k == 0 && At(r, Fetching)
    requires CanAppend(sh.origin, r.local, w.attempts[0])
    requires r.drain.attempt == 1 && !r.drain.skipPush
    requires r.drain.startWithReset ==> sh.origin.Some?
    ensures Attempts(sh, r, w, k) == if result.Bounced? then Attempts(sh1, r1, w, k + 1) else (sh1, r1, result)
    ensures r1.drain == if result.Bounced? then NextDrain(r.drain) else Idle
    ensures result.Delivered? <==>
      if r.drain.startWithReset then WindowQuiet(w.attempts[0], r.drain.rows)
      else PlainAttemptLands(sh.origin, r.local, w.attempts[0], r.drain.rows)
    ensures !result.Delivered? ==> result.Bounced? && sh1.origin.Some? && r1.local.Some?
    ensures result.Delivered? ==> RowLines(r.drain.rows) <= RefLines(sh1.origin)
  {
    sh1, r1, result := NextAttempt(sh, r, w, k);
    AttemptLandsIff(sh, r, w.attempts[k], w.removed);
  }

  /** When only rejections can fail a push, a drain delivers iff its first attempt lands or one of
      the two forced attempts has a quiet window; delivered lines are on origin, and otherwise
      all three attempts were bounced. */
  lemma BoundedRetryIff(sh: Shared, r: Replica, w: Weather)
    requires OnlyRejectionsFail(w) && r.drain.Idle? && r.outbox != []
    requires CanAppend(sh.origin, r.local, w.attempts[0])
    ensures var (sh', _, result) := Drained(sh, r, false, w);
      && (result.Delivered? <==>
          || FirstAttemptLands(sh.origin, r.local, w, r.outbox)
          || QuietFrom(w, 1, r.outbox))
      && (if result.Delivered? then RowLines(r.outbox) <= RefLines(sh'.origin) else result.Bounced?)
  {
    var r1 := Started(sh, r, false, w);
    var (sh', _, last) := Drained(sh, r, false, w);
    assert r1.drain == Running(r.outbox, false, StartsWithReset(r.local, sh.origin, w.threshold), 1, Fetching);
    AttemptsLandIff(sh, r1, w, 0, sh', last);
  }

  // ----- when the first attempt is forced -----

  /** The first attempt throws the local branch away exactly when the preflight fetch went through, both
      refs exist, the threshold is set, and origin's tip has at least that many commits beyond the history
      the local branch shares with it. */
  lemma StartsForcedIff(sh: Shared, r: Replica, skipPush: bool, w: Weather)
    requires r.drain.Idle? && r.outbox != []
    ensures Started(sh, r, skipPush, w).drain.attempt == 1
    ensures Forced(Started(sh, r, skipPush, w).drain) <==>
      w.preflight && w.threshold > 0 && exists n: nat :: n >= w.threshold && AheadBy(r.local, sh.origin, n)
  {
    if r.local.Some? && sh.origin.Some? {
      BehindIff(r.local, sh.origin, Behind(r.local, sh.origin).value);
    }
    forall n: nat ensures Behind(r.local, sh.origin) == Some(n) <==> AheadBy(r.local, sh.origin, n) {
      BehindIff(r.local, sh.origin, n);
    }
  }

  /** A branch that holds everything on origin is never thrown away at the start, whatever it holds of
      its own. */
  lemma UpToDateNeverStartsForced(sh: Shared, r: Replica, skipPush: bool, w: Weather)
    requires r.drain.Idle? && r.outbox != []
    requires r.local.Some? && IsPrefixOf(sh.origin, r.local)
    ensures !Forced(Started(sh, r, skipPush, w).drain)
  {
    if sh.origin.Some? {
      var o, l := sh.origin.value, r.local.value;
      assert l == o + l[|o|..] && o == o + [];
      BehindCounts(o, l[|o|..], []);
    }
  }

  /** A drain with skipPush pushes nothing: origin gets what others land and no more, and it takes one
      attempt. */
  lemma SkipPushStaysLocal(sh: Shared, r: Replica, w: Weather)
    requires |w.attempts| == MAX_PUSH_ATTEMPTS && r.drain.Idle? && r.outbox != []
    ensures var (sh', r', result) := Drained(sh, r, true, w);
      var early := Advance(sh.origin, w.attempts[0].early);
      && !result.Bounced? && r'.drain.Idle?
      && sh'.origin == if result.Stopped? then early else Advance(early, w.attempts[0].racing)
  {
    var r1 := Started(sh, r, true, w);
    var (sh', r', result) := Attempted(sh, r1, w.attempts[0], w.removed);
    assert Attempts(sh, r1, w, 0) == (sh', r', result);
  }
}
