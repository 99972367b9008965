/**
 Whole runs of a set of replicas: what holds after any sequence of steps of any of them.
 */
module Runs {
  import opened Wrappers
  import opened L1Log
  import opened Ingest
  import opened Replica
  import opened Replication

  datatype System = System(sh: Shared, replicas: seq<Replica>)

  datatype Event = Event(who: nat, action: Action)

  function FreshReplica(): Replica {
    Replica(map[], [], 1, None, None, Idle, {}, [], {}, {})
  }

  function Start(n: nat): System {
    System(Shared(None, {}), seq(n, _ => FreshReplica()))
  }

  function Step(s: System, e: Event): System {
    if e.who < |s.replicas| then
      var (sh, r) := Act(s.sh, s.replicas[e.who], e.action);
      System(sh, s.replicas[e.who := r])
    else s
  }

  function Run(s: System, es: seq<Event>): System {
    if es == [] then s else Step(Run(s, es[..|es|-1]), es[|es|-1])
  }

  ghost predicate SystemInv(s: System) {
    && SharedInv(s.sh)
    && (forall i :: 0 <= i < |s.replicas| ==> ReplicaInv(s.sh, s.replicas[i]))
  }

  /** Every line in the system was written by one of the replicas. */
  ghost predicate HasWriter(s: System, l: Line) {
    exists i :: 0 <= i < |s.replicas| && l in s.replicas[i].written
  }

  ghost predicate AllWritten(s: System) {
    forall l :: l in s.sh.ever ==> HasWriter(s, l)
  }

  predicate NoSkipPush(es: seq<Event>) {
    forall e :: e in es ==> !(e.action.DrainStart? && e.action.skipPush)
  }

  ghost predicate NothingSkipped(r: Replica) {
    r.skipped == {} && (r.drain.Running? ==> !r.drain.skipPush)
  }

  // ----- invariants over runs -----

  lemma {:induction false} DeleteWrites(sh: Shared, r: Replica, targets: seq<Id>)
    ensures r.written <= DoDelete(sh, r, targets).1.written
    ensures forall l :: l in DoDelete(sh, r, targets).0.ever ==>
      l in sh.ever || l in DoDelete(sh, r, targets).1.written
    ensures DoDelete(sh, r, targets).1.drain == r.drain && DoDelete(sh, r, targets).1.skipped == r.skipped
  {
    if targets != [] {
      DeleteWrites(sh, r, targets[..|targets|-1]);
    }
  }

  /** A step only adds to what its replica wrote, and whatever is new in the system is in it. */
  lemma StepWrites(sh: Shared, r: Replica, a: Action)
    ensures r.written <= Act(sh, r, a).1.written
    ensures forall l :: l in Act(sh, r, a).0.ever ==> l in sh.ever || l in Act(sh, r, a).1.written
    ensures NothingSkipped(r) && !(a.DrainStart? && a.skipPush) ==> NothingSkipped(Act(sh, r, a).1)
  {
    if a.Delete? { DeleteWrites(sh, r, a.targets); }
  }

  lemma StepKeepsSystem(s: System, e: Event)
    requires SystemInv(s)
    ensures SystemInv(Step(s, e))
    ensures Grows(s.sh, Step(s, e).sh)
  {
    if e.who < |s.replicas| {
      StepKeeps(s.sh, s.replicas[e.who], e.action);
      forall i | 0 <= i < |s.replicas| && i != e.who
        ensures ReplicaInv(Step(s, e).sh, Step(s, e).replicas[i])
      {
        OthersKeepInv(s.sh, Step(s, e).sh, s.replicas[i]);
      }
    }
  }

  lemma StepKeepsWriters(s: System, e: Event)
    requires AllWritten(s)
    ensures AllWritten(Step(s, e))
  {
    if e.who < |s.replicas| {
      var s' := Step(s, e);
      StepWrites(s.sh, s.replicas[e.who], e.action);
      forall l | l in s'.sh.ever ensures HasWriter(s', l) {
        if l in s.sh.ever {
          var i :| 0 <= i < |s.replicas| && l in s.replicas[i].written;
          assert l in s'.replicas[i].written;
        } else {
          assert l in s'.replicas[e.who].written;
        }
      }
    }
  }

  /** The invariant holds along every run, and origin is only ever extended. */
  lemma {:induction false} RunKeeps(s: System, es: seq<Event>)
    requires SystemInv(s)
    ensures SystemInv(Run(s, es))
    ensures IsPrefixOf(s.sh.origin, Run(s, es).sh.origin) && s.sh.ever <= Run(s, es).sh.ever
    ensures |Run(s, es).replicas| == |s.replicas|
  {
    if es != [] {
      RunKeeps(s, es[..|es|-1]);
      StepKeepsSystem(Run(s, es[..|es|-1]), es[|es|-1]);
    }
  }

  lemma {:induction false} RunKeepsWriters(s: System, es: seq<Event>)
    requires AllWritten(s)
    ensures AllWritten(Run(s, es))
  {
    if es != [] {
      RunKeepsWriters(s, es[..|es|-1]);
      StepKeepsWriters(Run(s, es[..|es|-1]), es[|es|-1]);
    }
  }

  lemma {:induction false} RunSkipsNothing(s: System, es: seq<Event>)
    requires NoSkipPush(es)
    requires forall i :: 0 <= i < |s.replicas| ==> NothingSkipped(s.replicas[i])
    ensures |Run(s, es).replicas| == |s.replicas|
    ensures forall i :: 0 <= i < |s.replicas| ==> NothingSkipped(Run(s, es).replicas[i])
  {
    if es != [] {
      var init, e := es[..|es|-1], es[|es|-1];
      RunSkipsNothing(s, init);
      if e.who < |s.replicas| {
        StepWrites(Run(s, init).sh, Run(s, init).replicas[e.who], e.action);
      }
    }
  }

  // ----- main results -----

  /** At least once: in every run without a `skipPush` drain, each line a replica ever committed
      to its outbox is still queued there or is in origin's log. */
  lemma NothingLost(n: nat, es: seq<Event>, i: nat)
    requires NoSkipPush(es) && i < n
    ensures var s := Run(Start(n), es);
      && i < |s.replicas|
      && SetOf(s.replicas[i].written) <= RowLines(s.replicas[i].outbox) + RefLines(s.sh.origin)
  {
    RunKeeps(Start(n), es);
    RunSkipsNothing(Start(n), es);
    var s := Run(Start(n), es);
    assert ReplicaInv(s.sh, s.replicas[i]) && NothingSkipped(s.replicas[i]);
  }

  /** In every run at all, each line is queued, on origin, or was skipped by a `skipPush` drain; a skipped
      one is on origin, still in the writer's local branch, or was dropped by a forced reset. */
  lemma EveryLineAccounted(n: nat, es: seq<Event>, i: nat)
    requires i < n
    ensures var s := Run(Start(n), es);
      && i < |s.replicas|
      && var r := s.replicas[i];
         SetOf(r.written) <= RowLines(r.outbox) + RefLines(s.sh.origin)
           + r.skipped * (RefLines(r.local) + r.dropped)
  {
    RunKeeps(Start(n), es);
    var s := Run(Start(n), es);
    assert ReplicaInv(s.sh, s.replicas[i]);
  }

  /** Two runs, one continuing the other: origin is extended, never rewritten. */
  lemma OriginOnlyGrows(n: nat, es: seq<Event>, more: seq<Event>)
    ensures IsPrefixOf(Run(Start(n), es).sh.origin, Run(Run(Start(n), es), more).sh.origin)
  {
    RunKeeps(Start(n), es);
    RunKeeps(Run(Start(n), es), more);
  }

  ghost predicate Quiescent(s: System) {
    forall i :: 0 <= i < |s.replicas| ==> s.replicas[i].outbox == []
  }

  ghost predicate CaughtUp(s: System, i: nat)
    requires i < |s.replicas|
  {
    RefLines(s.sh.origin) <= s.replicas[i].seen
  }

  lemma AllReachOrigin(n: nat, es: seq<Event>, l: Line)
    requires NoSkipPush(es) && |Run(Start(n), es).replicas| == n && Quiescent(Run(Start(n), es))
    requires l in Run(Start(n), es).sh.ever
    ensures l in RefLines(Run(Start(n), es).sh.origin)
  {
    RunKeepsWriters(Start(n), es);
    var s := Run(Start(n), es);
    assert HasWriter(s, l);
    var j :| 0 <= j < |s.replicas| && l in s.replicas[j].written;
    NothingLost(n, es, j);
    assert RowLines(s.replicas[j].outbox) == {};
  }

  /** Once every outbox is drained, a replica that has pulled all of origin's log holds exactly
      what all writers together wrote: an id is present iff someone wrote it, and deleted iff
      someone deleted it. */
  lemma CaughtUpReplicaIsComplete(n: nat, es: seq<Event>, i: nat)
    requires NoSkipPush(es) && i < n
    requires |Run(Start(n), es).replicas| == n
    requires Quiescent(Run(Start(n), es)) && CaughtUp(Run(Start(n), es), i)
    ensures var s := Run(Start(n), es); Explains(s.replicas[i].memories, s.sh.ever)
  {
    RunKeeps(Start(n), es);
    var s := Run(Start(n), es);
    forall l | l in s.sh.ever ensures l in RefLines(s.sh.origin) { AllReachOrigin(n, es, l); }
    assert ReplicaInv(s.sh, s.replicas[i]);
    assert s.replicas[i].seen == s.sh.ever;
  }

  /** Hence all caught-up replicas hold the same table. */
  lemma ReplicasConverge(n: nat, es: seq<Event>, i: nat, j: nat)
    requires NoSkipPush(es) && i < n && j < n
    requires |Run(Start(n), es).replicas| == n
    requires Quiescent(Run(Start(n), es))
    requires CaughtUp(Run(Start(n), es), i) && CaughtUp(Run(Start(n), es), j)
    ensures var s := Run(Start(n), es); s.replicas[i].memories == s.replicas[j].memories
  {
    CaughtUpReplicaIsComplete(n, es, i);
    CaughtUpReplicaIsComplete(n, es, j);
    RunKeeps(Start(n), es);
    var s := Run(Start(n), es);
    ExplainsUnique(s.replicas[i].memories, s.replicas[j].memories, s.sh.ever);
  }

  // ----- where a drain loses or stalls -----

  /** Removing the rows of a `skipPush` drain keeps "queued or on origin" exactly when every one
      of its lines had already reached origin or is queued a second time. */
  lemma SkipRemovalKeepsIff(sh: Shared, r: Replica)
    requires SharedInv(sh) && ReplicaInv(sh, r) && At(r, Removing) && r.drain.skipPush
    requires SetOf(r.written) <= RowLines(r.outbox) + RefLines(sh.origin)
    ensures var r' := DoRemove(r, true);
      SetOf(r'.written) <= RowLines(r'.outbox) + RefLines(sh.origin)
      <==> RowLines(r.drain.rows) <= RefLines(sh.origin) + RowLines(r.outbox[|r.drain.rows|..])
  {
    RemoveKeeps(sh, r, true);
    RowsSplit(r.outbox, r.drain.rows);
  }

  /** No outbox, no local branch and not origin holds the line any more. */
  ghost predicate Lost(s: System, l: Line) {
    && l in s.sh.ever && l !in RefLines(s.sh.origin)
    && forall i :: 0 <= i < |s.replicas| ==>
         l !in RowLines(s.replicas[i].outbox) && l !in RefLines(s.replicas[i].local)
  }

  lemma {:induction false} DeleteQueuesTombstones(sh: Shared, r: Replica, targets: seq<Id>, l: Line)
    requires !l.tomb
    ensures l in RowLines(DoDelete(sh, r, targets).1.outbox) ==> l in RowLines(r.outbox)
    ensures DoDelete(sh, r, targets).1.local == r.local && DoDelete(sh, r, targets).0.origin == sh.origin
  {
    if targets != [] { DeleteQueuesTombstones(sh, r, targets[..|targets|-1], l); }
  }

  lemma {:induction false} WithoutIsPart(rows: seq<OutboxRow>, ids: set<nat>)
    ensures forall row :: row in Without(rows, ids) ==> row in rows
  {
    if rows != [] { WithoutIsPart(rows[1..], ids); }
  }

  /** The line is known to have been written, and neither this replica nor origin holds it. */
  ghost predicate HeldNowhere(sh: Shared, r: Replica, l: Line) {
    l in sh.ever && l !in RefLines(sh.origin) && l !in RowLines(r.outbox) && l !in RefLines(r.local)
  }

  lemma WriterKeepsLost(sh: Shared, r: Replica, a: Action, l: Line)
    requires SharedInv(sh) && ReplicaInv(sh, r) && !l.tomb && HeldNowhere(sh, r, l)
    requires a.Sync? || a.OfflineWrite? || a.Delete?
    ensures HeldNowhere(Act(sh, r, a).0, Act(sh, r, a).1, l)
  {
    assert l.id in Ids(sh.ever);
    if a.Delete? {
      DeleteKeeps(sh, r, a.targets);
      DeleteQueuesTombstones(sh, r, a.targets, l);
    }
  }

  lemma PushKeepsLost(sh: Shared, r: Replica, outcome: PushOutcome, l: Line)
    requires At(r, Pushing) && HeldNowhere(sh, r, l)
    ensures HeldNowhere(DoPush(sh, r, outcome).0, DoPush(sh, r, outcome).1, l)
  {
  }

  /** One replica's step creates no new copy of a live line that is queued and shared nowhere. */
  lemma StepKeepsLost(sh: Shared, r: Replica, a: Action, l: Line)
    requires SharedInv(sh) && ReplicaInv(sh, r) && !l.tomb && HeldNowhere(sh, r, l)
    ensures HeldNowhere(Act(sh, r, a).0, Act(sh, r, a).1, l)
  {
    RefLinesMonotone(r.tracking, sh.origin);
    match a {
      case Sync(_, _) => WriterKeepsLost(sh, r, a, l);
      case OfflineWrite(_, _) => WriterKeepsLost(sh, r, a, l);
      case Delete(_) => WriterKeepsLost(sh, r, a, l);
      case Append(stamp) => if At(r, Appending) { AppendAddsRows(r, stamp, l); }
      case Push(outcome) => if At(r, Pushing) { PushKeepsLost(sh, r, outcome, l); }
      case Remove(ok) => if At(r, Removing) { WithoutIsPart(r.outbox, RowIds(r.drain.rows)); }
      case _ =>
    }
  }

  lemma AppendAddsRows(r: Replica, stamp: nat, l: Line)
    requires At(r, Appending) && r.drain.rows <= r.outbox
    requires l !in RowLines(r.outbox) && l !in RefLines(r.local) && l !in RefLines(r.tracking)
    ensures l !in RefLines(DoAppend(r, stamp).local)
  {
    var tip := ResolveTip(r.local, r.tracking);
    FlatAppend(HistoryOf(tip), Commit(stamp, LinesOfRows(r.drain.rows)));
    RowLinesAre(r.drain.rows);
    assert forall x :: x in r.drain.rows ==> x in r.outbox;
  }

  /** A lost live line is gone for good: nothing that happens later writes it again. */
  lemma {:induction false} LostForever(s: System, es: seq<Event>, l: Line)
    requires SystemInv(s) && !l.tomb && Lost(s, l)
    ensures Lost(Run(s, es), l)
  {
    if es != [] {
      var init, e := es[..|es|-1], es[|es|-1];
      LostForever(s, init, l);
      RunKeeps(s, init);
      var s1 := Run(s, init);
      if e.who < |s1.replicas| { StepKeepsLost(s1.sh, s1.replicas[e.who], e.action, l); }
    }
  }

  /** A line that is in no outbox and in no other clone's branch is lost by a forced reset exactly when it
      never reached origin.  By the accounting above, only a `skipPush` drain leaves a line like that. */
  lemma ResetLosesIff(s: System, i: nat, l: Line)
    requires SystemInv(s) && i < |s.replicas| && At(s.replicas[i], Resetting) && s.replicas[i].tracking.Some?
    requires l in s.sh.ever && forall j :: 0 <= j < |s.replicas| ==> l !in RowLines(s.replicas[j].outbox)
    requires forall j :: 0 <= j < |s.replicas| && j != i ==> l !in RefLines(s.replicas[j].local)
    ensures Lost(Step(s, Event(i, Reset)), l) <==> l !in RefLines(s.sh.origin)
  {
    RefLinesMonotone(s.replicas[i].tracking, s.sh.origin);
  }

  /** A clone that knows the remote branch but never got a local one, and is not mid-append. */
  ghost predicate NoLocalBranch(r: Replica) {
    && r.local.None? && r.tracking.Some?
    && (r.drain.Running? ==>
          && r.drain.attempt == 1 && !r.drain.startWithReset
          && r.drain.phase in {Preflight, Fetching, Appending})
  }

  lemma {:induction false} DeleteKeepsClone(sh: Shared, r: Replica, targets: seq<Id>)
    ensures var r' := DoDelete(sh, r, targets).1;
      && r'.local == r.local && r'.tracking == r.tracking && r'.drain == r.drain
      && r.outbox <= r'.outbox
    ensures DoDelete(sh, r, targets).0.origin == sh.origin
  {
    if targets != [] {
      DeleteKeepsClone(sh, r, targets[..|targets|-1]);
    }
  }

  lemma NoLocalBranchStep(sh: Shared, r: Replica, a: Action)
    requires NoLocalBranch(r) && sh.origin.Some? && !a.Checkout?
    ensures NoLocalBranch(Act(sh, r, a).1)
    ensures r.outbox <= Act(sh, r, a).1.outbox
    ensures Act(sh, r, a).0.origin == sh.origin
  {
    if a.Delete? { DeleteKeepsClone(sh, r, a.targets); }
  }

  lemma ActExtendsOrigin(sh: Shared, r: Replica, a: Action)
    ensures IsPrefixOf(sh.origin, Act(sh, r, a).0.origin)
  {
    if a.Delete? { DeleteKeepsClone(sh, r, a.targets); }
  }

  /** Such a clone is stuck: whatever its daemon and the others do, its local branch is never
      created and no row ever leaves its outbox, until a command checks the branch out. */
  lemma {:induction false} NoLocalBranchIsStuck(s: System, es: seq<Event>, i: nat)
    requires i < |s.replicas| && NoLocalBranch(s.replicas[i]) && s.sh.origin.Some?
    requires forall e :: e in es ==> !(e.who == i && e.action.Checkout?)
    ensures |Run(s, es).replicas| == |s.replicas| && Run(s, es).sh.origin.Some?
    ensures NoLocalBranch(Run(s, es).replicas[i])
    ensures s.replicas[i].outbox <= Run(s, es).replicas[i].outbox
  {
    if es != [] {
      var init, e := es[..|es|-1], es[|es|-1];
      NoLocalBranchIsStuck(s, init, i);
      assert e in es;
      if e.who < |s.replicas| {
        ActExtendsOrigin(Run(s, init).sh, Run(s, init).replicas[e.who], e.action);
        if e.who == i {
          NoLocalBranchStep(Run(s, init).sh, Run(s, init).replicas[i], e.action);
        }
      }
    }
  }

  /** Appending never gets past the compare-and-swap exactly in that situation. */
  lemma AppendStallsIff(r: Replica, stamp: nat)
    requires At(r, Appending)
    ensures DoAppend(r, stamp).drain.Idle? <==> r.local.None? && r.tracking.Some?
    ensures DoAppend(r, stamp).drain.Running? ==>
      && DoAppend(r, stamp).local.Some?
      && IsPrefixOf(r.local, DoAppend(r, stamp).local)
  {
  }
}
