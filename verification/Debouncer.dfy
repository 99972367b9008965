/**
 The push debouncer: one timer and one pending count per cortex, a hand-off through the event
 loop's immediate queue, and one global lock made of a chain of promises.

 Each action below is one uninterrupted turn of the event loop.  A drain reads the outbox in the
 same turn in which it gets the lock; whatever happens until it ends is other turns.

 Main results, over every run: counts are conserved and a timer is armed exactly while a count is
 pending; drains of all cortexes run one at a time in the order they asked for the lock, and a
 failing one still releases its successor; every outbox row is covered by a wake-up that is still
 to come unless the drain that read it failed or the daemon crashed.
 */
module Debouncer {
  import opened Wrappers

  type Cortex = string

  /** `timer` holds the `skipPush` of the notification that armed it. */
  datatype CortexState = CortexState(timer: Option<bool>, pendingCount: nat)

  datatype Row = Row(cortex: Cortex, id: nat)

  datatype Handoff = Handoff(cortex: Cortex, count: nat, skipPush: bool)

  datatype Status = Waiting | Running(read: set<Row>) | Finished

  /** A drain that asked for the lock: it waits for promise `prev`; job j resolves promise j + 1. */
  datatype Job = Job(handoff: Handoff, prev: nat, status: Status)

  /** `stranded`, `notified` and `begun` are history: rows no wake-up is known for, the valid
      notifications since start-up, and the jobs in the order their bodies began. */
  datatype State = State(
    states: map<Cortex, CortexState>,
    immediates: seq<Handoff>,
    executeLock: nat,
    resolved: set<nat>,
    jobs: seq<Job>,
    outbox: set<Row>,
    nextRow: nat,
    stranded: set<Row>,
    notified: seq<(Cortex, bool)>,
    begun: seq<nat>)

  datatype Action =
    | Write(cortex: Cortex, skipPush: bool)
    | Notify(cortex: Cortex, skipPush: bool)
    | Fire(cortex: Cortex)
    | RunImmediate
    | Flush(cortex: Cortex, skipPush: bool)
    | Begin(job: nat)
    | End(job: nat, removed: bool)
    | Crash

  const BOOT := State(map[], [], 0, {0}, [], {}, 0, {}, [], [])

  function StateOf(s: State, c: Cortex): CortexState {
    if c in s.states then s.states[c] else CortexState(None, 0)
  }

  function RowsOf(rows: set<Row>, c: Cortex): set<Row> {
    set r | r in rows && r.cortex == c
  }

  // ----- one turn each -----

  function DoNotify(s: State, c: Cortex, skipPush: bool): State {
    s.(states := s.states[c := CortexState(Some(skipPush), StateOf(s, c).pendingCount + 1)],
       stranded := s.stranded - RowsOf(s.stranded, c),
       notified := s.notified + [(c, skipPush)])
  }

  /** A writer commits its outbox row and notifies before it yields. */
  function DoWrite(s: State, c: Cortex, skipPush: bool): State {
    DoNotify(s.(outbox := s.outbox + {Row(c, s.nextRow)}, nextRow := s.nextRow + 1), c, skipPush)
  }

  function DoFire(s: State, c: Cortex): State {
    var st := StateOf(s, c);
    if st.timer.None? then s
    else
      s.(states := s.states[c := CortexState(None, 0)],
         immediates := s.immediates + [Handoff(c, st.pendingCount, st.timer.value)])
  }

  /** Chain onto the promise in the lock field and leave a new one there. */
  function Acquire(s: State, h: Handoff): State {
    s.(jobs := s.jobs + [Job(h, s.executeLock, Waiting)], executeLock := |s.jobs| + 1)
  }

  function DoImmediate(s: State): State {
    if s.immediates == [] then s
    else Acquire(s.(immediates := s.immediates[1..]), s.immediates[0])
  }

  function DoFlush(s: State, c: Cortex, skipPush: bool): State {
    var h := Handoff(c, StateOf(s, c).pendingCount, skipPush);
    var s' := if c in s.states then s.(states := s.states[c := CortexState(None, 0)]) else s;
    Acquire(s'.(stranded := s.stranded - RowsOf(s.stranded, c)), h)
  }

  predicate MayBegin(s: State, j: nat) {
    j < |s.jobs| && s.jobs[j].status.Waiting? && s.jobs[j].prev in s.resolved
  }

  function DoBegin(s: State, j: nat): State {
    if !MayBegin(s, j) then s
    else
      var rows := RowsOf(s.outbox, s.jobs[j].handoff.cortex);
      s.(jobs := s.jobs[j := s.jobs[j].(status := Running(rows))], begun := s.begun + [j],
         stranded := s.stranded - rows)
  }

  /** The body returns or throws; either way its promise is resolved. */
  function DoEnd(s: State, j: nat, removed: bool): State {
    if j >= |s.jobs| || !s.jobs[j].status.Running? then s
    else
      var rows := s.jobs[j].status.read;
      s.(jobs := s.jobs[j := s.jobs[j].(status := Finished)], resolved := s.resolved + {j + 1},
         outbox := if removed then s.outbox - rows else s.outbox,
         stranded := if removed then s.stranded - rows else s.stranded + (rows * s.outbox))
  }

  /** Only the outbox survives. */
  function DoCrash(s: State): State {
    BOOT.(outbox := s.outbox, nextRow := s.nextRow, stranded := s.outbox)
  }

  function Act(s: State, a: Action): State {
    match a
    case Write(c, skipPush) => DoWrite(s, c, skipPush)
    case Notify(c, skipPush) => DoNotify(s, c, skipPush)
    case Fire(c) => DoFire(s, c)
    case RunImmediate => DoImmediate(s)
    case Flush(c, skipPush) => DoFlush(s, c, skipPush)
    case Begin(j) => DoBegin(s, j)
    case End(j, removed) => DoEnd(s, j, removed)
    case Crash => DoCrash(s)
  }

  function Run(s: State, es: seq<Action>): State {
    if es == [] then s else Act(Run(s, es[..|es|-1]), es[|es|-1])
  }

  // ----- invariants -----

  /** A timer is armed exactly while a count is pending, with the last notification's `skipPush`. */
  ghost predicate TimersArmed(s: State) {
    && (forall c :: c in s.states ==> (s.states[c].pendingCount > 0 <==> s.states[c].timer.Some?))
    && (forall c :: c in s.states && s.states[c].timer.Some? ==> s.states[c].timer == LastSkip(s.notified, c))
  }

  function LastSkip(ns: seq<(Cortex, bool)>, c: Cortex): Option<bool> {
    if ns == [] then None
    else if ns[|ns|-1].0 == c then Some(ns[|ns|-1].1)
    else LastSkip(ns[..|ns|-1], c)
  }

  function Notifications(ns: seq<(Cortex, bool)>, c: Cortex): nat {
    if ns == [] then 0
    else Notifications(ns[..|ns|-1], c) + if ns[|ns|-1].0 == c then 1 else 0
  }

  function HandedBy(hs: seq<Handoff>, c: Cortex): nat {
    if hs == [] then 0
    else (if hs[0].cortex == c then hs[0].count else 0) + HandedBy(hs[1..], c)
  }

  /** Everything handed to drains, those that asked for the lock first. */
  function Handoffs(s: State): seq<Handoff> {
    JobHandoffs(s.jobs) + s.immediates
  }

  function JobHandoffs(jobs: seq<Job>): seq<Handoff> {
    seq(|jobs|, i requires 0 <= i < |jobs| => jobs[i].handoff)
  }

  ghost predicate CountsKept(s: State) {
    forall c :: Notifications(s.notified, c) == StateOf(s, c).pendingCount + HandedBy(Handoffs(s), c)
  }

  /** Jobs begin in the order they asked, and only the last one begun can be running. */
  ghost predicate Fifo(s: State) {
    && s.executeLock == |s.jobs|
    && (forall j :: 0 <= j < |s.jobs| ==> s.jobs[j].prev == j)
    && |s.begun| <= |s.jobs|
    && (forall j :: 0 <= j < |s.begun| ==> s.begun[j] == j)
    && (forall j :: 0 <= j < |s.jobs| ==> (s.jobs[j].status.Waiting? <==> |s.begun| <= j))
    && (forall j :: 0 <= j < |s.jobs| && s.jobs[j].status.Running? ==> j == |s.begun| - 1)
    && (forall p :: p in s.resolved <==> p == 0 || (1 <= p <= |s.jobs| && s.jobs[p-1].status.Finished?))
  }

  ghost predicate AwaitsLock(s: State, c: Cortex) {
    exists j :: 0 <= j < |s.jobs| && s.jobs[j].status.Waiting? && s.jobs[j].handoff.cortex == c
  }

  ghost predicate HandedOff(s: State, c: Cortex) {
    exists k :: 0 <= k < |s.immediates| && s.immediates[k].cortex == c
  }

  ghost predicate BeingDrained(s: State, r: Row) {
    exists j :: 0 <= j < |s.jobs| && s.jobs[j].status.Running? && r in s.jobs[j].status.read
  }

  /** A wake-up that will read the row, or the drain that has read it, is still to come. */
  ghost predicate Covered(s: State, r: Row) {
    || StateOf(s, r.cortex).timer.Some?
    || HandedOff(s, r.cortex)
    || AwaitsLock(s, r.cortex)
    || BeingDrained(s, r)
  }

  ghost predicate RowsCovered(s: State) {
    && s.stranded <= s.outbox
    && (forall r :: r in s.outbox ==> r.id < s.nextRow)
    && (forall r :: r in s.outbox ==> r in s.stranded || Covered(s, r))
  }

  ghost predicate Inv(s: State) {
    TimersArmed(s) && CountsKept(s) && Fifo(s) && RowsCovered(s)
  }

  // ----- each turn keeps them -----

  lemma {:induction false} HandedByConcat(a: seq<Handoff>, b: seq<Handoff>, c: Cortex)
    ensures HandedBy(a + b, c) == HandedBy(a, c) + HandedBy(b, c)
  {
    if a == [] {
      assert a + b == b;
    } else {
      HandedByConcat(a[1..], b, c);
      assert (a + b)[1..] == a[1..] + b;
    }
  }

  lemma NotifyKeepsCounts(s: State, c: Cortex, skipPush: bool)
    requires CountsKept(s)
    ensures CountsKept(DoNotify(s, c, skipPush))
  {
    var s' := DoNotify(s, c, skipPush);
    assert s'.notified[..|s'.notified|-1] == s.notified;
    forall d ensures Notifications(s'.notified, d) == StateOf(s', d).pendingCount + HandedBy(Handoffs(s'), d) {
      assert Notifications(s.notified, d) == StateOf(s, d).pendingCount + HandedBy(Handoffs(s), d);
      assert Handoffs(s') == Handoffs(s);
    }
  }

  lemma FireKeepsCounts(s: State, c: Cortex)
    requires CountsKept(s)
    ensures CountsKept(DoFire(s, c))
  {
    var s', st := DoFire(s, c), StateOf(s, c);
    if st.timer.Some? {
      var h := Handoff(c, st.pendingCount, st.timer.value);
      assert Handoffs(s') == Handoffs(s) + [h];
      forall d ensures Notifications(s'.notified, d) == StateOf(s', d).pendingCount + HandedBy(Handoffs(s'), d) {
        CountMoves(s, s', c, h, d);
      }
    }
  }

  /** A pending count that becomes a hand-off is counted once, as before. */
  lemma CountMoves(s: State, s': State, c: Cortex, h: Handoff, d: Cortex)
    requires CountsKept(s) && h.cortex == c && h.count == StateOf(s, c).pendingCount
    requires s'.notified == s.notified && Handoffs(s') == Handoffs(s) + [h]
    requires StateOf(s', d) == if d == c then CortexState(None, 0) else StateOf(s, d)
    ensures Notifications(s'.notified, d) == StateOf(s', d).pendingCount + HandedBy(Handoffs(s'), d)
  {
    assert Notifications(s.notified, d) == StateOf(s, d).pendingCount + HandedBy(Handoffs(s), d);
    HandedByConcat(Handoffs(s), [h], d);
    HandedByOne(h, d);
  }

  lemma HandedByOne(h: Handoff, d: Cortex)
    ensures HandedBy([h], d) == if h.cortex == d then h.count else 0
  {
  }

  lemma ImmediateKeepsCounts(s: State)
    requires CountsKept(s)
    ensures CountsKept(DoImmediate(s))
  {
    var s' := DoImmediate(s);
    if s.immediates != [] {
      assert Handoffs(s') == Handoffs(s);
      forall d ensures Notifications(s'.notified, d) == StateOf(s', d).pendingCount + HandedBy(Handoffs(s'), d) {
        assert Notifications(s.notified, d) == StateOf(s, d).pendingCount + HandedBy(Handoffs(s), d);
      }
    }
  }

  lemma FlushKeepsCounts(s: State, c: Cortex, skipPush: bool)
    requires CountsKept(s)
    ensures CountsKept(DoFlush(s, c, skipPush))
  {
    var s' := DoFlush(s, c, skipPush);
    var h := Handoff(c, StateOf(s, c).pendingCount, skipPush);
    assert JobHandoffs(s'.jobs) == JobHandoffs(s.jobs) + [h];
    forall d ensures Notifications(s'.notified, d) == StateOf(s', d).pendingCount + HandedBy(Handoffs(s'), d) {
      assert Notifications(s.notified, d) == StateOf(s, d).pendingCount + HandedBy(Handoffs(s), d);
      HandedByConcat(JobHandoffs(s.jobs) + [h], s.immediates, d);
      HandedByConcat(JobHandoffs(s.jobs), [h], d);
      HandedByConcat(JobHandoffs(s.jobs), s.immediates, d);
    }
  }

  lemma StatusKeepsCounts(s: State, s': State)
    requires CountsKept(s)
    requires s'.states == s.states && s'.immediates == s.immediates && s'.notified == s.notified
    requires JobHandoffs(s'.jobs) == JobHandoffs(s.jobs)
    ensures CountsKept(s')
  {
    forall c ensures Notifications(s'.notified, c) == StateOf(s', c).pendingCount + HandedBy(Handoffs(s'), c) {
      assert Notifications(s.notified, c) == StateOf(s, c).pendingCount + HandedBy(Handoffs(s), c);
    }
  }

  lemma ActKeepsCounts(s: State, a: Action)
    requires CountsKept(s)
    ensures CountsKept(Act(s, a))
  {
    match a {
      case Write(c, skipPush) =>
        var s1 := s.(outbox := s.outbox + {Row(c, s.nextRow)}, nextRow := s.nextRow + 1);
        StatusKeepsCounts(s, s1);
        NotifyKeepsCounts(s1, c, skipPush);
      case Notify(c, skipPush) => NotifyKeepsCounts(s, c, skipPush);
      case Fire(c) => FireKeepsCounts(s, c);
      case RunImmediate => ImmediateKeepsCounts(s);
      case Flush(c, skipPush) => FlushKeepsCounts(s, c, skipPush);
      case Begin(j) =>
        assert JobHandoffs(DoBegin(s, j).jobs) == JobHandoffs(s.jobs);
        StatusKeepsCounts(s, DoBegin(s, j));
      case End(j, removed) =>
        assert JobHandoffs(DoEnd(s, j, removed).jobs) == JobHandoffs(s.jobs);
        StatusKeepsCounts(s, DoEnd(s, j, removed));
      case Crash =>
    }
  }

  lemma NotifyKeepsTimers(s: State, c: Cortex, skipPush: bool)
    requires TimersArmed(s)
    ensures TimersArmed(DoNotify(s, c, skipPush))
  {
    assert (s.notified + [(c, skipPush)])[..|s.notified + [(c, skipPush)]|-1] == s.notified;
  }

  lemma ActKeepsTimers(s: State, a: Action)
    requires TimersArmed(s)
    ensures TimersArmed(Act(s, a))
  {
    match a {
      case Write(c, skipPush) =>
        NotifyKeepsTimers(s.(outbox := s.outbox + {Row(c, s.nextRow)}, nextRow := s.nextRow + 1), c, skipPush);
      case Notify(c, skipPush) => NotifyKeepsTimers(s, c, skipPush);
      case _ =>
    }
  }

  lemma ActKeepsFifo(s: State, a: Action)
    requires Fifo(s)
    ensures Fifo(Act(s, a))
  {
  }

  lemma NotifyCovers(s: State, c: Cortex, skipPush: bool)
    requires forall r :: r in s.outbox ==> r.cortex == c || r in s.stranded || Covered(s, r)
    requires s.stranded <= s.outbox && forall r :: r in s.outbox ==> r.id < s.nextRow
    ensures RowsCovered(DoNotify(s, c, skipPush))
  {
    var s' := DoNotify(s, c, skipPush);
    forall r | r in s'.outbox ensures r in s'.stranded || Covered(s', r) {
      if r.cortex != c && r !in s.stranded { MoreCovered(s, s', r); }
    }
  }

  /** Coverage survives a turn that takes none of the wake-ups of the row away. */
  lemma MoreCovered(s: State, s': State, r: Row)
    requires Covered(s, r)
    requires StateOf(s, r.cortex).timer.Some? ==> StateOf(s', r.cortex).timer.Some?
    requires s'.immediates == s.immediates && s.jobs <= s'.jobs
    ensures Covered(s', r)
  {
    if HandedOff(s, r.cortex) {
      var k :| 0 <= k < |s.immediates| && s.immediates[k].cortex == r.cortex;
      assert s'.immediates[k].cortex == r.cortex;
    }
    if AwaitsLock(s, r.cortex) {
      var j :| 0 <= j < |s.jobs| && s.jobs[j].status.Waiting? && s.jobs[j].handoff.cortex == r.cortex;
      assert s'.jobs[j] == s.jobs[j];
    }
    if BeingDrained(s, r) {
      var j :| 0 <= j < |s.jobs| && s.jobs[j].status.Running? && r in s.jobs[j].status.read;
      assert s'.jobs[j] == s.jobs[j];
    }
  }

  lemma FireCovers(s: State, c: Cortex)
    requires RowsCovered(s)
    ensures RowsCovered(DoFire(s, c))
  {
    var s' := DoFire(s, c);
    if StateOf(s, c).timer.Some? {
      forall r | r in s'.outbox ensures r in s'.stranded || Covered(s', r) {
        if r.cortex == c {
          assert s'.immediates[|s.immediates|].cortex == c;
        } else if HandedOff(s, r.cortex) {
          var k :| 0 <= k < |s.immediates| && s.immediates[k].cortex == r.cortex;
          assert s'.immediates[k].cortex == r.cortex;
        } else if r !in s.stranded {
          assert Covered(s, r);
          MoreCovered(s, s'.(immediates := s.immediates), r);
        }
      }
    }
  }

  lemma AcquireCovers(s: State, s': State, h: Handoff)
    requires RowsCovered(s)
    requires s'.jobs == s.jobs + [Job(h, s.executeLock, Waiting)] && s'.outbox == s.outbox && s'.nextRow == s.nextRow
    requires s'.stranded <= s.stranded && forall r :: r in s.stranded - s'.stranded ==> r.cortex == h.cortex
    requires forall c :: c != h.cortex ==> StateOf(s', c) == StateOf(s, c)
    requires forall k :: 0 <= k < |s.immediates| && s.immediates[k].cortex != h.cortex ==>
      HandedOff(s', s.immediates[k].cortex)
    ensures RowsCovered(s')
  {
    forall r | r in s'.outbox ensures r in s'.stranded || Covered(s', r) {
      if r.cortex == h.cortex {
        assert s'.jobs[|s.jobs|].status.Waiting?;
      } else if HandedOff(s, r.cortex) {
        var k :| 0 <= k < |s.immediates| && s.immediates[k].cortex == r.cortex;
      } else if r !in s.stranded {
        assert Covered(s, r);
        MoreCovered(s, s'.(immediates := s.immediates), r);
      }
    }
  }

  lemma BeginCovers(s: State, j: nat)
    requires RowsCovered(s)
    ensures RowsCovered(DoBegin(s, j))
  {
    if MayBegin(s, j) {
      var s' := DoBegin(s, j);
      forall r | r in s'.outbox ensures r in s'.stranded || Covered(s', r) {
        if r.cortex == s.jobs[j].handoff.cortex {
          assert s'.jobs[j].status.Running? && r in s'.jobs[j].status.read;
        } else if r !in s.stranded {
          JobChangeCovers(s, s', j, r);
        }
      }
    }
  }

  /** A change of one job that is not the row's leaves the row covered. */
  lemma JobChangeCovers(s: State, s': State, j: nat, r: Row)
    requires Covered(s, r) && j < |s.jobs| && |s'.jobs| == |s.jobs|
    requires s'.states == s.states && s'.immediates == s.immediates
    requires forall k :: 0 <= k < |s.jobs| && k != j ==> s'.jobs[k] == s.jobs[k]
    requires s.jobs[j].status.Waiting? ==> s.jobs[j].handoff.cortex != r.cortex
    requires s.jobs[j].status.Running? ==> r !in s.jobs[j].status.read
    ensures Covered(s', r)
  {
    if HandedOff(s, r.cortex) {
      var k :| 0 <= k < |s.immediates| && s.immediates[k].cortex == r.cortex;
      assert s'.immediates[k].cortex == r.cortex;
    }
    if AwaitsLock(s, r.cortex) {
      var k :| 0 <= k < |s.jobs| && s.jobs[k].status.Waiting? && s.jobs[k].handoff.cortex == r.cortex;
      assert s'.jobs[k] == s.jobs[k];
    }
    if BeingDrained(s, r) {
      var k :| 0 <= k < |s.jobs| && s.jobs[k].status.Running? && r in s.jobs[k].status.read;
      assert s'.jobs[k] == s.jobs[k];
    }
  }

  lemma EndCovers(s: State, j: nat, removed: bool)
    requires RowsCovered(s)
    ensures RowsCovered(DoEnd(s, j, removed))
  {
    if j < |s.jobs| && s.jobs[j].status.Running? {
      var s' := DoEnd(s, j, removed);
      forall r | r in s'.outbox ensures r in s'.stranded || Covered(s', r) {
        if r !in s.jobs[j].status.read && r !in s.stranded { JobChangeCovers(s, s', j, r); }
      }
    }
  }

  lemma ActCovers(s: State, a: Action)
    requires RowsCovered(s)
    ensures RowsCovered(Act(s, a))
  {
    match a {
      case Write(c, skipPush) =>
        var s1 := s.(outbox := s.outbox + {Row(c, s.nextRow)}, nextRow := s.nextRow + 1);
        forall r | r in s1.outbox ensures r.cortex == c || r in s1.stranded || Covered(s1, r) {
          if r.cortex != c && r !in s.stranded { MoreCovered(s, s1, r); }
        }
        NotifyCovers(s1, c, skipPush);
      case Notify(c, skipPush) => NotifyCovers(s, c, skipPush);
      case Fire(c) => FireCovers(s, c);
      case RunImmediate =>
        if s.immediates != [] {
          forall k | 0 <= k < |s.immediates| && s.immediates[k].cortex != s.immediates[0].cortex
            ensures HandedOff(DoImmediate(s), s.immediates[k].cortex)
          {
            assert DoImmediate(s).immediates[k-1] == s.immediates[k];
          }
          AcquireCovers(s, DoImmediate(s), s.immediates[0]);
        }
      case Flush(c, skipPush) =>
        forall k | 0 <= k < |s.immediates| ensures HandedOff(DoFlush(s, c, skipPush), s.immediates[k].cortex) {
          assert DoFlush(s, c, skipPush).immediates[k] == s.immediates[k];
        }
        AcquireCovers(s, DoFlush(s, c, skipPush), Handoff(c, StateOf(s, c).pendingCount, skipPush));
      case Begin(j) => BeginCovers(s, j);
      case End(j, removed) => EndCovers(s, j, removed);
      case Crash =>
    }
  }

  lemma ActKeeps(s: State, a: Action)
    requires Inv(s)
    ensures Inv(Act(s, a))
  {
    ActKeepsTimers(s, a);
    ActKeepsCounts(s, a);
    ActKeepsFifo(s, a);
    ActCovers(s, a);
  }

  /** Every reachable state: counts conserved, a timer iff a count, first come first drained, and
      every row covered or stranded. */
  lemma {:induction false} RunKeeps(s: State, es: seq<Action>)
    requires Inv(s)
    ensures Inv(Run(s, es))
  {
    if es != [] {
      RunKeeps(s, es[..|es|-1]);
      ActKeeps(Run(s, es[..|es|-1]), es[|es|-1]);
    }
  }

  lemma BootInv()
    ensures Inv(BOOT)
  {
  }

  // ----- what follows -----

  lemma FifoMeans(s: State, i: nat, j: nat)
    requires Fifo(s)
    ensures i < |s.jobs| && j < |s.jobs| && s.jobs[i].status.Running? && s.jobs[j].status.Running? ==> i == j
    ensures MayBegin(s, j) <==> j == |s.begun| && j < |s.jobs| && (j == 0 || s.jobs[j-1].status.Finished?)
  {
  }

  /** In every reachable state at most one drain body is running, and the next to begin is the one
      that asked first among those still waiting, as soon as the one before it has ended, however
      that ended. */
  lemma FifoMutualExclusion(es: seq<Action>, i: nat, j: nat)
    ensures var s := Run(BOOT, es);
      && (i < |s.jobs| && j < |s.jobs| && s.jobs[i].status.Running? && s.jobs[j].status.Running? ==> i == j)
      && (MayBegin(s, j) <==>
            j == |s.begun| && j < |s.jobs| && (j == 0 || s.jobs[j-1].status.Finished?))
  {
    BootInv();
    RunKeeps(BOOT, es);
    FifoMeans(Run(BOOT, es), i, j);
  }

  /** The lock never jams: while a drain waits, one is running or one may begin. */
  lemma LockNeverJams(es: seq<Action>, j: nat)
    requires j < |Run(BOOT, es).jobs| && Run(BOOT, es).jobs[j].status.Waiting?
    ensures var s := Run(BOOT, es);
      exists k: nat :: k < |s.jobs| && (s.jobs[k].status.Running? || MayBegin(s, k))
  {
    BootInv();
    RunKeeps(BOOT, es);
    var s := Run(BOOT, es);
    var k := |s.begun|;
    if 0 < k && s.jobs[k-1].status.Running? {
      assert s.jobs[k-1].status.Running?;
    } else {
      assert MayBegin(s, k);
    }
  }

  predicate DrainsSucceed(es: seq<Action>) {
    forall e :: e in es ==> !e.Crash? && !(e.End? && !e.removed)
  }

  /** Nothing is armed, handed over, waiting or running. */
  ghost predicate Quiet(s: State) {
    && (forall c :: c in s.states ==> s.states[c].timer.None?)
    && s.immediates == []
    && (forall j :: 0 <= j < |s.jobs| ==> s.jobs[j].status.Finished?)
  }

  lemma {:induction false} NoNewStranded(s: State, es: seq<Action>)
    requires DrainsSucceed(es)
    ensures Run(s, es).stranded <= s.stranded
  {
    if es != [] {
      NoNewStranded(s, es[..|es|-1]);
      assert es[|es|-1] in es;
    }
  }

  lemma QuietRowsAreStranded(s: State)
    requires Inv(s) && Quiet(s)
    ensures s.outbox == s.stranded
  {
    forall r | r in s.outbox ensures r in s.stranded {
      assert !Covered(s, r);
    }
  }

  /** No lost wake-up: from any reachable state, one notification of a cortex is enough.  Once
      drains stop failing and everything is quiet, none of its rows is left in the outbox. */
  lemma OneNotifyIsEnough(es: seq<Action>, c: Cortex, skipPush: bool, more: seq<Action>)
    requires DrainsSucceed(more)
    requires Quiet(Run(Act(Run(BOOT, es), Notify(c, skipPush)), more))
    ensures RowsOf(Run(Act(Run(BOOT, es), Notify(c, skipPush)), more).outbox, c) == {}
  {
    BootInv();
    RunKeeps(BOOT, es);
    var s := Act(Run(BOOT, es), Notify(c, skipPush));
    ActKeeps(Run(BOOT, es), Notify(c, skipPush));
    RunKeeps(s, more);
    NoNewStranded(s, more);
    QuietRowsAreStranded(Run(s, more));
  }

  /** Without failures and crashes, a quiet daemon has an empty outbox. */
  lemma QuietMeansDrained(es: seq<Action>)
    requires DrainsSucceed(es) && Quiet(Run(BOOT, es))
    ensures Run(BOOT, es).outbox == {}
  {
    BootInv();
    RunKeeps(BOOT, es);
    NoNewStranded(BOOT, es);
    QuietRowsAreStranded(Run(BOOT, es));
  }

  // ----- quiet is reached -----

  function Armed(s: State): set<Cortex> {
    set c | c in s.states && s.states[c].timer.Some?
  }

  function Left(status: Status): nat {
    match status
    case Waiting => 2
    case Running(_) => 1
    case Finished => 0
  }

  function JobsLeft(jobs: seq<Job>): nat {
    if jobs == [] then 0 else JobsLeft(jobs[..|jobs|-1]) + Left(jobs[|jobs|-1].status)
  }

  /** The turns still to come when nothing new does: elapsing, handing over, beginning and ending. */
  function TurnsLeft(s: State): nat {
    4 * |Armed(s)| + 3 * |s.immediates| + JobsLeft(s.jobs)
  }

  /** A turn that the event loop has pending. */
  predicate Pending(s: State, a: Action) {
    match a
    case Fire(c) => c in Armed(s)
    case RunImmediate => s.immediates != []
    case Begin(j) => MayBegin(s, j)
    case End(j, _) => j < |s.jobs| && s.jobs[j].status.Running?
    case _ => false
  }

  lemma {:induction false} JobsLeftUpdated(jobs: seq<Job>, j: nat, job: Job)
    requires j < |jobs|
    ensures JobsLeft(jobs[j := job]) + Left(jobs[j].status) == JobsLeft(jobs) + Left(job.status)
  {
    var n := |jobs| - 1;
    if j == n {
      assert jobs[j := job][..n] == jobs[..n];
    } else {
      assert jobs[j := job][..n] == jobs[..n][j := job];
      JobsLeftUpdated(jobs[..n], j, job);
    }
  }

  lemma FireIsOneTurn(s: State, c: Cortex)
    requires c in Armed(s)
    ensures TurnsLeft(DoFire(s, c)) == TurnsLeft(s) - 1
  {
    assert Armed(DoFire(s, c)) == Armed(s) - {c};
  }

  lemma ImmediateIsOneTurn(s: State)
    requires s.immediates != []
    ensures TurnsLeft(DoImmediate(s)) == TurnsLeft(s) - 1
  {
    var s' := DoImmediate(s);
    assert Armed(s') == Armed(s);
    assert s'.jobs[..|s.jobs|] == s.jobs;
  }

  /** Every pending turn leaves one turn less. */
  lemma PendingTurnCounts(s: State, a: Action)
    requires Pending(s, a)
    ensures TurnsLeft(Act(s, a)) == TurnsLeft(s) - 1
  {
    match a {
      case Fire(c) => FireIsOneTurn(s, c);
      case RunImmediate => ImmediateIsOneTurn(s);
      case Begin(j) =>
        JobsLeftUpdated(s.jobs, j, DoBegin(s, j).jobs[j]);
        assert Armed(DoBegin(s, j)) == Armed(s);
      case End(j, removed) =>
        JobsLeftUpdated(s.jobs, j, s.jobs[j].(status := Finished));
        assert Armed(DoEnd(s, j, removed)) == Armed(s);
    }
  }

  /** While anything is left to do, a turn is pending. */
  lemma NotQuietIsPending(s: State) returns (a: Action)
    requires Inv(s) && !Quiet(s)
    ensures Pending(s, a) && !(a.End? && !a.removed)
  {
    if c :| c in s.states && s.states[c].timer.Some? {
      a := Action.Fire(c);
    } else if s.immediates != [] {
      a := RunImmediate;
    } else {
      var j :| 0 <= j < |s.jobs| && !s.jobs[j].status.Finished?;
      if s.jobs[j].status.Running? {
        a := Action.End(j, true);
      } else {
        var k := |s.begun|;
        if 0 < k && s.jobs[k-1].status.Running? { a := Action.End(k - 1, true); }
        else { a := Action.Begin(k); }
      }
    }
  }

  /** The run consists of pending turns alone: nobody writes, notifies or flushes. */
  ghost predicate OnlyPending(s: State, es: seq<Action>) {
    forall k :: 0 <= k < |es| ==> Pending(Run(s, es[..k]), es[k])
  }

  lemma {:induction false} TurnsRunOut(s: State, es: seq<Action>)
    requires OnlyPending(s, es)
    ensures TurnsLeft(Run(s, es)) + |es| == TurnsLeft(s)
  {
    if es != [] {
      var n := |es| - 1;
      forall k | 0 <= k < n ensures Pending(Run(s, es[..n][..k]), es[..n][k]) {
        assert es[..n][..k] == es[..k] && Pending(Run(s, es[..k]), es[k]);
      }
      TurnsRunOut(s, es[..n]);
      PendingTurnCounts(Run(s, es[..n]), es[n]);
    }
  }

  lemma {:induction false} NothingLeftIsFinished(jobs: seq<Job>)
    ensures JobsLeft(jobs) == 0 <==> forall j :: 0 <= j < |jobs| ==> jobs[j].status.Finished?
  {
    if jobs != [] {
      NothingLeftIsFinished(jobs[..|jobs|-1]);
      assert forall j :: 0 <= j < |jobs| - 1 ==> jobs[..|jobs|-1][j] == jobs[j];
    }
  }

  lemma QuietHasNoTurns(s: State)
    ensures Quiet(s) <==> TurnsLeft(s) == 0
  {
    NothingLeftIsFinished(s.jobs);
    assert Armed(s) == {} <==> forall c :: c in s.states ==> s.states[c].timer.None? by {
      forall c ensures c in Armed(s) <==> c in s.states && s.states[c].timer.Some? {}
    }
  }

  /** Without new notifications quiet is reached: from any reachable state a run of pending turns ends
      within the turns left, it is quiet exactly when it has made them all, and until then another turn
      is pending. */
  lemma QuietIsReached(es: seq<Action>, turns: seq<Action>)
    requires OnlyPending(Run(BOOT, es), turns)
    ensures var s := Run(Run(BOOT, es), turns);
      && |turns| <= TurnsLeft(Run(BOOT, es))
      && (Quiet(s) <==> |turns| == TurnsLeft(Run(BOOT, es)))
      && (Quiet(s) <==> !exists a :: Pending(s, a))
  {
    BootInv();
    RunKeeps(BOOT, es);
    var s := Run(Run(BOOT, es), turns);
    RunKeeps(Run(BOOT, es), turns);
    TurnsRunOut(Run(BOOT, es), turns);
    QuietHasNoTurns(s);
    if Quiet(s) {
      forall a ensures !Pending(s, a) {
        if Pending(s, a) { PendingTurnCounts(s, a); }
      }
    } else {
      var a := NotQuietIsPending(s);
    }
  }

  /** So one notification, followed by pending turns until there are none, with drains that succeed, gets
      a cortex drained. */
  lemma OneNotifyDrains(es: seq<Action>, c: Cortex, skipPush: bool, turns: seq<Action>)
    requires DrainsSucceed(turns)
    requires OnlyPending(Act(Run(BOOT, es), Notify(c, skipPush)), turns)
    requires |turns| == TurnsLeft(Act(Run(BOOT, es), Notify(c, skipPush)))
    ensures RowsOf(Run(Act(Run(BOOT, es), Notify(c, skipPush)), turns).outbox, c) == {}
  {
    var after := es + [Notify(c, skipPush)];
    assert after[..|es|] == es;
    QuietIsReached(after, turns);
    OneNotifyIsEnough(es, c, skipPush, turns);
  }

  /** The body of a drain that ends is followed by its successor's, if any. */
  lemma EndLetsNext(s: State, j: nat, removed: bool)
    requires Fifo(s) && j < |s.jobs| && s.jobs[j].status.Running?
    ensures forall k: nat :: MayBegin(DoEnd(s, j, removed), k) ==> k == j + 1
  {
  }
}
