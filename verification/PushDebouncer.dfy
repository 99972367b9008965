/**
 The debouncer as an object: every method leaves the state its turn of the event loop leaves, and keeps
 the invariants that hold over whole runs.
 */
module PushDebounce {
  import opened Wrappers
  import opened Debouncer

  /** The debouncer's own two fields, and the event loop that holds its callbacks and promises. */
  class PushDebouncer {
    var states: map<Cortex, CortexState>
    var executeLock: nat
    var immediates: seq<Handoff>
    var resolved: set<nat>
    var jobs: seq<Job>
    var outbox: set<Row>
    ghost var nextRow: nat
    ghost var stranded: set<Row>
    ghost var notified: seq<(Cortex, bool)>
    ghost var begun: seq<nat>

    ghost function Contents(): State
      reads this
    {
      State(states, immediates, executeLock, resolved, jobs, outbox, nextRow, stranded, notified, begun)
    }

    constructor ()
      ensures Contents() == BOOT
    {
      states, executeLock, immediates, resolved, jobs := map[], 0, [], {0}, [];
      outbox, nextRow, stranded, notified, begun := {}, 0, {}, [], [];
    }

    method Rearm(c: Cortex, skipPush: bool)
      modifies this
      ensures Contents() == DoNotify(old(Contents()), c, skipPush)
    {
      var state := if c in states then states[c] else CortexState(None, 0);
      state := state.(pendingCount := state.pendingCount + 1);
      if state.timer.Some? { state := state.(timer := None); }
      state := state.(timer := Some(skipPush));
      states := states[c := state];
      stranded := stranded - RowsOf(stranded, c);
      notified := notified + [(c, skipPush)];
    }

    /** Counts the notification and re-arms the timer.  An invalid name is skipped. */
    method Notify(cortex: Option<Cortex>, skipPush: bool)
      requires Inv(Contents())
      modifies this
      ensures Inv(Contents())
      ensures Contents() ==
        if cortex.Some? then DoNotify(old(Contents()), cortex.value, skipPush) else old(Contents())
    {
      if cortex.None? { return; }
      ghost var before := Contents();
      Rearm(cortex.value, skipPush);
      ActKeeps(before, Action.Notify(cortex.value, skipPush));
    }

    /** The timer of a cortex elapses: its count moves to the immediate queue. */
    method Fire(cortex: Cortex)
      requires Inv(Contents())
      modifies this
      ensures Inv(Contents()) && Contents() == DoFire(old(Contents()), cortex)
    {
      ghost var before := Contents();
      if cortex in states && states[cortex].timer.Some? {
        var skipPush := states[cortex].timer.value;
        states := states[cortex := states[cortex].(timer := None)];
        var count := states[cortex].pendingCount;
        states := states[cortex := states[cortex].(pendingCount := 0)];
        immediates := immediates + [Handoff(cortex, count, skipPush)];
        assert states == before.states[cortex := CortexState(None, 0)];
      }
      ActKeeps(before, Action.Fire(cortex));
    }

    /** The part of the lock that runs before its first wait. */
    method AcquireLock(h: Handoff)
      modifies this`jobs, this`executeLock
      ensures Contents() == Acquire(old(Contents()), h)
    {
      var prev := executeLock;
      executeLock := |jobs| + 1;
      jobs := jobs + [Job(h, prev, Waiting)];
    }

    method RunImmediate()
      requires Inv(Contents())
      modifies this
      ensures Inv(Contents()) && Contents() == DoImmediate(old(Contents()))
    {
      ghost var before := Contents();
      if immediates != [] {
        var h := immediates[0];
        immediates := immediates[1..];
        AcquireLock(h);
      }
      ActKeeps(before, Action.RunImmediate);
    }

    method TakeOver(c: Cortex, skipPush: bool)
      modifies this
      ensures Contents() == DoFlush(old(Contents()), c, skipPush)
    {
      ghost var before := Contents();
      var count := 0;
      if c in states {
        if states[c].timer.Some? { states := states[c := states[c].(timer := None)]; }
        count := states[c].pendingCount;
        states := states[c := states[c].(pendingCount := 0)];
        assert states == before.states[c := CortexState(None, 0)];
      }
      stranded := stranded - RowsOf(stranded, c);
      AcquireLock(Handoff(c, count, skipPush));
    }

    /** Takes over the pending count and asks for the lock at once. */
    method Flush(cortex: Option<Cortex>, skipPush: bool)
      requires Inv(Contents())
      modifies this
      ensures Inv(Contents())
      ensures Contents() ==
        if cortex.Some? then DoFlush(old(Contents()), cortex.value, skipPush) else old(Contents())
    {
      if cortex.None? { return; }
      ghost var before := Contents();
      TakeOver(cortex.value, skipPush);
      ActKeeps(before, Action.Flush(cortex.value, skipPush));
    }

    /** A waiting drain whose predecessor's promise is resolved gets the lock. */
    method Begin(j: nat)
      requires Inv(Contents()) && MayBegin(Contents(), j)
      modifies this
      ensures Inv(Contents()) && Contents() == DoBegin(old(Contents()), j)
      ensures forall i :: 0 <= i < |jobs| && jobs[i].status.Running? ==> i == j
    {
      ghost var before := Contents();
      var rows := RowsOf(outbox, jobs[j].handoff.cortex);
      jobs := jobs[j := jobs[j].(status := Running(rows))];
      begun := begun + [j];
      stranded := stranded - rows;
      ActKeeps(before, Action.Begin(j));
    }

    method Settle(j: nat, removed: bool)
      requires j < |jobs| && jobs[j].status.Running?
      modifies this
      ensures Contents() == DoEnd(old(Contents()), j, removed)
    {
      var rows := jobs[j].status.read;
      if removed {
        outbox := outbox - rows;
        stranded := stranded - rows;
      } else {
        stranded := stranded + rows * outbox;
      }
      jobs := jobs[j := jobs[j].(status := Finished)];
      resolved := resolved + {j + 1};
    }

    /** The body returned or threw; its rows are gone if it got to delete them. */
    method End(j: nat, removed: bool)
      requires Inv(Contents()) && j < |jobs| && jobs[j].status.Running?
      modifies this
      ensures Inv(Contents()) && Contents() == DoEnd(old(Contents()), j, removed)
      ensures forall k: nat :: MayBegin(Contents(), k) ==> k == j + 1
    {
      ghost var before := Contents();
      Settle(j, removed);
      ActKeeps(before, Action.End(j, removed));
      EndLetsNext(before, j, removed);
    }
  }
}
