/**
 What the debouncer hands to drains, told from the calls and timers alone: each hand-off carries the
 number of notifications since the last one was taken, and the `skipPush` of the last of them; a flush
 carries its own.
 */
module Handoffs {
  import opened Wrappers
  import opened Debouncer

  predicate Notifies(e: Action, c: Cortex) {
    (e.Write? || e.Notify?) && e.cortex == c
  }

  /** The pending count of the cortex is taken, or lost with the process. */
  predicate Takes(e: Action, c: Cortex) {
    e.Crash? || ((e.Fire? || e.Flush?) && e.cortex == c)
  }

  /** The notifications of c since they were last taken. */
  function Untaken(es: seq<Action>, c: Cortex): nat {
    if es == [] then 0
    else
      var init, last := es[..|es|-1], es[|es|-1];
      if Takes(last, c) then 0 else Untaken(init, c) + if Notifies(last, c) then 1 else 0
  }

  /** The `skipPush` of the last notification of c, if there ever was one. */
  function LastAsked(es: seq<Action>, c: Cortex): Option<bool> {
    if es == [] then None
    else
      var init, last := es[..|es|-1], es[|es|-1];
      if Notifies(last, c) then Some(last.skipPush) else LastAsked(init, c)
  }

  lemma {:induction false} UntakenWasAsked(es: seq<Action>, c: Cortex)
    ensures Untaken(es, c) > 0 ==> LastAsked(es, c).Some?
  {
    if es != [] { UntakenWasAsked(es[..|es|-1], c); }
  }

  /** What timers have handed over since the process started, in order. */
  function Fired(es: seq<Action>): seq<Handoff> {
    if es == [] then []
    else
      var init, last := es[..|es|-1], es[|es|-1];
      match last
      case Crash => []
      case Fire(c) =>
        UntakenWasAsked(init, c);
        if Untaken(init, c) > 0 then Fired(init) + [Handoff(c, Untaken(init, c), LastAsked(init, c).value)]
        else Fired(init)
      case _ => Fired(init)
  }

  /** How many of them have left the immediate queue. */
  function Dequeued(es: seq<Action>): (n: nat)
    ensures n <= |Fired(es)|
  {
    if es == [] then 0
    else
      var init, last := es[..|es|-1], es[|es|-1];
      match last
      case Crash => 0
      case RunImmediate => if Dequeued(init) < |Fired(init)| then Dequeued(init) + 1 else Dequeued(init)
      case _ => Dequeued(init)
  }

  /** What has asked for the lock since the process started, in order. */
  function Asked(es: seq<Action>): seq<Handoff> {
    if es == [] then []
    else
      var init, last := es[..|es|-1], es[|es|-1];
      match last
      case Crash => []
      case RunImmediate =>
        if Dequeued(init) < |Fired(init)| then Asked(init) + [Fired(init)[Dequeued(init)]] else Asked(init)
      case Flush(c, skipPush) => Asked(init) + [Handoff(c, Untaken(init, c), skipPush)]
      case _ => Asked(init)
  }

  /** The state shows what the calls and timers say. */
  ghost predicate TellsPending(es: seq<Action>, s: State) {
    forall c :: StateOf(s, c) ==
      CortexState(if Untaken(es, c) > 0 then LastAsked(es, c) else None, Untaken(es, c))
  }

  ghost predicate TellsHandoffs(es: seq<Action>, s: State) {
    && s.immediates == Fired(es)[Dequeued(es)..]
    && |s.jobs| == |Asked(es)| && forall j :: 0 <= j < |s.jobs| ==> s.jobs[j].handoff == Asked(es)[j]
  }

  /** In every reachable state the timers, the immediate queue and the drains hold exactly what the
      notifications, timers and flushes of the run so far say: a drain gets the count and the last
      `skipPush` of the burst its timer collected, or those of its flush, in the order they came. */
  lemma {:induction false} HandsOverWhatWasAsked(es: seq<Action>)
    ensures TellsPending(es, Run(BOOT, es)) && TellsHandoffs(es, Run(BOOT, es))
  {
    if es != [] {
      var init, last := es[..|es|-1], es[|es|-1];
      HandsOverWhatWasAsked(init);
      PendingTells(init, last, Run(BOOT, init));
      HandoffsTell(init, last, Run(BOOT, init));
      assert init + [last] == es;
    }
  }

  lemma PendingTells(es: seq<Action>, e: Action, s: State)
    requires TellsPending(es, s)
    ensures TellsPending(es + [e], Act(s, e))
  {
    var es', s' := es + [e], Act(s, e);
    assert es'[..|es'|-1] == es;
    forall c
      ensures StateOf(s', c) ==
        CortexState(if Untaken(es', c) > 0 then LastAsked(es', c) else None, Untaken(es', c))
    {
      assert StateOf(s, c) == CortexState(if Untaken(es, c) > 0 then LastAsked(es, c) else None, Untaken(es, c));
      UntakenWasAsked(es, c);
    }
  }

  lemma HandoffsTell(es: seq<Action>, e: Action, s: State)
    requires TellsPending(es, s) && TellsHandoffs(es, s)
    ensures TellsHandoffs(es + [e], Act(s, e))
  {
    var es' := es + [e];
    assert es'[..|es'|-1] == es;
    if e.Fire? || e.Flush? {
      var c := e.cortex;
      UntakenWasAsked(es, c);
      assert StateOf(s, c) == CortexState(if Untaken(es, c) > 0 then LastAsked(es, c) else None, Untaken(es, c));
    }
  }

  /** Nobody asks to suppress the push. */
  predicate AlwaysPushes(es: seq<Action>) {
    forall e :: e in es && (e.Write? || e.Notify? || e.Flush?) ==> !e.skipPush
  }

  predicate NoneSkips(hs: seq<Handoff>) {
    forall h :: h in hs ==> !h.skipPush
  }

  lemma {:induction false} LastWasAsked(es: seq<Action>, c: Cortex)
    requires AlwaysPushes(es)
    ensures LastAsked(es, c) != Some(true)
  {
    if es != [] {
      assert es[|es|-1] in es;
      LastWasAsked(es[..|es|-1], c);
    }
  }

  lemma {:induction false} PushesWereAsked(es: seq<Action>)
    requires AlwaysPushes(es)
    ensures NoneSkips(Fired(es)) && NoneSkips(Asked(es))
  {
    if es != [] {
      var init, last := es[..|es|-1], es[|es|-1];
      assert last in es;
      PushesWereAsked(init);
      if last.Fire? {
        UntakenWasAsked(init, last.cortex);
        LastWasAsked(init, last.cortex);
      }
    }
  }

  /** So when nobody asks to suppress the push, no drain does. */
  lemma NoSkipUnlessAsked(es: seq<Action>)
    requires AlwaysPushes(es)
    ensures var s := Run(BOOT, es);
      && NoneSkips(s.immediates)
      && forall j :: 0 <= j < |s.jobs| ==> !s.jobs[j].handoff.skipPush
  {
    HandsOverWhatWasAsked(es);
    PushesWereAsked(es);
  }

  // ----- what a drain reads and removes -----

  /** Job j, begun at turn b, read exactly the rows its cortex had queued then. */
  ghost predicate ReadAt(es: seq<Action>, j: nat, b: nat) {
    && b < |es| && es[b] == Begin(j) && j < |Run(BOOT, es).jobs|
    && Run(BOOT, es).jobs[j].status == Running(
         set r | r in Run(BOOT, es[..b]).outbox && r.cortex == Run(BOOT, es).jobs[j].handoff.cortex)
  }

  lemma StillReading(s: State, e: Action, j: nat)
    requires j < |Act(s, e).jobs| && Act(s, e).jobs[j].status.Running? && !(e == Begin(j) && MayBegin(s, j))
    ensures j < |s.jobs| && s.jobs[j] == Act(s, e).jobs[j]
  {
  }

  /** A running drain has read the rows that its cortex had in the outbox when it got the lock, and no
      other row. */
  lemma {:induction false} DrainReadsItsRows(es: seq<Action>, j: nat) returns (b: nat)
    requires j < |Run(BOOT, es).jobs| && Run(BOOT, es).jobs[j].status.Running?
    ensures ReadAt(es, j, b)
  {
    var init, last := es[..|es|-1], es[|es|-1];
    if last == Begin(j) && MayBegin(Run(BOOT, init), j) {
      b := |es| - 1;
    } else {
      StillReading(Run(BOOT, init), last, j);
      b := DrainReadsItsRows(init, j);
      assert es[..b] == init[..b];
    }
  }

  /** A row leaves the outbox only when the drain that read it ends with its rows removed; a drain that
      fails leaves them all, and whatever was queued meanwhile stays. */
  lemma RowLeavesIff(es: seq<Action>, e: Action, r: Row)
    requires r in Run(BOOT, es).outbox
    ensures r !in Run(BOOT, es + [e]).outbox <==>
      && e.End? && e.removed && e.job < |Run(BOOT, es).jobs|
      && Run(BOOT, es).jobs[e.job].status.Running? && r in Run(BOOT, es).jobs[e.job].status.read
  {
    assert (es + [e])[..|es + [e]|-1] == es;
  }

  /** A row enters the outbox only with a write of its cortex, under an id that no row has had. */
  lemma RowEntersIff(es: seq<Action>, e: Action, r: Row)
    requires r !in Run(BOOT, es).outbox
    ensures r in Run(BOOT, es + [e]).outbox <==> e.Write? && r == Row(e.cortex, Run(BOOT, es).nextRow)
    ensures Run(BOOT, es + [e]).nextRow == Run(BOOT, es).nextRow + if e.Write? then 1 else 0
    ensures forall x :: x in Run(BOOT, es).outbox ==> x.id < Run(BOOT, es).nextRow
  {
    BootInv();
    RunKeeps(BOOT, es);
    assert (es + [e])[..|es + [e]|-1] == es;
  }
}
