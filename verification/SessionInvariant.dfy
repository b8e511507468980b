/**
 The invariant of a persistent session.

 What the pump still has to do is either the rest of one event's work, which at most ends with
 the completion of a turn, or what is left of terminating. What has been sent and what is about
 to be is exactly what the decoded events stand for. A terminal event lacks its result exactly
 while its completion is still to do. The events gathered for the open turn are the tail of what
 was decoded; the results built so far are disjoint blocks of it; and an event in none of them
 was decoded outside any turn or belongs to the turn still open. Every critical section of every
 goroutine keeps all of this, which is what the theorems about sessions rest on.
 */
module SessionInvariant {
  import opened Prelude
  import opened SessionMachine

  // ----- the stream as a function of what was decoded ----------------------

  /** The stream events still in the pump's hands. */
  function Emits(todo: seq<Micro>): seq<StreamEvent> {
    if todo == [] then []
    else (if todo[0].Emit? then [todo[0].ev] else []) + Emits(todo[1..])
  }

  /** The stream one log entry stands for. */
  function RenderEntry(e: Entry): seq<StreamEvent> {
    (if e.unsolicited then [TurnStart] else [])
    + Outputs(e.ev)
    + (if e.result.Some? then [TurnComplete(e.result.value)] else [])
  }

  function Render(log: seq<Entry>): seq<StreamEvent> {
    if log == [] then [] else Render(log[..|log| - 1]) + RenderEntry(log[|log| - 1])
  }

  function Events(log: seq<Entry>): seq<Event> {
    seq(|log|, i requires 0 <= i < |log| => log[i].ev)
  }

  lemma {:induction false} EmitsConcat(a: seq<Micro>, b: seq<Micro>)
    ensures Emits(a + b) == Emits(a) + Emits(b)
  {
    if a == [] {
      assert a + b == b;
    } else {
      var head: seq<StreamEvent> := if a[0].Emit? then [a[0].ev] else [];
      assert (a + b)[0] == a[0] && (a + b)[1..] == a[1..] + b;
      EmitsConcat(a[1..], b);
      assert Emits(a) == head + Emits(a[1..]);
      assert Emits(a + b) == head + Emits((a + b)[1..]);
    }
  }

  lemma {:induction false} EmitsEmitAll(evs: seq<StreamEvent>)
    ensures Emits(EmitAll(evs)) == evs
  {
    if evs != [] {
      assert EmitAll(evs)[1..] == EmitAll(evs[1..]);
      EmitsEmitAll(evs[1..]);
      assert evs == [evs[0]] + evs[1..];
    }
  }

  lemma EmitsWork(ev: Event)
    ensures Emits(Work(ev)) == Outputs(ev)
    ensures Terminal(ev) ==> Outputs(ev) == []
  {
    EmitsEmitAll(Outputs(ev));
    if ev.kind.Control? && ev.kind.parsed.Some? {
      var req := ev.kind.parsed.value;
      EmitsConcat(if req.id == "" then [] else [Stash(req)], EmitAll(Outputs(ev)));
    }
  }

  // ----- invariants --------------------------------------------------------

  /** `terminate` in order: state, final event, channel close, context cancel. */
  function Shutdown(reason: string, k: int): Micro {
    if k == 0 then Die else if k == 1 then Emit(Ended(reason)) else if k == 2 then Shut else Cancel
  }

  ghost predicate Awaiting(w: World) {
    w.todo != [] && w.todo[|w.todo| - 1].Finish?
  }

  ghost predicate Pumping(w: World) {
    && !w.closed && !w.cancelled && !w.s.life.Terminated?
    && forall i :: 0 <= i < |w.todo| ==>
         || w.todo[i].Stash?
         || (w.todo[i].Emit? && !w.todo[i].ev.Ended?)
         || (w.todo[i].Finish? && i == |w.todo| - 1)
  }

  /** How far `terminate` has come, told by how much of it is left. */
  ghost predicate Finalizing(w: World) {
    && |w.todo| <= 4
    && (forall k :: 0 <= k < |w.todo| ==> w.todo[k] == Shutdown(w.reason, 4 - |w.todo| + k))
    && (w.s.life.Terminated? <==> |w.todo| <= 3)
    && (w.closed <==> |w.todo| <= 1)
    && (w.cancelled <==> |w.todo| == 0)
  }

  ghost predicate Phase(w: World) {
    if w.ended then Finalizing(w) else Pumping(w)
  }

  /** Every event produced so far, whether read, queued or still in the pump's hands. */
  function Produced(w: World): seq<StreamEvent> {
    w.sent + Emits(w.todo)
  }

  /** Lossless and in order: what was sent plus what is about to be is what was decoded. */
  ghost predicate Faithful(w: World) {
    Produced(w) == if w.ended then Render(w.log) + [Ended(w.reason)] else Render(w.log)
  }

  /** A terminal event lacks its result exactly while its completion is still to do. */
  ghost predicate Completing(w: World) {
    && (forall i :: 0 <= i < |w.log| ==> (w.log[i].result.Some? ==> Terminal(w.log[i].ev)))
    && (forall i :: 0 <= i < |w.log| && Terminal(w.log[i].ev) && w.log[i].result.None? ==>
         i == |w.log| - 1 && Awaiting(w))
    && (Awaiting(w) ==> |w.log| > 0 && Terminal(w.log[|w.log| - 1].ev) && w.log[|w.log| - 1].result.None?)
  }

  /** Where the events of the open turn begin, and whose they are. */
  ghost predicate Tracking(w: World) {
    && w.from <= |w.log|
    && w.s.turnEvents == Events(w.log)[w.from..]
    && (w.turn.Some? ==> w.turn.value == w.from)
    && (w.s.life.Running? ==> w.turn.Some?)
    && (w.s.life.Idle? ==> w.turn.None?)
  }

  ghost predicate Closed(w: World, i: int) {
    0 <= i < |w.log| && w.log[i].result.Some?
  }

  /** Every result is one block of the decoder stream, after every earlier one. */
  ghost predicate Blocks(w: World) {
    && (forall i :: Closed(w, i) ==>
         && w.log[i].from <= i + 1 <= w.from
         && w.log[i].result.value.events == Events(w.log)[w.log[i].from..i + 1]
         && (w.log[i].turn.Some? ==> w.log[i].turn.value == w.log[i].from))
    && (forall i, j :: Closed(w, i) && Closed(w, j) && i < j ==> i + 1 <= w.log[j].from)
  }

  ghost predicate InSomeResult(w: World, k: int) {
    exists i :: Closed(w, i) && w.log[i].from <= k <= i
  }

  /** A decoded event that ended up in no result was decoded outside any turn, or is in the open one. */
  ghost predicate Accounted(w: World) {
    forall k :: 0 <= k < |w.log| && w.log[k].inTurn ==>
      || InSomeResult(w, k)
      || (w.turn.Some? && w.turn.value <= k)
  }

  ghost predicate Inv(w: World) {
    && Phase(w) && Faithful(w) && Completing(w) && Tracking(w) && Blocks(w) && Accounted(w)
    && w.dropped == []
  }

  // ----- every step keeps them ---------------------------------------------

  lemma NeverDrops(w: World)
    requires Phase(w)
    ensures !Enabled(w, Drop)
  {
  }

  lemma FinalizingPump(w: World)
    requires Finalizing(w) && w.todo != []
    ensures Finalizing(ApplyPump(w)) && ApplyPump(w).dropped == w.dropped && ApplyPump(w).ended == w.ended
  {
    assert w.todo[0] == Shutdown(w.reason, 4 - |w.todo|);
  }

  lemma FinalizingStep(w: World, l: Step)
    requires w.ended && Finalizing(w) && Enabled(w, l)
    ensures Apply(w, l).ended && Finalizing(Apply(w, l)) && Apply(w, l).dropped == w.dropped
  {
    if l.Pump? {
      hide Finalizing;
      FinalizingPump(w);
    } else {
      NeverDropsAtEnd(w);
    }
  }

  lemma NeverDropsAtEnd(w: World)
    requires Finalizing(w)
    ensures !Enabled(w, Drop)
  {
  }

  lemma PumpingStep(w: World, l: Step)
    requires !w.ended && Pumping(w) && Enabled(w, l) && !l.DecoderClosed?
    ensures !Apply(w, l).ended && Pumping(Apply(w, l)) && Apply(w, l).dropped == w.dropped
  {
    match l
    case Decode(ev) =>
      assert ApplyDecode(w, ev).todo == (if Unsolicited(w.s, ev) then [Emit(TurnStart)] else []) + Work(ev);
    case Pump =>
      if w.todo[0].Finish? {
        assert |w.todo| == 1;
      }
    case _ =>
  }

  lemma PhaseStep(w: World, l: Step)
    requires Phase(w) && Enabled(w, l)
    ensures Phase(Apply(w, l)) && Apply(w, l).dropped == w.dropped
  {
    if w.ended {
      FinalizingStep(w, l);
    } else if !l.DecoderClosed? {
      PumpingStep(w, l);
    }
  }

  lemma DecodeFaithful(w: World, ev: Event)
    requires Faithful(w) && !w.ended && w.todo == []
    ensures Faithful(ApplyDecode(w, ev))
  {
    ProducedByDecode(w, ev);
    var w' := ApplyDecode(w, ev);
    hide Work, Outputs, Produced;
    var start: seq<StreamEvent> := if Unsolicited(w.s, ev) then [TurnStart] else [];
    assert w'.log[..|w'.log| - 1] == w.log;
    assert RenderEntry(w'.log[|w.log|]) == start + Outputs(ev);
  }

  lemma ProducedByDecode(w: World, ev: Event)
    requires w.todo == []
    ensures Produced(w) == w.sent
    ensures Produced(ApplyDecode(w, ev)) ==
            Produced(w) + ((if Unsolicited(w.s, ev) then [TurnStart] else []) + Outputs(ev))
  {
    hide Work, Outputs;
    var w' := ApplyDecode(w, ev);
    var start: seq<Micro> := if Unsolicited(w.s, ev) then [Emit(TurnStart)] else [];
    EmitsWork(ev);
    EmitsConcat(start, Work(ev));
    assert w'.todo == start + Work(ev);
    assert start != [] ==> start[1..] == [];
    assert Emits(start) == if Unsolicited(w.s, ev) then [TurnStart] else [];
    assert w.sent + [] == w.sent;
  }

  lemma EndFaithful(w: World, reason: string)
    requires Faithful(w) && Enabled(w, DecoderClosed(reason))
    ensures Faithful(Apply(w, DecoderClosed(reason)))
  {
    var tail := [Die, Emit(Ended(reason)), Shut, Cancel];
    assert tail[1..] == [Emit(Ended(reason)), Shut, Cancel];
    assert tail[1..][1..] == [Shut, Cancel];
    assert tail[1..][1..][1..] == [Cancel];
    assert tail[1..][1..][1..][1..] == [];
    assert Emits(tail[1..][1..][1..]) == [];
    assert Emits(tail[1..][1..]) == [];
    assert Emits(tail[1..]) == [Ended(reason)];
    assert Emits(tail) == [Ended(reason)];
    assert w.sent + [] == w.sent;
  }

  /** Short of completing a turn, the pump only moves events along. */
  lemma PumpMovesAlong(w: World)
    requires w.todo != [] && !w.todo[0].Finish?
    ensures Produced(ApplyPump(w)) == Produced(w)
  {
    if w.todo[0].Emit? {
      var ev := w.todo[0].ev;
      assert w.sent + ([ev] + Emits(w.todo[1..])) == w.sent + [ev] + Emits(w.todo[1..]);
    } else {
      assert [] + Emits(w.todo[1..]) == Emits(w.todo[1..]);
    }
  }

  lemma ShutdownCompletesNothing(w: World)
    requires Finalizing(w) && w.todo != []
    ensures !w.todo[0].Finish?
  {
    assert w.todo[0] == Shutdown(w.reason, 4 - |w.todo|);
  }

  lemma FinishIsLast(w: World)
    requires Phase(w) && w.todo != [] && w.todo[0].Finish?
    ensures !w.ended && w.todo == [w.todo[0]] && w.todo[1..] == [] && Awaiting(w)
  {
    if w.ended {
      ShutdownCompletesNothing(w);
    }
  }

  /** Completing a turn adds its TurnComplete to the stream its log entry stands for. */
  lemma FinishFaithful(w: World)
    requires Phase(w) && Faithful(w) && Completing(w) && w.todo != [] && w.todo[0].Finish?
    ensures Faithful(ApplyPump(w))
  {
    var w' := ApplyPump(w);
    var n := |w.log|;
    FinishIsLast(w);
    var e, e' := w.log[n - 1], w'.log[n - 1];
    var done := TurnComplete(e'.result.value);
    assert w.log[..n - 1] == w'.log[..n - 1];
    assert RenderEntry(e') == RenderEntry(e) + [done];
    assert Render(w'.log) == Render(w.log) + [done];
    assert w'.todo == [Emit(done)] && w'.todo[1..] == [];
    assert Emits(w.todo) == [] && Emits(w'.todo) == [done];
    assert w.sent + [] == w.sent;
  }

  lemma FaithfulStep(w: World, l: Step)
    requires Inv(w) && Enabled(w, l)
    ensures Faithful(Apply(w, l))
  {
    NeverDrops(w);
    match l
    case Decode(ev) => DecodeFaithful(w, ev);
    case DecoderClosed(reason) => EndFaithful(w, reason);
    case Pump => if w.todo[0].Finish? { FinishFaithful(w); } else { PumpMovesAlong(w); }
    case _ =>
  }

  ghost predicate Finishes(w: World, l: Step) {
    l.Pump? && w.todo != [] && w.todo[0].Finish?
  }

  /** Only decoding and completing a turn touch the log. */
  lemma LogFrame(w: World, l: Step)
    requires Enabled(w, l) && !l.Decode? && !Finishes(w, l)
    ensures Apply(w, l).log == w.log
    ensures l.Send? && w.s.life.Idle? ==> Apply(w, l).from == |w.log| && Apply(w, l).turn == Some(|w.log|)
    ensures !(l.Send? && w.s.life.Idle?) ==> Apply(w, l).from == w.from && Apply(w, l).turn == w.turn
  {
    match l
    case Pump =>
    case _ =>
  }

  lemma AwaitingFrame(w: World, l: Step)
    requires Phase(w) && Enabled(w, l) && !l.Decode? && !Finishes(w, l)
    ensures Awaiting(Apply(w, l)) == Awaiting(w)
  {
    hide Work;
    NeverDrops(w);
    match l
    case Pump => assert |w.todo| > 1 ==> w.todo[1..][|w.todo| - 2] == w.todo[|w.todo| - 1];
    case _ =>
  }

  lemma AwaitingAfterDecode(w: World, ev: Event)
    ensures Awaiting(ApplyDecode(w, ev)) == Terminal(ev)
  {
    var todo := ApplyDecode(w, ev).todo;
    if !Terminal(ev) && todo != [] {
      assert Work(ev) != [] ==> todo[|todo| - 1] == Work(ev)[|Work(ev)| - 1];
    }
  }

  lemma CompletingStep(w: World, l: Step)
    requires Phase(w) && Completing(w) && Enabled(w, l)
    ensures Completing(Apply(w, l))
  {
    if l.Decode? {
      AwaitingAfterDecode(w, l.ev);
    } else if Finishes(w, l) {
      FinishIsLast(w);
    } else {
      LogFrame(w, l);
      AwaitingFrame(w, l);
    }
  }

  lemma EventsFrame(w: World, l: Step)
    requires Phase(w) && Enabled(w, l)
    ensures Events(Apply(w, l).log) == Events(w.log) + (if l.Decode? then [l.ev] else [])
    ensures |w.log| <= |Apply(w, l).log|
  {
    if !l.Decode? {
      if !Finishes(w, l) {
        LogFrame(w, l);
      }
      assert Events(Apply(w, l).log) == Events(w.log);
    }
  }

  lemma TrackingStep(w: World, l: Step)
    requires Phase(w) && Completing(w) && Tracking(w) && Enabled(w, l)
    ensures Tracking(Apply(w, l))
  {
    hide Work, Phase, Completing;
    EventsFrame(w, l);
    if l.Decode? {
    } else if Finishes(w, l) {
      FinishTracks(w);
    } else {
      LogFrame(w, l);
      TrackingFrame(w, l);
    }
  }

  lemma FinishTracks(w: World)
    requires Phase(w) && Tracking(w) && w.todo != [] && w.todo[0].Finish?
    requires Events(ApplyPump(w).log) == Events(w.log)
    ensures Tracking(ApplyPump(w))
  {
    assert |ApplyPump(w).log| == |Events(ApplyPump(w).log)| && |w.log| == |Events(w.log)|;
  }

  lemma TrackingFrame(w: World, l: Step)
    requires Phase(w) && Tracking(w) && Enabled(w, l) && !l.Decode? && !Finishes(w, l)
    requires Apply(w, l).log == w.log
    ensures Tracking(Apply(w, l))
  {
    NeverDrops(w);
    if l.Send? {
      assert Events(w.log)[|w.log|..] == [];
    } else {
      hide Events;
      match l
      case Pump =>
      case _ =>
    }
  }

  lemma BlocksAfterDecode(w: World, ev: Event)
    requires Tracking(w) && Blocks(w)
    ensures Blocks(ApplyDecode(w, ev))
  {
    var w' := ApplyDecode(w, ev);
    assert Events(w'.log) == Events(w.log) + [ev];
    assert forall i :: Closed(w', i) ==> Closed(w, i) && w'.log[i] == w.log[i];
  }

  lemma BlocksAfterFinish(w: World)
    requires Phase(w) && Completing(w) && Tracking(w) && Blocks(w) && w.todo != [] && w.todo[0].Finish?
    ensures Blocks(ApplyPump(w))
  {
    FinishIsLast(w);
    var w' := ApplyPump(w);
    var n := |w.log|;
    assert Events(w'.log) == Events(w.log);
    assert Events(w.log)[w.from..n] == Events(w.log)[w.from..];
    assert forall i :: Closed(w', i) && i != n - 1 ==> Closed(w, i) && w'.log[i] == w.log[i];
  }

  lemma BlocksStep(w: World, l: Step)
    requires Phase(w) && Completing(w) && Tracking(w) && Blocks(w) && Enabled(w, l)
    ensures Blocks(Apply(w, l))
  {
    hide Work, Phase, Completing;
    if l.Decode? {
      BlocksAfterDecode(w, l.ev);
    } else if Finishes(w, l) {
      BlocksAfterFinish(w);
    } else {
      LogFrame(w, l);
      BlocksFrame(w, Apply(w, l));
    }
  }

  lemma BlocksFrame(w: World, w': World)
    requires Blocks(w) && w'.log == w.log && w.from <= w'.from
    ensures Blocks(w')
  {
    assert forall i :: Closed(w', i) ==> Closed(w, i);
  }

  lemma AccountedAfterFinish(w: World)
    requires Phase(w) && Completing(w) && Tracking(w) && Accounted(w) && w.todo != [] && w.todo[0].Finish?
    ensures Accounted(ApplyPump(w))
  {
    FinishIsLast(w);
    var w' := ApplyPump(w);
    var n := |w.log|;
    assert Closed(w', n - 1);
    forall k | 0 <= k < n && w'.log[k].inTurn
      ensures InSomeResult(w', k)
    {
      assert w.log[k].inTurn;
      if InSomeResult(w, k) {
        var i :| Closed(w, i) && w.log[i].from <= k <= i;
        assert Closed(w', i) && w'.log[i].from <= k <= i;
      }
    }
  }

  lemma AccountedAfterDecode(w: World, ev: Event)
    requires Tracking(w) && Accounted(w)
    ensures Accounted(ApplyDecode(w, ev))
  {
    var w' := ApplyDecode(w, ev);
    forall k | 0 <= k < |w.log| && w'.log[k].inTurn
      ensures InSomeResult(w', k) || (w'.turn.Some? && w'.turn.value <= k)
    {
      assert w.log[k].inTurn;
      if InSomeResult(w, k) {
        var i :| Closed(w, i) && w.log[i].from <= k <= i;
        assert Closed(w', i) && w'.log[i].from <= k <= i;
      }
    }
  }

  lemma AccountedStep(w: World, l: Step)
    requires Phase(w) && Completing(w) && Tracking(w) && Accounted(w) && Enabled(w, l)
    ensures Accounted(Apply(w, l))
  {
    if l.Decode? {
      AccountedAfterDecode(w, l.ev);
    } else if Finishes(w, l) {
      AccountedAfterFinish(w);
    } else {
      LogFrame(w, l);
      forall k | 0 <= k < |w.log| && InSomeResult(w, k)
        ensures InSomeResult(Apply(w, l), k)
      {
        var i :| Closed(w, i) && w.log[i].from <= k <= i;
        assert Closed(Apply(w, l), i);
      }
    }
  }

  lemma StepKeepsInv(w: World, l: Step)
    requires Inv(w) && Enabled(w, l)
    ensures Inv(Apply(w, l))
  {
    PhaseStep(w, l);
    FaithfulStep(w, l);
    CompletingStep(w, l);
    TrackingStep(w, l);
    BlocksStep(w, l);
    AccountedStep(w, l);
  }

  lemma {:induction false} Reachable(ws: seq<World>, ls: seq<Step>, i: nat)
    requires IsRun(ws, ls) && i < |ws|
    ensures Inv(ws[i])
  {
    hide Inv, Apply, Enabled;
    if i == 0 {
      OpenedIsFine();
    } else {
      Reachable(ws, ls, i - 1);
      StepKeepsInv(ws[i - 1], ls[i - 1]);
    }
  }

  ghost predicate Fifo(w: World) {
    && |w.queue| <= |w.sent|
    && w.queue == w.sent[|w.sent| - |w.queue|..]
  }

  lemma OpenedIsFine()
    ensures Inv(OPENED) && Fifo(OPENED)
  {
  }
}
