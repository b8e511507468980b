/** What holds of a persistent session in every run. */
module SessionSafety {
  import opened Prelude
  import opened SessionMachine
  import opened SessionInvariant

  // ----- lifecycle ---------------------------------------------------------

  function Rank(life: Life): nat {
    match life
    case Closing => 1
    case Terminated => 2
    case _ => 0
  }

  lemma LifeStep(w: World, l: Step)
    requires Enabled(w, l)
    ensures Rank(w.s.life) <= Rank(Apply(w, l).s.life)
  {
    match l
    case Pump =>
    case _ =>
  }

  /** Idle and Running alternate, but nothing leads back from Closing or Terminated. */
  lemma {:induction false} LifecycleOnlyAdvances(ws: seq<World>, ls: seq<Step>, i: nat, j: nat)
    requires IsRun(ws, ls) && i <= j < |ws|
    ensures Rank(ws[i].s.life) <= Rank(ws[j].s.life)
  {
    if i < j {
      hide Apply, Enabled;
      LifecycleOnlyAdvances(ws, ls, i, j - 1);
      var w, l := ws[j - 1], ls[j - 1];
      LifeStep(w, l);
      assert ws[j] == Apply(w, l);
    }
  }

  /** The pump returning a running session to Idle at step k. */
  ghost predicate CompletesTurn(ws: seq<World>, ls: seq<Step>, k: int) {
    && 0 <= k < |ls| && |ws| == |ls| + 1
    && ls[k].Pump? && ws[k].todo != [] && ws[k].todo[0].Finish?
    && ws[k].s.life.Running?
  }

  ghost predicate SendAccepted(ws: seq<World>, ls: seq<Step>, i: int) {
    && 0 <= i < |ls| && |ws| == |ls| + 1
    && ls[i].Send? && SendVerdict(ws[i].s) == Accepted
  }

  lemma StillBusy(w: World, l: Step)
    requires Enabled(w, l) && !w.s.life.Idle?
    requires !(Finishes(w, l) && w.s.life.Running?)
    ensures !Apply(w, l).s.life.Idle?
  {
    match l
    case Pump =>
    case _ =>
  }

  lemma {:induction false} StaysRunning(ws: seq<World>, ls: seq<Step>, i: nat, j: nat)
    requires IsRun(ws, ls) && i <= j < |ws|
    requires !ws[i].s.life.Idle?
    requires forall k :: i <= k < j ==> !CompletesTurn(ws, ls, k)
    ensures !ws[j].s.life.Idle?
  {
    if i < j {
      StaysRunning(ws, ls, i, j - 1);
      var w, l := ws[j - 1], ls[j - 1];
      assert !CompletesTurn(ws, ls, j - 1);
      StillBusy(w, l);
      assert ws[j] == Apply(w, l);
    }
  }

  /** Between two accepted sends the pump completes a turn: turns never overlap. */
  lemma SendsAreSeparated(ws: seq<World>, ls: seq<Step>, i: nat, j: nat)
    requires IsRun(ws, ls) && i < j
    requires SendAccepted(ws, ls, i) && SendAccepted(ws, ls, j)
    ensures exists k :: i < k < j && CompletesTurn(ws, ls, k)
  {
    if forall k :: i < k < j ==> !CompletesTurn(ws, ls, k) {
      assert ws[i + 1].s.life.Running?;
      StaysRunning(ws, ls, i + 1, j);
      assert false;
    }
  }

  // ----- the stream --------------------------------------------------------

  ghost predicate NoEnd(evs: seq<StreamEvent>) {
    forall i :: 0 <= i < |evs| ==> !evs[i].Ended?
  }

  lemma {:induction false} RenderHasNoEnd(log: seq<Entry>)
    ensures NoEnd(Render(log))
  {
    if log != [] {
      RenderHasNoEnd(log[..|log| - 1]);
      assert NoEnd(RenderEntry(log[|log| - 1]));
    }
  }

  /**
   Nothing is ever dropped, nothing is sent on the closed channel, and once the channel
   is closed it carried exactly what the decoded events stand for, then one Ended.
   */
  lemma StreamIsLossless(ws: seq<World>, ls: seq<Step>, i: nat)
    requires IsRun(ws, ls) && i < |ws|
    ensures ws[i].dropped == [] && !Enabled(ws[i], Drop)
    ensures ws[i].closed ==> forall k :: 0 <= k < |ws[i].todo| ==> !ws[i].todo[k].Emit?
    ensures NoEnd(Render(ws[i].log))
    ensures !ws[i].ended && ws[i].todo == [] ==> ws[i].sent == Render(ws[i].log)
    ensures ws[i].closed ==> ws[i].sent == Render(ws[i].log) + [Ended(ws[i].reason)]
  {
    Reachable(ws, ls, i);
    RenderHasNoEnd(ws[i].log);
    var w := ws[i];
    if w.closed {
      assert |w.todo| <= 1;
      assert |w.todo| == 1 ==> w.todo[0] == Cancel && w.todo[1..] == [];
      assert Emits(w.todo) == [];
    }
  }

  /** Once a Close can return because the stream is closed, everything is over for good. */
  lemma {:induction false} ClosedIsOver(ws: seq<World>, ls: seq<Step>, i: nat, j: nat)
    requires IsRun(ws, ls) && i <= j < |ws| && ws[i].closed
    ensures ws[j].closed && ws[j].s.life.Terminated?
    ensures ws[j].log == ws[i].log && ws[j].sent == ws[i].sent
  {
    hide Inv, Apply, Enabled;
    if i < j {
      ClosedIsOver(ws, ls, i, j - 1);
      Reachable(ws, ls, j - 1);
      OverStaysOver(ws[j - 1], ls[j - 1]);
    } else {
      Reachable(ws, ls, i);
      ClosedMeansTerminated(ws[i]);
    }
  }

  lemma ClosedMeansTerminated(w: World)
    requires Inv(w) && w.closed
    ensures w.s.life.Terminated?
  {}

  lemma OverStaysOver(w: World, l: Step)
    requires Inv(w) && w.closed && w.s.life.Terminated? && Enabled(w, l)
    ensures var v := Apply(w, l); v.closed && v.s.life.Terminated? && v.log == w.log && v.sent == w.sent
  {
    hide Faithful, Completing, Tracking, Blocks, Accounted;
    assert w.ended;
    match l
    case Pump => assert w.todo[0] == Shutdown(w.reason, 3);
    case _ =>
  }

  lemma FifoAfterEmit(w: World)
    requires Fifo(w) && w.todo != [] && w.todo[0].Emit?
    ensures Fifo(ApplyPump(w))
  {
    var n, ev := |w.sent| - |w.queue|, w.todo[0].ev;
    assert (w.sent + [ev])[n..] == w.sent[n..] + [ev];
  }

  lemma FifoAfterTake(w: World)
    requires Fifo(w) && w.queue != []
    ensures Fifo(w.(queue := w.queue[1..]))
  {
    var n := |w.sent| - |w.queue|;
    assert w.sent[n..][1..] == w.sent[n + 1..];
  }

  /** Only the pump's emits and the reader's takes touch the stream. */
  lemma StreamFrame(w: World, l: Step)
    requires Enabled(w, l) && !l.Take? && !(l.Pump? && w.todo[0].Emit?)
    ensures Apply(w, l).sent == w.sent && Apply(w, l).queue == w.queue
  {
    hide Work, AfterRespond, RespondVerdict, AfterSend, AfterClose;
    match l
    case Pump =>
    case _ =>
  }

  lemma FifoStep(w: World, l: Step)
    requires Fifo(w) && Enabled(w, l)
    ensures Fifo(Apply(w, l))
  {
    if l.Take? {
      FifoAfterTake(w);
    } else if l.Pump? && w.todo[0].Emit? {
      FifoAfterEmit(w);
    } else {
      hide ApplySend, ApplyRespond, ApplyDecode, ApplyEnd, ApplyPump, ApplyDrop;
      StreamFrame(w, l);
    }
  }

  /** What has been read plus what is still queued is what was sent, in order. */
  lemma {:induction false} QueueIsFifo(ws: seq<World>, ls: seq<Step>, i: nat)
    requires IsRun(ws, ls) && i < |ws|
    ensures Fifo(ws[i])
  {
    hide Fifo, Apply, Enabled;
    if i == 0 {
      OpenedIsFine();
    } else {
      QueueIsFifo(ws, ls, i - 1);
      FifoStep(ws[i - 1], ls[i - 1]);
    }
  }

  // ----- turn results ------------------------------------------------------

  /**
   For every turn result ever built: it is a contiguous block of the decoder stream that
   stops at its own terminal event, begins after every earlier block, and, when it closed
   a turn, begins exactly where that turn opened.
   */
  lemma ResultsAreBlocks(ws: seq<World>, ls: seq<Step>, n: nat, i: nat)
    requires IsRun(ws, ls) && n < |ws|
    requires Closed(ws[n], i)
    ensures Terminal(ws[n].log[i].ev)
    ensures ws[n].log[i].from <= i + 1
    ensures ws[n].log[i].result.value.events == Events(ws[n].log)[ws[n].log[i].from..i + 1]
    ensures ws[n].log[i].turn.Some? ==> ws[n].log[i].from == ws[n].log[i].turn.value
    ensures forall j :: Closed(ws[n], j) && j < i ==> j < ws[n].log[i].from
  {
    Reachable(ws, ls, n);
  }

  /** An event in no result was decoded while no turn was open, or belongs to the turn still open. */
  lemma EveryEventIsAccountedFor(ws: seq<World>, ls: seq<Step>, n: nat, k: nat)
    requires IsRun(ws, ls) && n < |ws| && k < |ws[n].log|
    requires !InSomeResult(ws[n], k)
    ensures !ws[n].log[k].inTurn || (ws[n].turn.Some? && ws[n].turn.value <= k)
  {
    Reachable(ws, ls, n);
  }
}
