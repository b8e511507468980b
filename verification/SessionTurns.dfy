/** Turn results when the agent is well behaved, and what goes wrong when it is not. */
module SessionTurns {
  /*
   The pump does not check that a terminal event belongs to an open turn. As long as the
   agent sends one only while a turn is open, a result starts exactly where its turn
   opened and ends with its own terminal event.
   */

  import opened Prelude
  import opened SessionMachine
  import opened SessionInvariant
  import opened SessionSafety

  /**
   While a completion is still to do, whose it will be is settled by whether a turn was open
   when its terminal event was decoded: that turn's, or nobody's unless a turn is opened in
   between, and then one that begins after the event.
   */
  ghost predicate Owed(w: World) {
    Awaiting(w) && |w.log| > 0 ==>
      if w.log[|w.log| - 1].inTurn then w.turn.Some? && w.from < |w.log| && !w.s.life.Idle?
      else w.turn.None? || w.turn == Some(|w.log|)
  }

  /** The turn a result closed was open when its terminal event was decoded. */
  ghost predicate Owned(w: World) {
    forall i :: Closed(w, i) ==> (w.log[i].inTurn <==> w.log[i].turn.Some? && w.log[i].turn.value <= i)
  }

  lemma OwedStep(w: World, l: Step)
    requires Inv(w) && Owed(w) && Enabled(w, l)
    ensures Owed(Apply(w, l))
  {
    hide Work, Faithful, Blocks, Accounted;
    if l.Decode? {
      AwaitingAfterDecode(w, l.ev);
    } else if Finishes(w, l) {
      FinishIsLast(w);
    } else {
      LogFrame(w, l);
      AwaitingFrame(w, l);
      if !w.s.life.Idle? {
        StillBusy(w, l);
      }
    }
  }

  lemma OwnedStep(w: World, l: Step)
    requires Inv(w) && Owed(w) && Owned(w) && Enabled(w, l)
    ensures Owned(Apply(w, l))
  {
    hide Work, Faithful, Blocks, Accounted;
    if l.Decode? {
      assert forall i :: Closed(ApplyDecode(w, l.ev), i) ==> Closed(w, i);
    } else if Finishes(w, l) {
      FinishIsLast(w);
      assert forall i :: Closed(ApplyPump(w), i) && i != |w.log| - 1 ==> Closed(w, i);
    } else {
      LogFrame(w, l);
    }
  }

  lemma {:induction false} OwnedReachable(ws: seq<World>, ls: seq<Step>, n: nat)
    requires IsRun(ws, ls) && n < |ws|
    ensures Inv(ws[n]) && Owed(ws[n]) && Owned(ws[n])
  {
    hide Inv, Owed, Owned, Apply, Enabled;
    Reachable(ws, ls, n);
    if n == 0 {
      OpenedOwesNothing();
    } else {
      OwnedReachable(ws, ls, n - 1);
      OwedStep(ws[n - 1], ls[n - 1]);
      OwnedStep(ws[n - 1], ls[n - 1]);
    }
  }

  lemma OpenedOwesNothing()
    ensures Owed(OPENED) && Owned(OPENED)
  {
  }

  /** The result closed a turn, and is exactly the events from where that turn opened to its own terminal event. */
  ghost predicate IsItsTurn(w: World, i: int) {
    && Closed(w, i) && w.log[i].turn.Some? && w.log[i].turn.value <= i
    && w.log[i].result.value.events == Events(w.log)[w.log[i].turn.value..i + 1]
    && |w.log[i].result.value.events| > 0
    && w.log[i].result.value.events[|w.log[i].result.value.events| - 1] == w.log[i].ev
  }

  /** In every run a result is its own turn's exactly when a turn was open as its terminal event was decoded. */
  lemma ResultIsItsTurnExactlyWhen(ws: seq<World>, ls: seq<Step>, n: nat, i: nat)
    requires IsRun(ws, ls) && n < |ws| && Closed(ws[n], i)
    ensures IsItsTurn(ws[n], i) <==> ws[n].log[i].inTurn
    ensures !ws[n].log[i].inTurn ==> ws[n].log[i].turn.None? || ws[n].log[i].turn == Some(i + 1)
  {
    hide Inv, Owed, Owned, IsItsTurn;
    OwnedReachable(ws, ls, n);
    OwnedIsItsTurn(ws[n], i);
  }

  lemma OwnedIsItsTurn(w: World, i: nat)
    requires Inv(w) && Owned(w) && Closed(w, i)
    ensures IsItsTurn(w, i) <==> w.log[i].inTurn
    ensures !w.log[i].inTurn ==> w.log[i].turn.None? || w.log[i].turn == Some(i + 1)
  {
    hide Phase, Faithful, Completing, Tracking, Accounted;
    var e := w.log[i];
    assert e.result.value.events == Events(w.log)[e.from..i + 1];
    if e.turn.Some? && e.from <= i {
      assert Events(w.log)[i] == e.ev;
    }
  }

  // ----- when a result closes a turn that was never its own ------------------

  /** Before step n a Send was accepted while the completion of event m - 1 was still to do. */
  ghost predicate SentWhileOwed(ws: seq<World>, ls: seq<Step>, n: int, m: int) {
    exists k :: 0 <= k < n && SendAccepted(ws, ls, k) && Awaiting(ws[k]) && |ws[k].log| == m
  }

  ghost predicate Stealing(ws: seq<World>, ls: seq<Step>, n: int)
    requires 0 <= n < |ws|
  {
    var w := ws[n];
    && (forall m :: SentWhileOwed(ws, ls, n, m) ==> m <= |w.log|)
    && (Awaiting(w) && |w.log| > 0 && !w.log[|w.log| - 1].inTurn ==> (w.turn.Some? <==> SentWhileOwed(ws, ls, n, |w.log|)))
    && (forall i :: Closed(w, i) && !w.log[i].inTurn ==> (w.log[i].turn.Some? <==> SentWhileOwed(ws, ls, n, i + 1)))
  }

  lemma SentNext(ws: seq<World>, ls: seq<Step>, n: nat, m: int)
    requires n < |ls| && |ws| == |ls| + 1
    ensures SentWhileOwed(ws, ls, n + 1, m)
       <==> SentWhileOwed(ws, ls, n, m) || (SendAccepted(ws, ls, n) && Awaiting(ws[n]) && |ws[n].log| == m)
  {
    hide SendAccepted, Awaiting;
    if SentWhileOwed(ws, ls, n + 1, m) {
      var k :| 0 <= k < n + 1 && SendAccepted(ws, ls, k) && Awaiting(ws[k]) && |ws[k].log| == m;
      assert k < n ==> SentWhileOwed(ws, ls, n, m);
    }
  }

  lemma StealingByDecode(ws: seq<World>, ls: seq<Step>, n: nat)
    requires IsRun(ws, ls) && n < |ls| && Inv(ws[n]) && Stealing(ws, ls, n) && ls[n].Decode?
    ensures Stealing(ws, ls, n + 1)
  {
    hide SentWhileOwed, Work, Faithful, Blocks, Accounted;
    var w, v, next := ws[n], ws[n + 1], n + 1;
    AwaitingAfterDecode(w, ls[n].ev);
    forall m ensures SentWhileOwed(ws, ls, next, m) <==> SentWhileOwed(ws, ls, n, m) {
      SentNext(ws, ls, n, m);
    }
    assert forall i :: Closed(v, i) ==> Closed(w, i) && v.log[i] == w.log[i];
  }

  lemma StealingByFinish(ws: seq<World>, ls: seq<Step>, n: nat)
    requires IsRun(ws, ls) && n < |ls| && Inv(ws[n]) && Stealing(ws, ls, n) && Finishes(ws[n], ls[n])
    ensures Stealing(ws, ls, n + 1)
  {
    hide SentWhileOwed, Work, Faithful, Blocks, Accounted;
    var w, v, next := ws[n], ws[n + 1], n + 1;
    FinishIsLast(w);
    forall m ensures SentWhileOwed(ws, ls, next, m) <==> SentWhileOwed(ws, ls, n, m) {
      SentNext(ws, ls, n, m);
    }
    assert forall i :: Closed(v, i) && i != |w.log| - 1 ==> Closed(w, i) && v.log[i] == w.log[i];
  }

  lemma StealingElsewhere(ws: seq<World>, ls: seq<Step>, n: nat)
    requires IsRun(ws, ls) && n < |ls| && Inv(ws[n]) && Owed(ws[n]) && Stealing(ws, ls, n)
    requires !ls[n].Decode? && !Finishes(ws[n], ls[n])
    ensures Stealing(ws, ls, n + 1)
  {
    hide SentWhileOwed, Work, Faithful, Blocks, Accounted;
    var w, l, next := ws[n], ls[n], n + 1;
    LogFrame(w, l);
    AwaitingFrame(w, l);
    forall m ensures SentWhileOwed(ws, ls, next, m)
      <==> SentWhileOwed(ws, ls, n, m) || (SendAccepted(ws, ls, n) && Awaiting(w) && |w.log| == m)
    {
      SentNext(ws, ls, n, m);
    }
    assert SendAccepted(ws, ls, n) ==> ws[n + 1].turn.Some?;
    assert !SendAccepted(ws, ls, n) ==> ws[n + 1].turn == w.turn;
  }

  lemma StealingStep(ws: seq<World>, ls: seq<Step>, n: nat)
    requires IsRun(ws, ls) && n < |ls| && Inv(ws[n]) && Owed(ws[n]) && Stealing(ws, ls, n)
    ensures Stealing(ws, ls, n + 1)
  {
    hide Inv, Owed, Stealing, Apply, Enabled, SentWhileOwed;
    if ls[n].Decode? {
      StealingByDecode(ws, ls, n);
    } else if Finishes(ws[n], ls[n]) {
      StealingByFinish(ws, ls, n);
    } else {
      StealingElsewhere(ws, ls, n);
    }
  }

  lemma {:induction false} StealingReachable(ws: seq<World>, ls: seq<Step>, n: nat)
    requires IsRun(ws, ls) && n < |ws|
    ensures Stealing(ws, ls, n)
  {
    hide Inv, Owed, Owned, Stealing, Apply, Enabled, SentWhileOwed;
    if n > 0 {
      StealingReachable(ws, ls, n - 1);
      OwnedReachable(ws, ls, n - 1);
      StealingStep(ws, ls, n - 1);
    } else {
      NothingStolen(ws, ls);
    }
  }

  lemma NothingStolen(ws: seq<World>, ls: seq<Step>)
    requires |ws| > 0 && ws[0] == OPENED
    ensures Stealing(ws, ls, 0)
  {}

  /**
   A result whose terminal event was decoded outside any turn closes a turn all the same
   exactly when a Send was accepted before the pump got to completing it.
   */
  lemma StrayResultStealsExactlyWhen(ws: seq<World>, ls: seq<Step>, n: nat, i: nat)
    requires IsRun(ws, ls) && n < |ws| && Closed(ws[n], i) && !ws[n].log[i].inTurn
    ensures ws[n].log[i].turn == Some(i + 1) <==> SentWhileOwed(ws, ls, n, i + 1)
    ensures ws[n].log[i].turn.None? <==> !SentWhileOwed(ws, ls, n, i + 1)
  {
    hide SentWhileOwed, IsItsTurn;
    StealingReachable(ws, ls, n);
    ResultIsItsTurnExactlyWhen(ws, ls, n, i);
  }

  // ----- when there is a turn to interrupt ----------------------------------

  /** Step k opens a turn: an accepted Send, or an event with which the agent starts one itself. */
  ghost predicate OpensTurn(ws: seq<World>, ls: seq<Step>, k: int) {
    && 0 <= k < |ls| && |ws| == |ls| + 1
    && (SendAccepted(ws, ls, k) || (ls[k].Decode? && Unsolicited(ws[k].s, ls[k].ev)))
  }

  ghost predicate Shuts(ws: seq<World>, ls: seq<Step>, k: int) {
    && 0 <= k < |ls| && |ws| == |ls| + 1
    && (ls[k].Close? || (ls[k].Pump? && ws[k].todo != [] && ws[k].todo[0].Die?))
  }

  ghost predicate ShutBefore(ws: seq<World>, ls: seq<Step>, n: int) {
    exists k :: 0 <= k < n && Shuts(ws, ls, k)
  }

  ghost predicate NoneCompleted(ws: seq<World>, ls: seq<Step>, k: int, n: int) {
    forall m :: k < m < n ==> !CompletesTurn(ws, ls, m)
  }

  /** A turn opened, by Open itself or at some step before n, and none has been completed since. */
  ghost predicate TurnBefore(ws: seq<World>, ls: seq<Step>, n: int) {
    exists k :: -1 <= k < n && (k == -1 || OpensTurn(ws, ls, k)) && NoneCompleted(ws, ls, k, n)
  }

  lemma TurnNext(ws: seq<World>, ls: seq<Step>, n: nat)
    requires |ws| == |ls| + 1 && n < |ls|
    ensures TurnBefore(ws, ls, n + 1) <==> OpensTurn(ws, ls, n) || (TurnBefore(ws, ls, n) && !CompletesTurn(ws, ls, n))
  {
    hide OpensTurn, CompletesTurn;
    var next := n + 1;
    if TurnBefore(ws, ls, next) {
      var k :| -1 <= k < next && (k == -1 || OpensTurn(ws, ls, k)) && NoneCompleted(ws, ls, k, next);
      if k < n {
        assert NoneCompleted(ws, ls, k, n) && !CompletesTurn(ws, ls, n);
      }
    }
    if OpensTurn(ws, ls, n) {
      assert NoneCompleted(ws, ls, n, next);
    } else if TurnBefore(ws, ls, n) && !CompletesTurn(ws, ls, n) {
      var k :| -1 <= k < n && (k == -1 || OpensTurn(ws, ls, k)) && NoneCompleted(ws, ls, k, n);
      assert NoneCompleted(ws, ls, k, next);
    }
  }

  lemma ShutNext(ws: seq<World>, ls: seq<Step>, n: nat)
    ensures ShutBefore(ws, ls, n + 1) <==> ShutBefore(ws, ls, n) || Shuts(ws, ls, n)
  {
    hide Shuts;
    if ShutBefore(ws, ls, n + 1) {
      var k :| 0 <= k < n + 1 && Shuts(ws, ls, k);
      assert k < n ==> ShutBefore(ws, ls, n);
    }
  }

  /** The state is what has happened: shut, or else running exactly while a turn is open. */
  ghost predicate Telling(ws: seq<World>, ls: seq<Step>, n: int)
    requires 0 <= n < |ws|
  {
    && ((ws[n].s.life.Closing? || ws[n].s.life.Terminated?) <==> ShutBefore(ws, ls, n))
    && (!ShutBefore(ws, ls, n) ==> (ws[n].s.life.Running? <==> TurnBefore(ws, ls, n)))
  }

  lemma TellingNext(ws: seq<World>, ls: seq<Step>, n: nat)
    requires IsRun(ws, ls) && n < |ls| && Telling(ws, ls, n)
    ensures Telling(ws, ls, n + 1)
  {
    hide ShutBefore, TurnBefore;
    TurnNext(ws, ls, n);
    ShutNext(ws, ls, n);
    var w, l := ws[n], ls[n];
    match l
    case Pump =>
    case _ =>
  }

  lemma {:induction false} TellingHolds(ws: seq<World>, ls: seq<Step>, n: nat)
    requires IsRun(ws, ls) && n < |ws|
    ensures Telling(ws, ls, n)
  {
    if n > 0 {
      hide Telling, Apply, Enabled;
      TellingHolds(ws, ls, n - 1);
      TellingNext(ws, ls, n - 1);
    } else {
      assert NoneCompleted(ws, ls, -1, 0);
      assert TurnBefore(ws, ls, 0);
    }
  }

  /**
   An interrupt is decided on exactly while a turn is open: one that Open, a Send or the agent
   opened and nobody has completed, in a session nobody has closed.
   */
  lemma InterruptIsDecidedExactlyWhen(ws: seq<World>, ls: seq<Step>, n: nat)
    requires IsRun(ws, ls) && n < |ws|
    ensures InterruptVerdict(ws[n].s).Interrupting? <==> !ShutBefore(ws, ls, n) && TurnBefore(ws, ls, n)
    ensures InterruptVerdict(ws[n].s).NothingToStop? <==> !ShutBefore(ws, ls, n) && !TurnBefore(ws, ls, n)
    ensures InterruptVerdict(ws[n].s).InterruptClosed? <==> ShutBefore(ws, ls, n)
  {
    hide ShutBefore, TurnBefore;
    TellingHolds(ws, ls, n);
  }

  // ----- which turn an interrupt is written in --------------------------------

  /** The turn that is open, by the step that opened it; Open itself is step -1. */
  ghost function OpenTurn(ws: seq<World>, ls: seq<Step>, n: nat): Option<int>
    requires |ws| == |ls| + 1 && n <= |ls|
  {
    if n == 0 then Some(-1)
    else if OpensTurn(ws, ls, n - 1) then Some(n - 1)
    else if Finishes(ws[n - 1], ls[n - 1]) then None
    else OpenTurn(ws, ls, n - 1)
  }

  /** The pump completes a turn, or takes the completion for one, at some step from i on. */
  ghost predicate FinishBetween(ws: seq<World>, ls: seq<Step>, i: int, n: int)
    requires |ws| == |ls| + 1 && 0 <= i && n <= |ls|
  {
    exists k :: i <= k < n && Finishes(ws[k], ls[k])
  }

  lemma {:induction false} OpenTurnIsOpen(ws: seq<World>, ls: seq<Step>, n: nat)
    requires IsRun(ws, ls) && n <= |ls|
    ensures OpenTurn(ws, ls, n).Some? <==> ws[n].turn.Some?
    ensures OpenTurn(ws, ls, n).Some? ==> OpenTurn(ws, ls, n).value < n
  {
    if n > 0 {
      OpenTurnIsOpen(ws, ls, n - 1);
      Reachable(ws, ls, n - 1);
      var w, l := ws[n - 1], ls[n - 1];
      hide Faithful, Blocks, Accounted, Completing, Work;
      if !l.Decode? && !Finishes(w, l) {
        LogFrame(w, l);
      }
    }
  }

  /** While a turn is open no other can be opened. */
  lemma NothingOpensTwice(ws: seq<World>, ls: seq<Step>, k: nat)
    requires IsRun(ws, ls) && k < |ls| && OpensTurn(ws, ls, k)
    ensures ws[k].turn.None?
  {
    Reachable(ws, ls, k);
  }

  lemma FinishNext(ws: seq<World>, ls: seq<Step>, i: nat, n: nat)
    requires |ws| == |ls| + 1 && i <= n < |ls|
    ensures FinishBetween(ws, ls, i, n + 1) <==> FinishBetween(ws, ls, i, n) || Finishes(ws[n], ls[n])
  {
    hide Finishes;
  }

  lemma NoneNext(ws: seq<World>, ls: seq<Step>, i: nat, n: nat)
    requires i <= n
    ensures NoneCompleted(ws, ls, i - 1, n + 1) <==> NoneCompleted(ws, ls, i - 1, n) && !CompletesTurn(ws, ls, n)
    ensures NoneCompleted(ws, ls, i - 1, i)
  {
    hide CompletesTurn;
    if NoneCompleted(ws, ls, i - 1, n + 1) {
      assert forall m :: i - 1 < m < n ==> !CompletesTurn(ws, ls, m);
    }
  }

  lemma OpenTurnNext(ws: seq<World>, ls: seq<Step>, n: nat)
    requires IsRun(ws, ls) && n < |ls|
    ensures OpenTurn(ws, ls, n).Some? ==> OpenTurn(ws, ls, n + 1) == if Finishes(ws[n], ls[n]) then None else OpenTurn(ws, ls, n)
    ensures OpenTurn(ws, ls, n).None? && OpenTurn(ws, ls, n + 1).Some? ==> OpenTurn(ws, ls, n + 1).value == n
  {
    OpenTurnIsOpen(ws, ls, n);
    if OpensTurn(ws, ls, n) {
      NothingOpensTwice(ws, ls, n);
    }
    hide OpensTurn, Finishes, Apply, Enabled;
  }

  lemma {:induction false} SameTurnUntilFinish(ws: seq<World>, ls: seq<Step>, i: nat, n: nat)
    requires IsRun(ws, ls) && i <= n <= |ls| && OpenTurn(ws, ls, i).Some?
    ensures OpenTurn(ws, ls, n) == OpenTurn(ws, ls, i) <==> !FinishBetween(ws, ls, i, n)
    ensures FinishBetween(ws, ls, i, n) && OpenTurn(ws, ls, n).Some? ==> OpenTurn(ws, ls, n).value >= i
  {
    OpenTurnIsOpen(ws, ls, i);
    hide OpenTurn, FinishBetween, Finishes, Apply, Enabled;
    if i < n {
      SameTurnUntilFinish(ws, ls, i, n - 1);
      OpenTurnNext(ws, ls, n - 1);
      FinishNext(ws, ls, i, n - 1);
    } else {
      NothingBetween(ws, ls, i);
    }
  }

  lemma NothingBetween(ws: seq<World>, ls: seq<Step>, i: nat)
    requires |ws| == |ls| + 1 && i <= |ls|
    ensures !FinishBetween(ws, ls, i, i)
  {}

  /** In a session nobody has closed, the first such step completes the turn that is open. */
  lemma {:induction false} FirstFinishCompletes(ws: seq<World>, ls: seq<Step>, i: nat, n: nat)
    requires IsRun(ws, ls) && i <= n <= |ls| && ws[i].s.life.Running? && !ShutBefore(ws, ls, n)
    ensures FinishBetween(ws, ls, i, n) <==> !NoneCompleted(ws, ls, i - 1, n)
    ensures !FinishBetween(ws, ls, i, n) ==> ws[n].s.life.Running?
  {
    hide ShutBefore, Shuts, Finishes, CompletesTurn, FinishBetween, NoneCompleted, Apply, Enabled;
    NothingBetween(ws, ls, i);
    NoneNext(ws, ls, i, i);
    if i < n {
      ShutNext(ws, ls, n - 1);
      FirstFinishCompletes(ws, ls, i, n - 1);
      RunningUntilFinish(ws, ls, n - 1);
      FinishNext(ws, ls, i, n - 1);
      NoneNext(ws, ls, i, n - 1);
      CompletingIsFinishing(ws, ls, n - 1);
    }
  }

  lemma CompletingIsFinishing(ws: seq<World>, ls: seq<Step>, k: nat)
    requires k < |ls| && |ws| == |ls| + 1
    ensures CompletesTurn(ws, ls, k) <==> Finishes(ws[k], ls[k]) && ws[k].s.life.Running?
  {}

  lemma RunningUntilFinish(ws: seq<World>, ls: seq<Step>, k: nat)
    requires IsRun(ws, ls) && k < |ls|
    ensures ws[k].s.life.Running? && !Shuts(ws, ls, k) && !Finishes(ws[k], ls[k]) ==> ws[k + 1].s.life.Running?
  {
    var w, l := ws[k], ls[k];
    if w.s.life.Running? && !Finishes(w, l) && !Shuts(ws, ls, k) {
      match l
      case Pump =>
      case _ =>
    }
  }

  /**
   An interrupt is written after the lock under which it was decided on is released. Decided at i
   and written at n, it falls in the turn it was meant for exactly when the pump has not finished
   that turn in between; and while nobody closes the session, that is when no turn was completed.
   If one was, it is written in no turn or in one opened since.
   */
  lemma InterruptFallsInItsTurnExactlyWhen(ws: seq<World>, ls: seq<Step>, i: nat, n: nat)
    requires IsRun(ws, ls) && i <= n <= |ls| && InterruptVerdict(ws[i].s).Interrupting?
    ensures OpenTurn(ws, ls, i).Some?
    ensures OpenTurn(ws, ls, n) == OpenTurn(ws, ls, i) <==> !FinishBetween(ws, ls, i, n)
    ensures !ShutBefore(ws, ls, n) ==> (OpenTurn(ws, ls, n) == OpenTurn(ws, ls, i) <==> NoneCompleted(ws, ls, i - 1, n))
    ensures FinishBetween(ws, ls, i, n) ==> OpenTurn(ws, ls, n).None? || OpenTurn(ws, ls, n).value >= i
  {
    Reachable(ws, ls, i);
    OpenTurnIsOpen(ws, ls, i);
    hide OpenTurn, FinishBetween, ShutBefore, NoneCompleted;
    SameTurnUntilFinish(ws, ls, i, n);
    if !ShutBefore(ws, ls, n) {
      FirstFinishCompletes(ws, ls, i, n);
    }
  }

  /** An instance: decided on while the first turn was open, written when none is. */
  lemma InterruptMayComeTooLate(done: Event) returns (ws: seq<World>, ls: seq<Step>)
    requires done.kind.Success?
    ensures IsRun(ws, ls) && |ls| == 3
    ensures InterruptVerdict(ws[0].s).Interrupting? && OpenTurn(ws, ls, 0) == Some(-1)
    ensures InterruptVerdict(ws[3].s).NothingToStop? && OpenTurn(ws, ls, 3) == None
  {
    ws, ls := FirstTurnEnds(done);
    OpenTurnIsOpen(ws, ls, 3);
    Reachable(ws, ls, 3);
  }

  // ----- agents that only end turns that are open ---------------------------

  /** The agent emits a terminal event only while a turn is open. */
  ghost predicate Polite(ws: seq<World>, ls: seq<Step>) {
    && |ws| == |ls| + 1
    && forall i {:trigger ls[i]} :: 0 <= i < |ls| && ls[i].Decode? && Terminal(ls[i].ev) ==>
         ApplyDecode(ws[i], ls[i].ev).turn.Some?
  }

  ghost predicate EndsOpenTurns(w: World) {
    forall i :: 0 <= i < |w.log| && Terminal(w.log[i].ev) ==> w.log[i].inTurn
  }

  lemma EndsOpenTurnsStep(w: World, l: Step)
    requires Inv(w) && EndsOpenTurns(w) && Enabled(w, l)
    requires l.Decode? && Terminal(l.ev) ==> ApplyDecode(w, l.ev).turn.Some?
    ensures EndsOpenTurns(Apply(w, l))
  {
    hide Work, Faithful, Blocks, Accounted;
    if !l.Decode? && !Finishes(w, l) {
      LogFrame(w, l);
    }
  }

  lemma {:induction false} PoliteEndsOpenTurns(ws: seq<World>, ls: seq<Step>, n: nat)
    requires IsRun(ws, ls) && Polite(ws, ls) && n < |ws|
    ensures EndsOpenTurns(ws[n])
  {
    if n > 0 {
      PoliteEndsOpenTurns(ws, ls, n - 1);
      Reachable(ws, ls, n - 1);
      hide Inv, EndsOpenTurns, Apply, Enabled;
      assert ls[n - 1].Decode? || !ls[n - 1].Decode?;
      EndsOpenTurnsStep(ws[n - 1], ls[n - 1]);
    }
  }

  /** So with a polite agent every result holds exactly the events decoded since its turn opened. */
  lemma ResultIsItsTurn(ws: seq<World>, ls: seq<Step>, n: nat, i: nat)
    requires IsRun(ws, ls) && Polite(ws, ls) && n < |ws| && Closed(ws[n], i)
    ensures IsItsTurn(ws[n], i)
  {
    hide IsItsTurn;
    PoliteEndsOpenTurns(ws, ls, n);
    Reachable(ws, ls, n);
    ResultIsItsTurnExactlyWhen(ws, ls, n, i);
  }

  /** ... and an idle session owes no completion. */
  lemma PoliteIdleOwesNothing(ws: seq<World>, ls: seq<Step>, n: nat)
    requires IsRun(ws, ls) && Polite(ws, ls) && n < |ws| && ws[n].s.life.Idle?
    ensures !Awaiting(ws[n])
  {
    PoliteEndsOpenTurns(ws, ls, n);
    OwnedReachable(ws, ls, n);
  }

  // ----- agents that do not -------------------------------------------------

  /** The result built at step n closed the turn sent at step n - 1, with nothing in it. */
  ghost predicate StolenTurn(ws: seq<World>, ls: seq<Step>, n: nat) {
    && 0 < n < |ls| && |ws| == |ls| + 1
    && SendAccepted(ws, ls, n - 1) && Finishes(ws[n], ls[n])
    && ws[n].turn.Some? && ws[n + 1].turn.None?
    && Closed(ws[n + 1], |ws[n].log| - 1)
    && ws[n + 1].log[|ws[n].log| - 1].turn == ws[n].turn
    && ws[n + 1].log[|ws[n].log| - 1].result.value.events == []
  }

  /**
   An instance where it does not hold: the code attributes a result to the wrong turn: a second
   terminal event decoded while idle, then a Send before the pump completes it, and the
   turn just sent is closed with no events at all.
   */
  lemma ImpoliteAgentClosesTheNextTurn()
    ensures exists ws, ls, n :: IsRun(ws, ls) && StolenTurn(ws, ls, n)
  {
    var done := Event("", false, Success);
    var ws, ls := FirstTurnEnds(done);
    StealTurn(ws, ls, done);
  }

  lemma FirstTurnEnds(done: Event) returns (ws: seq<World>, ls: seq<Step>)
    requires done.kind.Success?
    ensures IsRun(ws, ls) && |ls| == 3
    ensures var w := ws[|ls|]; w.todo == [] && !w.ended && w.s.life == Idle
  {
    var w1 := Apply(OPENED, Decode(done));
    assert w1.todo == [Finish(None)];
    var w2 := Apply(w1, Pump);
    assert |w2.todo| == 1 && w2.todo[0].Emit?;
    var w3 := Apply(w2, Pump);
    Extend([OPENED], [], Decode(done));
    Extend([OPENED, w1], [Decode(done)], Pump);
    Extend([OPENED, w1, w2], [Decode(done), Pump], Pump);
    ws, ls := [OPENED, w1, w2, w3], [Decode(done), Pump, Pump];
  }

  /** From any idle, quiet state: decode a terminal event, send, complete. */
  lemma StealTurn(ws: seq<World>, ls: seq<Step>, done: Event)
    requires IsRun(ws, ls) && Terminal(done) && !done.opensTurn
    requires var w := ws[|ls|]; w.todo == [] && !w.ended && w.s.life == Idle
    ensures exists ws, ls, n :: IsRun(ws, ls) && StolenTurn(ws, ls, n)
  {
    var n, w := |ls|, ws[|ls|];
    var w1 := Apply(w, Decode(done));
    var w2 := Apply(w1, Send);
    StrayThenSend(w, done);
    var w3 := Apply(w2, Pump);
    hide Apply, Enabled;
    Extend(ws, ls, Decode(done));
    Extend(ws + [w1], ls + [Decode(done)], Send);
    Extend(ws + [w1] + [w2], ls + [Decode(done)] + [Send], Pump);
    var ws', ls' := ws + [w1] + [w2] + [w3], ls + [Decode(done)] + [Send] + [Pump];
    assert ws'[n + 1] == w1 && ws'[n + 2] == w2 && ws'[n + 3] == w3;
    assert StolenTurn(ws', ls', n + 2);
  }

  lemma StrayThenSend(w: World, done: Event)
    requires Terminal(done) && !done.opensTurn && w.todo == [] && !w.ended && w.s.life == Idle
    ensures Enabled(w, Decode(done))
    ensures var w1 := Apply(w, Decode(done));
            && SendVerdict(w1.s) == Accepted
            && var w2 := Apply(w1, Send);
            && Finishes(w2, Pump) && w2.turn == Some(|w2.log|) && |w2.log| > 0
            && var w3 := Apply(w2, Pump);
            && w3.turn.None? && Closed(w3, |w2.log| - 1) && w3.log[|w2.log| - 1].turn == w2.turn
            && w3.log[|w2.log| - 1].result.value.events == []
  {}
}
