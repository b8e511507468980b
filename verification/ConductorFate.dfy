/** Which conducted turns are lost, and which are given another turn's outcome. */
module ConductorFate {
  import opened Prelude
  import opened SessionMachine
  import opened SessionInvariant
  import opened SessionSafety
  import opened SessionTurns
  import opened ConductorMachine
  import opened ConductorSafety
  import opened ConductorDelivery
  import opened ConductorStream

  /** The boundary the reader will act on next has been made and starts a turn of the agent's. */
  ghost predicate StartPending(c: Sys) {
    exists q :: FirstFrom(Produced(c.w), Next(c), q) && Produced(c.w)[q].TurnStart?
  }

  /** ... or ends the session. */
  ghost predicate EndPending(c: Sys) {
    exists q :: FirstFrom(Produced(c.w), Next(c), q) && Produced(c.w)[q].Ended?
  }

  lemma InRange(cs: seq<Sys>, ms: seq<Move>, i: int, j: int, id: nat)
    requires SendsTurn(cs, ms, i, id) && FirstBoundary(cs, ms, i, j)
    ensures 0 <= i < j < |ms| && |cs| == |ms| + 1 && cs[j].hand.Holding?
  {}

  // ----- the boundary acted on ----------------------------------------------

  /** The boundary a sent turn is held to is the first from where the reader was at the Send. */
  lemma HeldIsFirst(cs: seq<Sys>, ms: seq<Move>, i: int, j: int, id: nat)
    requires IsConducted(cs, ms) && SendsTurn(cs, ms, i, id) && FirstBoundary(cs, ms, i, j)
    ensures FirstFrom(Produced(cs[j].w), Next(cs[i]), Next(cs[j]))
    ensures Produced(cs[j].w)[Next(cs[j])] == cs[j].hand.ev
    ensures Produced(cs[i].w) <= Produced(cs[j].w) && 0 <= Next(cs[i]) <= |Produced(cs[i].w)|
  {
    hide IsConducted, Produced, SendsTurn, FirstBoundary;
    InRange(cs, ms, i, j, id);
    HoldsUntilBoundary(cs, ms, i, j, id);
    HeldIsNext(cs[j]);
    NextBounded(cs, ms, i, id);
  }

  lemma NextBounded(cs: seq<Sys>, ms: seq<Move>, i: int, id: nat)
    requires IsConducted(cs, ms) && SendsTurn(cs, ms, i, id)
    ensures 0 <= Next(cs[i]) <= |Produced(cs[i].w)|
  {
    InvAt(cs, ms, i);
    HeldIsNext(cs[i]);
  }

  /** A pending first boundary is the one that will be acted on. */
  lemma PendingIsHeld(cs: seq<Sys>, ms: seq<Move>, i: int, j: int, id: nat, q: int)
    requires IsConducted(cs, ms) && SendsTurn(cs, ms, i, id) && FirstBoundary(cs, ms, i, j)
    requires FirstFrom(Produced(cs[i].w), Next(cs[i]), q)
    ensures Next(cs[j]) == q && cs[j].hand.ev == Produced(cs[i].w)[q]
  {
    hide IsConducted, Produced, SendsTurn, FirstBoundary, Next;
    InRange(cs, ms, i, j, id);
    HeldIsFirst(cs, ms, i, j, id);
    FirstStays(Produced(cs[i].w), Produced(cs[j].w), Next(cs[i]), q);
    FirstIsUnique(Produced(cs[j].w), Next(cs[i]), q, Next(cs[j]));
  }

  /** An early position is a pending boundary; otherwise none was pending. */
  lemma PendingOrClean(cs: seq<Sys>, ms: seq<Move>, i: int, j: int, id: nat)
    requires IsConducted(cs, ms) && SendsTurn(cs, ms, i, id) && FirstBoundary(cs, ms, i, j)
    ensures Next(cs[j]) < |Produced(cs[i].w)| ==>
              FirstFrom(Produced(cs[i].w), Next(cs[i]), Next(cs[j])) && cs[j].hand.ev == Produced(cs[i].w)[Next(cs[j])]
    ensures Next(cs[j]) >= |Produced(cs[i].w)| <==> Clean(cs[i])
    ensures Clean(cs[i]) ==> FirstFrom(Produced(cs[j].w), |Produced(cs[i].w)|, Next(cs[j]))
  {
    hide IsConducted, Produced, SendsTurn, FirstBoundary, Next;
    InRange(cs, ms, i, j, id);
    HeldIsFirst(cs, ms, i, j, id);
    FreshExactlyWhenClean(cs, ms, i, j, id);
  }

  /**
   A turn that was sent is lost, never to be given an outcome, exactly when the first boundary
   then pending was the start of a turn of the agent's own.
   */
  lemma LostExactlyWhenStartPending(cs: seq<Sys>, ms: seq<Move>, i: int, j: int, k: int, id: nat)
    requires IsConducted(cs, ms) && SendsTurn(cs, ms, i, id) && FirstBoundary(cs, ms, i, j) && j < k < |cs|
    ensures cs[j].hand.ev.TurnStart? <==> StartPending(cs[i])
    ensures StartPending(cs[i]) ==> Got(cs[k].outcomes, id) == []
    ensures !StartPending(cs[i]) ==>
              || Got(cs[k].outcomes, id) == [OutcomeOf(cs[j].hand.ev)]
              || cs[k].hand == Delivering(Some(Turn(id, false)), OutcomeOf(cs[j].hand.ev))
  {
    InRange(cs, ms, i, j, id);
    StartActsExactlyWhenPending(cs, ms, i, j, id);
    hide StartPending, IsConducted, SendsTurn, FirstBoundary;
    FirstBoundaryDecides(cs, ms, i, j, k, id);
  }

  lemma StartActsExactlyWhenPending(cs: seq<Sys>, ms: seq<Move>, i: int, j: int, id: nat)
    requires IsConducted(cs, ms) && SendsTurn(cs, ms, i, id) && FirstBoundary(cs, ms, i, j)
    ensures cs[j].hand.ev.TurnStart? <==> StartPending(cs[i])
  {
    hide IsConducted, Produced, SendsTurn, FirstBoundary, Next, Clean, NoStartFirst;
    InRange(cs, ms, i, j, id);
    PendingOrClean(cs, ms, i, j, id);
    if q :| FirstFrom(Produced(cs[i].w), Next(cs[i]), q) && Produced(cs[i].w)[q].TurnStart? {
      PendingIsHeld(cs, ms, i, j, id, q);
    } else if cs[j].hand.ev.TurnStart? {
      HeldIsFirst(cs, ms, i, j, id);
      FreshIsNoStart(cs, ms, i, j, id);
    }
  }

  lemma FreshIsNoStart(cs: seq<Sys>, ms: seq<Move>, i: int, j: int, id: nat)
    requires IsConducted(cs, ms) && SendsTurn(cs, ms, i, id) && FirstBoundary(cs, ms, i, j) && Clean(cs[i])
    ensures !cs[j].hand.ev.TurnStart?
  {
    hide IsConducted, Produced, SendsTurn, FirstBoundary, Next, Clean;
    InRange(cs, ms, i, j, id);
    PendingOrClean(cs, ms, i, j, id);
    HeldIsFirst(cs, ms, i, j, id);
    var p := |Produced(cs[i].w)|;
    RunningAfterSend(cs, ms, i, id);
    NoStartAlong(cs, ms, i + 1, j, p);
    var q :| FirstFrom(Produced(cs[j].w), p, q) && !Produced(cs[j].w)[q].TurnStart?;
    FirstIsUnique(Produced(cs[j].w), p, q, Next(cs[j]));
  }

  lemma RunningAfterSend(cs: seq<Sys>, ms: seq<Move>, i: int, id: nat)
    requires IsConducted(cs, ms) && SendsTurn(cs, ms, i, id)
    ensures 0 <= i < |ms| && i + 1 < |cs|
    ensures Produced(cs[i + 1].w) == Produced(cs[i].w) && cs[i + 1].w == Apply(cs[i].w, Send)
    ensures cs[i].w.s.life.Idle? && NoStartFirst(cs[i + 1].w, |Produced(cs[i].w)|)
  {
    ConductorDelivery.AfterSend(cs, ms, i, id);
    assert cs[i + 1] == Moved(cs[i], ms[i]);
  }

  // ----- whose boundary it is -----------------------------------------------

  /**
   The boundary at q is that of the turn opened when n events had been decoded: the end of the
   session, or the completion of that turn, made of an event decoded since.
   */
  ghost predicate IsOwn(w: World, n: nat, q: int) {
    && 0 <= q < |Produced(w)|
    && (Produced(w)[q].Ended? || (Produced(w)[q].TurnComplete? && n <= |w.log| && q >= Extent(w, n) && Own(w, n, Produced(w)[q])))
  }

  lemma CleanAndSettledIsOwn(cs: seq<Sys>, ms: seq<Move>, i: int, j: int, id: nat)
    requires IsConducted(cs, ms) && SendsTurn(cs, ms, i, id) && FirstBoundary(cs, ms, i, j)
    requires Clean(cs[i]) && !Awaiting(cs[i].w)
    ensures IsOwn(cs[j].w, |cs[i].w.log|, Next(cs[j]))
  {
    hide IsConducted, Produced, SendsTurn, FirstBoundary, Next, Clean, Inv, HandInv, SysInv, Own, Render;
    InRange(cs, ms, i, j, id);
    CleanTurnGetsItsOwnBoundary(cs, ms, i, j, id);
    PendingOrClean(cs, ms, i, j, id);
    HeldIsFirst(cs, ms, i, j, id);
    InvAt(cs, ms, i);
    var log := cs[i].w.log;
    assert log[..|log|] == log;
    RunningAfterSend(cs, ms, i, id);
    CleanMeansLive(cs[i]);
    ProducedIsRendered(cs[i].w);
    SettledAlongFrom(cs, ms, i, j, log);
    OwnIsBounding(cs[j].w, |log|, cs[j].hand.ev);
  }

  lemma OwnIsBounding(w: World, n: nat, b: StreamEvent)
    requires Own(w, n, b)
    ensures b.Ended? || b.TurnComplete?
  {}

  lemma CleanButOwedIsNot(cs: seq<Sys>, ms: seq<Move>, i: int, j: int, id: nat)
    requires IsConducted(cs, ms) && SendsTurn(cs, ms, i, id) && FirstBoundary(cs, ms, i, j)
    requires Clean(cs[i]) && Awaiting(cs[i].w)
    ensures !IsOwn(cs[j].w, |cs[i].w.log|, Next(cs[j]))
  {
    hide IsConducted, Produced, SendsTurn, FirstBoundary, Next, Clean, Inv, HandInv, SysInv, Own, Render, Extent;
    InRange(cs, ms, i, j, id);
    PendingOrClean(cs, ms, i, j, id);
    HeldIsFirst(cs, ms, i, j, id);
    RunningAfterSend(cs, ms, i, id);
    var p, n := |Produced(cs[i].w)|, |cs[i].w.log|;
    StrayAlong(cs, ms, i, j, p, n);
    OwedMeansNothingMade(cs[j], p, n, Next(cs[j]));
    InvAt(cs, ms, j);
    assert FirstFrom(Produced(cs[j].w), p, Next(cs[j]));
    if |Produced(cs[j].w)| > p {
      assert FirstFrom(Produced(cs[j].w), p, p);
      FirstIsUnique(Produced(cs[j].w), p, p, Next(cs[j]));
    }
  }

  lemma OwedMeansNothingMade(c: Sys, p: nat, n: nat, q: int)
    requires StrayFirst(c.w, p, n)
    ensures |Produced(c.w)| == p || (p < |Produced(c.w)| && Produced(c.w)[p].TurnComplete? && n <= |c.w.log| && Extent(c.w, n) > p)
  {}

  lemma PendingIsOwnOnlyAtTheEnd(cs: seq<Sys>, ms: seq<Move>, i: int, j: int, id: nat)
    requires IsConducted(cs, ms) && SendsTurn(cs, ms, i, id) && FirstBoundary(cs, ms, i, j)
    requires !Clean(cs[i])
    ensures IsOwn(cs[j].w, |cs[i].w.log|, Next(cs[j])) <==> EndPending(cs[i])
  {
    hide IsConducted, Produced, SendsTurn, FirstBoundary, Next, Clean, Inv, HandInv, SysInv, Own, Render, Extent;
    InRange(cs, ms, i, j, id);
    PendingOrClean(cs, ms, i, j, id);
    HeldIsFirst(cs, ms, i, j, id);
    RunningAfterSend(cs, ms, i, id);
    InvAt(cs, ms, i);
    var n, q := |cs[i].w.log|, Next(cs[j]);
    ProducedIsRendered(cs[i].w);
    AtLeastAlong(cs, ms, i, j, n, Extent(cs[i].w, n));
    if q' :| FirstFrom(Produced(cs[i].w), Next(cs[i]), q') && Produced(cs[i].w)[q'].Ended? {
      PendingIsHeld(cs, ms, i, j, id, q');
    }
  }

  /**
   The boundary a sent turn is given is its own exactly when nothing was pending and no
   completion was owed at the Send, or the end of the session was what was pending.
   */
  lemma OwnExactlyWhen(cs: seq<Sys>, ms: seq<Move>, i: int, j: int, id: nat)
    requires IsConducted(cs, ms) && SendsTurn(cs, ms, i, id) && FirstBoundary(cs, ms, i, j)
    ensures IsOwn(cs[j].w, |cs[i].w.log|, Next(cs[j])) <==>
              (Clean(cs[i]) && !Awaiting(cs[i].w)) || EndPending(cs[i])
  {
    hide IsConducted, SendsTurn, FirstBoundary, Clean, EndPending, IsOwn, Awaiting, Produced, Next;
    InRange(cs, ms, i, j, id);
    if !Clean(cs[i]) {
      PendingIsOwnOnlyAtTheEnd(cs, ms, i, j, id);
    } else {
      CleanHasNoEnd(cs, ms, i, id);
      if Awaiting(cs[i].w) {
        CleanButOwedIsNot(cs, ms, i, j, id);
      } else {
        CleanAndSettledIsOwn(cs, ms, i, j, id);
      }
    }
  }

  lemma CleanHasNoEnd(cs: seq<Sys>, ms: seq<Move>, i: int, id: nat)
    requires IsConducted(cs, ms) && SendsTurn(cs, ms, i, id) && Clean(cs[i])
    ensures !EndPending(cs[i])
  {
    hide Produced, Next;
  }

  // ----- polite agents owe nothing ------------------------------------------

  /** The agent emits a terminal event only while a turn is open. */
  ghost predicate PoliteAgent(cs: seq<Sys>, ms: seq<Move>) {
    && |cs| == |ms| + 1
    && forall k {:trigger ms[k]} :: 0 <= k < |ms| && ms[k].OnSession? && ms[k].step.Decode? && Terminal(ms[k].step.ev) ==>
         ApplyDecode(cs[k].w, ms[k].step.ev).turn.Some?
  }

  lemma {:induction false} PoliteOwesNothing(cs: seq<Sys>, ms: seq<Move>, k: nat)
    requires IsConducted(cs, ms) && PoliteAgent(cs, ms) && k < |cs|
    ensures EndsOpenTurns(cs[k].w) && Owed(cs[k].w)
  {
    hide EndsOpenTurns, Owed, PoliteAgent;
    if k > 0 {
      hide IsConducted;
      PoliteOwesNothing(cs, ms, k - 1);
      PoliteNext(cs, ms, k - 1);
    } else {
      OpenedIsPolite();
    }
  }

  lemma OpenedIsPolite()
    ensures EndsOpenTurns(CONDUCTED.w) && Owed(CONDUCTED.w)
  {
    OpenedOwesNothing();
  }

  lemma PoliteNext(cs: seq<Sys>, ms: seq<Move>, k: nat)
    requires IsConducted(cs, ms) && PoliteAgent(cs, ms) && k < |ms|
    requires EndsOpenTurns(cs[k].w) && Owed(cs[k].w)
    ensures EndsOpenTurns(cs[k + 1].w) && Owed(cs[k + 1].w)
  {
    hide EndsOpenTurns, Owed, SysInv, Inv, HandInv, Moved, CanMove, Apply, Enabled;
    InvAt(cs, ms, k);
    var l := MoveIsStep(cs[k], ms[k]);
    if l.Some? {
      EndsOpenTurnsStep(cs[k].w, l.value);
      OwedStep(cs[k].w, l.value);
    }
  }

  /** With a polite agent, then, a turn is given its own boundary exactly when nothing was pending but the end. */
  lemma PoliteOwnExactlyWhen(cs: seq<Sys>, ms: seq<Move>, i: int, j: int, id: nat)
    requires IsConducted(cs, ms) && SendsTurn(cs, ms, i, id) && FirstBoundary(cs, ms, i, j) && PoliteAgent(cs, ms)
    ensures IsOwn(cs[j].w, |cs[i].w.log|, Next(cs[j])) <==> Clean(cs[i]) || EndPending(cs[i])
  {
    hide IsConducted, SendsTurn, FirstBoundary, Clean, EndPending, IsOwn, Produced, Next, PoliteAgent, Inv;
    OwnExactlyWhen(cs, ms, i, j, id);
    RunningAfterSend(cs, ms, i, id);
    PoliteOwesNothing(cs, ms, i);
    InvAt(cs, ms, i);
    IdleOwesNothing(cs[i].w);
  }

  lemma IdleOwesNothing(w: World)
    requires Inv(w) && EndsOpenTurns(w) && Owed(w) && w.s.life.Idle?
    ensures !Awaiting(w)
  {}

  // ----- an instance of misattribution -------------------------------------

  /**
   The first turn ends before anyone awaits it; the turn sent next is given its result, and not
   its own.
   */
  lemma TurnIsGivenAnothers() returns (cs: seq<Sys>, ms: seq<Move>, i: nat, j: nat, id: nat)
    ensures IsConducted(cs, ms) && SendsTurn(cs, ms, i, id) && FirstBoundary(cs, ms, i, j) && j + 2 == |ms|
    ensures cs[j].hand.ev.TurnComplete? && Got(cs[|ms|].outcomes, id) == [OutcomeOf(cs[j].hand.ev)]
    ensures !IsOwn(cs[j].w, |cs[i].w.log|, Next(cs[j]))
  {
    assert IsConducted([CONDUCTED], []);
    cs, ms := AgentEndsATurn([CONDUCTED], []);
    id := cs[|ms|].nextId;
    i, j := |ms| + 1, |ms| + 4;
    cs, ms := SendsAndReads(cs, ms);
    SentIsProduced(cs[i].w);
    StaleIsNotOwn(cs, ms, i, j, id);
  }

  /** A turn is sent while the completion of the first one waits to be read. */
  lemma SendsAndReads(cs: seq<Sys>, ms: seq<Move>) returns (cs': seq<Sys>, ms': seq<Move>)
    requires IsConducted(cs, ms)
    requires var c := cs[|ms|];
             && c.w.s.life.Idle? && !c.w.ended && |c.w.queue| == 1 && c.w.queue[0].TurnComplete?
             && c.slot.None? && c.mu.NoCaller? && c.hand.Empty? && Got(c.outcomes, c.nextId) == []
    ensures IsConducted(cs', ms') && |ms'| == |ms| + 6
    ensures var i, j, id := |ms| + 1, |ms| + 4, cs[|ms|].nextId;
            && SendsTurn(cs', ms', i, id) && FirstBoundary(cs', ms', i, j)
            && cs'[j].hand.ev.TurnComplete? && cs'[j].hand.ev == cs[|ms|].w.queue[0]
            && Got(cs'[|ms'|].outcomes, id) == [OutcomeOf(cs'[j].hand.ev)]
            && |cs'[i].w.sent| == |cs[|ms|].w.sent| && Next(cs'[j]) == |cs'[i].w.sent| - 1
  {
    cs', ms' := Play(cs, ms, Register);
    cs', ms' := Play(cs', ms', CallSend);
    cs', ms' := Play(cs', ms', Encoded(true));
    cs', ms' := Play(cs', ms', Pop);
    cs', ms' := Play(cs', ms', Handle);
    cs', ms' := Play(cs', ms', Deliver);
  }

  lemma SentIsProduced(w: World)
    ensures |w.sent| <= |Produced(w)|
  {}

  lemma StaleIsNotOwn(cs: seq<Sys>, ms: seq<Move>, i: int, j: int, id: nat)
    requires IsConducted(cs, ms) && SendsTurn(cs, ms, i, id) && FirstBoundary(cs, ms, i, j)
    requires cs[j].hand.ev.TurnComplete? && Next(cs[j]) < |Produced(cs[i].w)|
    ensures !IsOwn(cs[j].w, |cs[i].w.log|, Next(cs[j]))
  {
    hide IsConducted, Produced, SendsTurn, FirstBoundary, Clean, IsOwn, Awaiting, Next;
    InRange(cs, ms, i, j, id);
    OwnExactlyWhen(cs, ms, i, j, id);
    PendingOrClean(cs, ms, i, j, id);
    if q :| FirstFrom(Produced(cs[i].w), Next(cs[i]), q) && Produced(cs[i].w)[q].Ended? {
      PendingIsHeld(cs, ms, i, j, id, q);
    }
  }

  // ----- every turn that is not lost is answered in the end -----------------

  /** The write of this very Send does not fail. */
  ghost predicate Written(cs: seq<Sys>, ms: seq<Move>, i: int, k: int, id: nat) {
    && 0 <= i <= k <= |ms| && |cs| == |ms| + 1
    && forall m {:trigger ms[m]} :: i < m < k && ms[m] == Encoded(false) ==> cs[m].mu != Sent(id)
  }

  lemma ClosedCarriesTheEnd(w: World)
    requires Inv(w) && w.closed
    ensures Produced(w) == w.sent && |w.sent| > 0 && w.sent[|w.sent| - 1].Ended?
  {
    if w.todo != [] {
      assert w.todo[0] == Shutdown(w.reason, 3);
      assert w.todo[1..] == [];
    }
    assert Emits(w.todo) == [];
    assert w.sent + [] == w.sent;
    assert Produced(w) == Render(w.log) + [Ended(w.reason)];
  }

  lemma IdleHasSentNoEnd(w: World, q: nat)
    requires Inv(w) && w.s.life.Idle? && q < |w.sent|
    ensures !w.sent[q].Ended?
  {
    RenderHasNoEnd(w.log);
    if w.ended {
      EndIsPending(w);
    }
    assert Produced(w)[q] == w.sent[q];
  }

  /** Until a boundary is acted on the turn keeps its slot, so no other write can fail in between. */
  lemma {:induction false} NoWriteFails(cs: seq<Sys>, ms: seq<Move>, i: nat, j: int, k: int, id: nat)
    requires IsConducted(cs, ms) && SendsTurn(cs, ms, i, id) && Written(cs, ms, i, k, id)
    requires i < j <= k && NoneActedOn(cs, ms, i + 1, j)
    ensures forall m :: i < m < j ==> ms[m] != Encoded(false)
  {
    hide ActsOnBoundary, SendsTurn, IsConducted;
    if i + 1 < j {
      assert NoneActedOn(cs, ms, i + 1, j - 1);
      NoWriteFails(cs, ms, i, j - 1, k, id);
      if ms[j - 1] == Encoded(false) {
        FailingIsItsOwn(cs, ms, i, j - 1, id);
      }
    }
  }

  lemma FailingIsItsOwn(cs: seq<Sys>, ms: seq<Move>, i: nat, m: nat, id: nat)
    requires IsConducted(cs, ms) && SendsTurn(cs, ms, i, id) && i < m < |ms| && NoneActedOn(cs, ms, i + 1, m)
    requires (forall h :: i < h < m ==> ms[h] != Encoded(false)) && ms[m] == Encoded(false)
    ensures |cs| == |ms| + 1 && cs[m].mu == Sent(id)
  {
    hide ActsOnBoundary, SendsTurn, IsConducted, SysInv, Inv, HandInv, CanMove, InSlot, NoneActedOn;
    SameLength(cs, ms);
    ConductorDelivery.AfterSend(cs, ms, i, id);
    InSlotAlong(cs, ms, i + 1, m, id);
    InvAt(cs, ms, m);
    SentIsTheSlots(cs[m], ms[m], id);
  }

  lemma SentIsTheSlots(c: Sys, m: Move, id: nat)
    requires SysInv(c) && CanMove(c, m) && InSlot(c, id) && m == Encoded(false)
    ensures c.mu == Sent(id)
  {}

  lemma {:induction false} FirstActedOn(cs: seq<Sys>, ms: seq<Move>, i: int, k: int) returns (j: int)
    requires 0 <= i <= k <= |ms| && |cs| == |ms| + 1 && !NoneActedOn(cs, ms, i, k)
    ensures i <= j < k && NoneActedOn(cs, ms, i, j) && ActsOnBoundary(cs[j], ms[j])
    decreases k - i
  {
    hide ActsOnBoundary;
    if ActsOnBoundary(cs[i], ms[i]) {
      j := i;
    } else {
      assert NoneActedOn(cs, ms, i + 1, k) ==> NoneActedOn(cs, ms, i, k);
      j := FirstActedOn(cs, ms, i + 1, k);
    }
  }

  /** Once the end of the session has been read, some boundary has been acted on since the Send. */
  lemma SomeBoundaryWasActedOn(cs: seq<Sys>, ms: seq<Move>, i: nat, k: nat, id: nat)
    requires IsConducted(cs, ms) && SendsTurn(cs, ms, i, id) && i < k < |cs|
    requires cs[k].w.closed && cs[k].w.queue == [] && cs[k].hand.Empty?
    ensures !NoneActedOn(cs, ms, i + 1, k)
  {
    hide ActsOnBoundary, SendsTurn, IsConducted, Inv, HandInv, SlotInv, Produced;
    SameLength(cs, ms);
    if NoneActedOn(cs, ms, i + 1, k) {
      RunningAfterSend(cs, ms, i, id);
      ConductorDelivery.AfterSend(cs, ms, i, id);
      PassedAlong(cs, ms, i + 1, k, Next(cs[i]), Produced(cs[i].w));
      InvAt(cs, ms, i);
      InvAt(cs, ms, k);
      ClosedCarriesTheEnd(cs[k].w);
      HeldIsNext(cs[i]);
      var q := |cs[k].w.sent| - 1;
      EndedIsBoundary(cs[k].w.sent[q]);
      if q < Next(cs[i]) {
        SentIsPrefix(cs[i].w, cs[k].w);
        IdleHasSentNoEnd(cs[i].w, q);
        assert false;
      }
    }
  }

  lemma EndedIsBoundary(b: StreamEvent)
    ensures b.Ended? ==> Boundary(b)
  {}

  lemma SentIsPrefix(v: World, w: World)
    requires Produced(v) <= Produced(w) && Produced(w) == w.sent
    ensures v.sent <= w.sent
  {
    assert v.sent <= Produced(v);
  }

  /**
   When the session is over, its stream read to the end and the reader's hands empty, every turn
   whose Send was written has been given exactly one outcome, unless it was lost to a start of the
   agent's own.
   */
  lemma DrainedMeansAnswered(cs: seq<Sys>, ms: seq<Move>, i: nat, k: nat, id: nat) returns (j: int)
    requires IsConducted(cs, ms) && SendsTurn(cs, ms, i, id) && i < k < |cs| && Written(cs, ms, i, k, id)
    requires cs[k].w.closed && cs[k].w.queue == [] && cs[k].hand.Empty?
    ensures FirstBoundary(cs, ms, i, j) && j < k
    ensures Got(cs[k].outcomes, id) == if StartPending(cs[i]) then [] else [OutcomeOf(cs[j].hand.ev)]
  {
    hide ActsOnBoundary, SendsTurn, IsConducted, StartPending;
    SameLength(cs, ms);
    SomeBoundaryWasActedOn(cs, ms, i, k, id);
    j := FirstActedOn(cs, ms, i + 1, k);
    NoWriteFails(cs, ms, i, j, k, id);
    ActedOnIsHeld(cs[j], ms[j]);
    assert NoneActedOn(cs, ms, i + 1, j);
    assert FirstBoundary(cs, ms, i, j);
    LostExactlyWhenStartPending(cs, ms, i, j, k, id);
  }

  lemma ActedOnIsHeld(c: Sys, m: Move)
    requires ActsOnBoundary(c, m)
    ensures c.hand.Holding?
  {}
}
