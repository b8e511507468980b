/**
 Which turn boundary a conducted turn is given: the first one the reader acts on after the turn was
 registered, which may have been produced before it was sent.
 */
module ConductorDelivery {
  /*
   RunTurn registers its turn before it sends, so that none of its own events can reach a
   turn-less conductor. But a boundary of an earlier turn may still be unread then, and the
   reader acts on it without asking whose it is. The boundary a turn is given was produced
   after its Send exactly when none was produced and not yet acted on at that moment; whose
   it is, and when the turn is lost, is settled in ConductorFate.
   */

  import opened Prelude
  import opened SessionMachine
  import opened SessionInvariant
  import opened SessionSafety
  import opened ConductorMachine
  import opened ConductorSafety

  ghost predicate SendsTurn(cs: seq<Sys>, ms: seq<Move>, i: int, id: nat) {
    && 0 <= i < |ms| && |cs| == |ms| + 1
    && ms[i].CallSend? && cs[i].mu == Registered(id)
    && SendVerdict(cs[i].w.s) == Accepted
  }

  ghost predicate ActsOnBoundary(c: Sys, m: Move) {
    m.Handle? && c.hand.Holding? && Boundary(c.hand.ev)
  }

  /** j is the first step after i at which the reader acts on a boundary, with no failed write between. */
  ghost predicate FirstBoundary(cs: seq<Sys>, ms: seq<Move>, i: int, j: int) {
    && -1 <= i < j < |ms| && |cs| == |ms| + 1
    && ActsOnBoundary(cs[j], ms[j])
    && forall k {:trigger ms[k]} :: i < k < j ==> !ActsOnBoundary(cs[k], ms[k]) && ms[k] != Encoded(false)
  }

  ghost predicate InSlot(c: Sys, id: nat) {
    c.slot == Some(Turn(id, false)) && !c.mu.Registered?
  }

  /** Since the reader was at `from`, when `produced` had been produced, it acted on no boundary. */
  ghost predicate Passed(c: Sys, from: int, produced: seq<StreamEvent>) {
    && produced <= Produced(c.w)
    && 0 <= from <= Next(c)
    && NoBoundary(Produced(c.w), from, Next(c))
  }

  ghost predicate NoneActedOn(cs: seq<Sys>, ms: seq<Move>, i: int, j: int) {
    && 0 <= i <= j <= |ms| && |cs| == |ms| + 1
    && forall k {:trigger ms[k]} :: i <= k < j ==> !ActsOnBoundary(cs[k], ms[k])
  }

  lemma SameLength(cs: seq<Sys>, ms: seq<Move>)
    requires IsConducted(cs, ms)
    ensures |cs| == |ms| + 1
  {}

  lemma WorldMoves(c: Sys, m: Move)
    requires Phase(c.w) && Faithful(c.w) && Completing(c.w) && CanMove(c, m)
    ensures Produced(c.w) <= Produced(Moved(c, m).w)
  {
    match m
    case OnSession(step) => ProducedGrows(c.w, step);
    case CallSend => ProducedGrows(c.w, Send);
    case Pop => ProducedGrows(c.w, Take);
    case Answer => ProducedGrows(c.w, Respond(c.hand.req.id));
    case Handle =>
    case Deliver =>
    case _ =>
  }

  /** The reader is never ahead of the stream, and what it holds is the event at its position. */
  lemma HeldIsNext(c: Sys)
    requires HandInv(c)
    ensures 0 <= Next(c) <= |c.w.sent| <= |Produced(c.w)|
    ensures c.hand.Holding? ==> Next(c) < |Produced(c.w)| && Produced(c.w)[Next(c)] == c.hand.ev
  {
  }

  lemma NextMoves(c: Sys, m: Move)
    requires HandInv(c) && CanMove(c, m)
    ensures Next(Moved(c, m)) == Next(c) + (if m.Handle? then 1 else 0)
  {
    match m
    case OnSession(step) => SentGrows(c.w, step);
    case CallSend => SentGrows(c.w, Send);
    case Answer => SentGrows(c.w, Respond(c.hand.req.id));
    case Handle =>
    case _ =>
  }

  lemma SlotHeld(c: Sys, m: Move, id: nat)
    requires SlotInv(c) && CanMove(c, m) && InSlot(c, id)
    requires !ActsOnBoundary(c, m) && m != Encoded(false)
    ensures InSlot(Moved(c, m), id)
  {
    match m
    case Handle =>
    case _ =>
  }

  lemma PassedStep(c: Sys, m: Move, from: int, produced: seq<StreamEvent>)
    requires SysInv(c) && CanMove(c, m) && Passed(c, from, produced) && !ActsOnBoundary(c, m)
    ensures Passed(Moved(c, m), from, produced)
  {
    hide SysInv, Produced, Moved, CanMove, Next;
    StreamMoves(c, m);
    HeldEvent(c);
  }

  lemma HeldEvent(c: Sys)
    requires SysInv(c)
    ensures Next(c) <= |Produced(c.w)|
    ensures c.hand.Holding? ==> Next(c) < |Produced(c.w)| && Produced(c.w)[Next(c)] == c.hand.ev
  {
    hide HandInv, Inv, SlotInv, Produced, Next;
    HeldIsNext(c);
  }

  lemma StreamMoves(c: Sys, m: Move)
    requires SysInv(c) && CanMove(c, m)
    ensures Produced(c.w) <= Produced(Moved(c, m).w)
    ensures Next(Moved(c, m)) == Next(c) + (if m.Handle? then 1 else 0)
    ensures m.Handle? ==> c.hand.Holding?
  {
    hide Produced, Next, Phase, Faithful, Completing, Tracking, Blocks, Accounted, HandInv, SlotInv, Moved;
    WorldMoves(c, m);
    NextMoves(c, m);
  }

  lemma {:induction false} PassedAlong(cs: seq<Sys>, ms: seq<Move>, i: int, j: int, from: int, produced: seq<StreamEvent>)
    requires IsConducted(cs, ms) && NoneActedOn(cs, ms, i, j) && Passed(cs[i], from, produced)
    ensures Passed(cs[j], from, produced)
  {
    hide Passed, ActsOnBoundary, IsConducted;
    SameLength(cs, ms);
    if i < j {
      var k := j - 1;
      assert NoneActedOn(cs, ms, i, k);
      assert !ActsOnBoundary(cs[k], ms[k]);
      PassedAlong(cs, ms, i, k, from, produced);
      PassedNext(cs, ms, k, from, produced);
    }
  }

  lemma PassedNext(cs: seq<Sys>, ms: seq<Move>, k: nat, from: int, produced: seq<StreamEvent>)
    requires IsConducted(cs, ms) && k < |ms| && Passed(cs[k], from, produced) && !ActsOnBoundary(cs[k], ms[k])
    ensures Passed(cs[k + 1], from, produced)
  {
    hide Passed, ActsOnBoundary, SysInv, Moved, CanMove;
    ConductedReachable(cs, ms, k);
    PassedStep(cs[k], ms[k], from, produced);
  }

  lemma {:induction false} InSlotAlong(cs: seq<Sys>, ms: seq<Move>, i: int, j: int, id: nat)
    requires IsConducted(cs, ms) && NoneActedOn(cs, ms, i, j) && InSlot(cs[i], id)
    requires forall k :: i <= k < j ==> ms[k] != Encoded(false)
    ensures InSlot(cs[j], id)
  {
    hide InSlot, ActsOnBoundary, IsConducted;
    SameLength(cs, ms);
    if i < j {
      var k := j - 1;
      assert NoneActedOn(cs, ms, i, k);
      assert !ActsOnBoundary(cs[k], ms[k]);
      InSlotAlong(cs, ms, i, k, id);
      InSlotNext(cs, ms, k, id);
    }
  }

  lemma InSlotNext(cs: seq<Sys>, ms: seq<Move>, k: nat, id: nat)
    requires IsConducted(cs, ms) && k < |ms| && InSlot(cs[k], id)
    requires !ActsOnBoundary(cs[k], ms[k]) && ms[k] != Encoded(false)
    ensures InSlot(cs[k + 1], id)
  {
    hide InSlot, Inv, HandInv, SlotInv, ActsOnBoundary, Moved, CanMove;
    ConductedReachable(cs, ms, k);
    SlotHeld(cs[k], ms[k], id);
  }

  lemma OwnMoves(c: Sys, m: Move)
    requires Inv(c.w) && CanMove(c, m)
    ensures Produced(c.w) <= Produced(Moved(c, m).w)
  {
    hide Phase, Faithful, Completing, Tracking, Blocks, Accounted, Produced;
    WorldMoves(c, m);
  }

  lemma OwnStillFirst(c: Sys, m: Move, p: nat, n: nat)
    requires Inv(c.w) && CanMove(c, m) && p <= |Produced(c.w)| && OwnComesFirst(c.w, p, n)
    ensures p <= |Produced(Moved(c, m).w)| && OwnComesFirst(Moved(c, m).w, p, n)
  {
    hide Inv, OwnComesFirst, Produced, Work, Outputs;
    OwnMoves(c, m);
    match m
    case OnSession(step) => OwnComesFirstStep(c.w, step, p, n);
    case CallSend => OwnComesFirstStep(c.w, Send, p, n);
    case Pop => OwnComesFirstStep(c.w, Take, p, n);
    case Answer => OwnComesFirstStep(c.w, Respond(c.hand.req.id), p, n);
    case Handle =>
    case Deliver =>
    case _ =>
  }

  lemma {:induction false} OwnFirstAlong(cs: seq<Sys>, ms: seq<Move>, i: int, j: int, p: nat, n: nat)
    requires IsConducted(cs, ms) && 0 <= i <= j < |cs|
    requires p <= |Produced(cs[i].w)| && OwnComesFirst(cs[i].w, p, n)
    ensures p <= |Produced(cs[j].w)| && OwnComesFirst(cs[j].w, p, n)
  {
    hide OwnComesFirst, Produced, IsConducted;
    SameLength(cs, ms);
    if i < j {
      OwnFirstAlong(cs, ms, i, j - 1, p, n);
      OwnFirstNext(cs, ms, j - 1, p, n);
    }
  }

  lemma OwnFirstNext(cs: seq<Sys>, ms: seq<Move>, k: nat, p: nat, n: nat)
    requires IsConducted(cs, ms) && k < |ms|
    requires p <= |Produced(cs[k].w)| && OwnComesFirst(cs[k].w, p, n)
    ensures p <= |Produced(cs[k + 1].w)| && OwnComesFirst(cs[k + 1].w, p, n)
  {
    hide OwnComesFirst, Produced, Inv, HandInv, SlotInv, Moved, CanMove;
    ConductedReachable(cs, ms, k);
    OwnStillFirst(cs[k], ms[k], p, n);
  }

  /** Right after an accepted Send: the turn holds the slot, and if nothing is pending its boundary comes next. */
  lemma AfterSend(cs: seq<Sys>, ms: seq<Move>, i: int, id: nat)
    requires IsConducted(cs, ms) && SendsTurn(cs, ms, i, id)
    ensures Produced(cs[i + 1].w) == Produced(cs[i].w)
    ensures InSlot(cs[i + 1], id) && Passed(cs[i + 1], Next(cs[i]), Produced(cs[i].w))
    ensures !Awaiting(cs[i].w) && !cs[i].w.ended ==>
              OwnComesFirst(cs[i + 1].w, |Produced(cs[i].w)|, |cs[i].w.log|)
  {
    ConductedReachable(cs, ms, i);
    var c, c' := cs[i], cs[i + 1];
    assert c' == Moved(c, ms[i]);
    assert c'.w == Apply(c.w, Send);
    HeldIsNext(c);
  }

  /** An accepted Send with nothing pending finds the decoder still running. */
  lemma CleanMeansLive(c: Sys)
    requires SysInv(c) && Clean(c) && c.w.s.life.Idle?
    ensures !c.w.ended
  {
    hide Inv, Produced;
    HeldIsNext(c);
    if c.w.ended {
      PendingEnd(c.w);
    }
  }

  lemma PendingEnd(w: World)
    requires Inv(w) && w.ended && w.s.life.Idle?
    ensures |w.sent| < |Produced(w)| && Boundary(Produced(w)[|w.sent|])
  {
    EndIsPending(w);
  }

  lemma EndIsPending(w: World)
    requires Phase(w) && w.ended && w.s.life.Idle?
    ensures |w.sent| < |Produced(w)| && Produced(w)[|w.sent|] == Ended(w.reason)
  {
    assert |w.todo| == 4;
    assert w.todo[0] == Die && w.todo[1] == Emit(Ended(w.reason));
    assert Emits(w.todo) == [] + Emits(w.todo[1..]);
    assert Emits(w.todo[1..])[0] == Ended(w.reason);
  }

  /** The first boundary at or after p, when the reader has passed no boundary since p. */
  lemma FirstOwnIsHeld(c: Sys, p: nat, n: nat, from: int)
    requires HandInv(c) && OwnComesFirst(c.w, p, n)
    requires c.hand.Holding? && Boundary(c.hand.ev)
    requires 0 <= from <= p <= Next(c) && NoBoundary(Produced(c.w), from, Next(c))
    ensures Own(c.w, n, c.hand.ev)
  {
    HeldIsNext(c);
    var made := Produced(c.w);
    assert Boundary(made[Next(c)]);
    var q :| p <= q < |made| && Boundary(made[q]) && NoBoundary(made, p, q) && Own(c.w, n, made[q]);
    assert q == Next(c);
  }

  lemma HoldsUntilBoundary(cs: seq<Sys>, ms: seq<Move>, i: int, j: int, id: nat)
    requires IsConducted(cs, ms) && SendsTurn(cs, ms, i, id) && FirstBoundary(cs, ms, i, j)
    ensures InSlot(cs[j], id) && Passed(cs[j], Next(cs[i]), Produced(cs[i].w))
    ensures HandInv(cs[j]) && cs[j].hand.Holding? && Boundary(cs[j].hand.ev)
  {
    AfterSend(cs, ms, i, id);
    assert NoneActedOn(cs, ms, i + 1, j);
    InSlotAlong(cs, ms, i + 1, j, id);
    PassedAlong(cs, ms, i + 1, j, Next(cs[i]), Produced(cs[i].w));
    ConductedReachable(cs, ms, j);
  }

  /**
   For every interleaving: the turn still holds the slot when the reader acts on the first
   boundary after its Send, and that boundary was produced after the Send exactly when no
   boundary was pending at the Send.
   */
  lemma FreshExactlyWhenClean(cs: seq<Sys>, ms: seq<Move>, i: int, j: int, id: nat)
    requires IsConducted(cs, ms) && SendsTurn(cs, ms, i, id) && FirstBoundary(cs, ms, i, j)
    ensures cs[j].slot == Some(Turn(id, false))
    ensures Next(cs[j]) >= |Produced(cs[i].w)| <==> Clean(cs[i])
  {
    HoldsUntilBoundary(cs, ms, i, j, id);
    HeldIsNext(cs[j]);
  }

  /**
   ... and if none was pending, nor being made, that boundary is the turn's own: the
   TurnComplete whose result closes the turn this Send opened, or the session's end.
   */
  lemma CleanTurnGetsItsOwnBoundary(cs: seq<Sys>, ms: seq<Move>, i: int, j: int, id: nat)
    requires IsConducted(cs, ms) && SendsTurn(cs, ms, i, id) && FirstBoundary(cs, ms, i, j)
    requires Clean(cs[i]) && !Awaiting(cs[i].w)
    ensures cs[j].slot == Some(Turn(id, false))
    ensures Own(cs[j].w, |cs[i].w.log|, cs[j].hand.ev)
  {
    ConductedReachable(cs, ms, i);
    CleanMeansLive(cs[i]);
    AfterSend(cs, ms, i, id);
    FreshExactlyWhenClean(cs, ms, i, j, id);
    HoldsUntilBoundary(cs, ms, i, j, id);
    OwnFirstAlong(cs, ms, i + 1, j, |Produced(cs[i].w)|, |cs[i].w.log|);
    HeldIsNext(cs[i]);
    FirstOwnIsHeld(cs[j], |Produced(cs[i].w)|, |cs[i].w.log|, Next(cs[i]));
  }

  // ----- Await: the first turn ----------------------------------------------

  ghost predicate Awaits(cs: seq<Sys>, ms: seq<Move>, i: int, id: nat) {
    && 0 <= i < |ms| && |cs| == |ms| + 1
    && ms[i].Await? && cs[i].slot.None? && cs[i].nextId == id
  }

  /**
   An Await registered before the reader acted on any boundary is given the boundary of
   the turn Open submitted, whatever was already unread by then.
   */
  lemma AwaitGetsTheFirstTurn(cs: seq<Sys>, ms: seq<Move>, i: int, j: int, id: nat)
    requires IsConducted(cs, ms) && Awaits(cs, ms, i, id) && FirstBoundary(cs, ms, i, j)
    requires NoneActedOn(cs, ms, 0, i)
    ensures cs[j].slot == Some(Turn(id, false))
    ensures Own(cs[j].w, 0, cs[j].hand.ev)
  {
    assert !ActsOnBoundary(cs[i], ms[i]);
    assert NoneActedOn(cs, ms, 0, j);
    assert cs[i + 1] == Moved(cs[i], ms[i]);
    assert NoneActedOn(cs, ms, i + 1, j);
    InSlotAlong(cs, ms, i + 1, j, id);
    assert Produced(OPENED) == [];
    PassedAlong(cs, ms, 0, j, 0, []);
    OwnFirstAlong(cs, ms, 0, j, 0, 0);
    ConductedReachable(cs, ms, j);
    FirstOwnIsHeld(cs[j], 0, 0, 0);
  }

  // ----- what the caller is told --------------------------------------------

  /** The outcome the code makes of a boundary. */
  function OutcomeOf(b: StreamEvent): Outcome {
    match b
    case TurnComplete(result) => Outcome(Some(result), result.error)
    case Ended(reason) => Outcome(None, Some(reason))
    case _ => Outcome(None, None)
  }

  /** Turn `id` is out of the slot for good; it has been, or is about to be, sent `o` (or nothing). */
  ghost predicate Settled(c: Sys, id: nat, o: Option<Outcome>) {
    && id < c.nextId
    && (c.slot.Some? ==> c.slot.value.id != id)
    && (c.mu.Registered? || c.mu.Sent? ==> c.mu.id != id)
    && if c.hand.Delivering? && c.hand.turn == Some(Turn(id, false))
       then o == Some(c.hand.outcome) && Got(c.outcomes, id) == []
       else (Got(c.outcomes, id) == [] && o.None?) || (o.Some? && Got(c.outcomes, id) == [o.value])
  }

  lemma SettledStep(c: Sys, m: Move, id: nat, o: Option<Outcome>)
    requires SlotInv(c) && CanMove(c, m) && Settled(c, id, o)
    ensures Settled(Moved(c, m), id, o)
  {
    match m
    case Handle =>
    case _ =>
  }

  lemma {:induction false} SettledAlong(cs: seq<Sys>, ms: seq<Move>, j: int, k: int, id: nat, o: Option<Outcome>)
    requires IsConducted(cs, ms) && 0 <= j <= k < |cs| && Settled(cs[j], id, o)
    ensures Settled(cs[k], id, o)
  {
    if j < k {
      hide Settled, IsConducted;
      SettledAlong(cs, ms, j, k - 1, id, o);
      SettledNext(cs, ms, k - 1, id, o);
    }
  }

  lemma SettledNext(cs: seq<Sys>, ms: seq<Move>, k: nat, id: nat, o: Option<Outcome>)
    requires IsConducted(cs, ms) && k < |ms| && Settled(cs[k], id, o)
    ensures Settled(cs[k + 1], id, o)
  {
    hide Settled, Inv, HandInv, SlotInv, Moved, CanMove;
    ConductedReachable(cs, ms, k);
    SettledStep(cs[k], ms[k], id, o);
  }

  /**
   The first boundary after the Send decides, for ever: a TurnComplete or the session's end
   is the only outcome the turn is ever sent; an unsolicited TurnStart replaces the turn in
   the slot, and it is never sent any outcome at all.
   */
  lemma FirstBoundaryDecides(cs: seq<Sys>, ms: seq<Move>, i: int, j: int, k: int, id: nat)
    requires IsConducted(cs, ms) && SendsTurn(cs, ms, i, id) && FirstBoundary(cs, ms, i, j)
    requires j < k < |cs|
    ensures cs[j].hand.ev.TurnStart? ==> Got(cs[k].outcomes, id) == []
    ensures !cs[j].hand.ev.TurnStart? ==>
              || Got(cs[k].outcomes, id) == [OutcomeOf(cs[j].hand.ev)]
              || (Got(cs[k].outcomes, id) == [] && cs[k].hand == Delivering(Some(Turn(id, false)), OutcomeOf(cs[j].hand.ev)))
  {
    HoldsUntilBoundary(cs, ms, i, j, id);
    ConductedReachable(cs, ms, j);
    var b := cs[j].hand.ev;
    var o := if b.TurnStart? then None else Some(OutcomeOf(b));
    assert cs[j + 1] == Moved(cs[j], ms[j]);
    assert Settled(cs[j + 1], id, o);
    SettledAlong(cs, ms, j + 1, k, id, o);
  }

  // ----- a turn that is lost ------------------------------------------------

  /** One more move; the run so far is kept. */
  lemma Play(cs: seq<Sys>, ms: seq<Move>, m: Move) returns (cs': seq<Sys>, ms': seq<Move>)
    requires IsConducted(cs, ms) && CanMove(cs[|ms|], m)
    ensures IsConducted(cs', ms')
    ensures cs' == cs + [Moved(cs[|ms|], m)] && ms' == ms + [m]
  {
    hide Moved, CanMove;
    cs', ms' := cs + [Moved(cs[|ms|], m)], ms + [m];
    assert forall i {:trigger ms'[i]} :: 0 <= i < |ms| ==> ms'[i] == ms[i] && cs'[i] == cs[i] && cs'[i + 1] == cs[i + 1];
  }

  /** Nothing in flight anywhere, and the session idle. */
  ghost predicate AtRest(c: Sys) {
    && c.w.s.life.Idle? && c.w.todo == [] && c.w.queue == [] && !c.w.ended
    && c.slot.None? && c.mu.NoCaller? && c.hand.Empty?
  }

  /** Such a state is reached by awaiting the first turn and collecting its result. */
  lemma AtRestIsReachable() returns (cs: seq<Sys>, ms: seq<Move>)
    ensures IsConducted(cs, ms) && AtRest(cs[|ms|]) && |Got(cs[|ms|].outcomes, 0)| == 1
  {
    hide Apply, Enabled;
    cs, ms := Play([CONDUCTED], [], Await);
    cs, ms := AgentEndsATurn(cs, ms);
    cs, ms := Collect(cs, ms);
  }

  lemma Collect(cs: seq<Sys>, ms: seq<Move>) returns (cs': seq<Sys>, ms': seq<Move>)
    requires IsConducted(cs, ms)
    requires var c := cs[|ms|];
             && c.mu.NoCaller? && c.hand.Empty? && c.slot == Some(Turn(0, false)) && Got(c.outcomes, 0) == []
             && |c.w.queue| == 1 && c.w.queue[0].TurnComplete?
             && c.w.s.life.Idle? && c.w.todo == [] && !c.w.ended
    ensures IsConducted(cs', ms') && AtRest(cs'[|ms'|]) && |Got(cs'[|ms'|].outcomes, 0)| == 1
  {
    cs', ms' := Play(cs, ms, Pop);
    cs', ms' := Play(cs', ms', Handle);
    cs', ms' := Play(cs', ms', Deliver);
  }

  /** An agent that runs a whole turn of its own leaves its two boundaries unread. */
  lemma AgentRunsATurn(cs: seq<Sys>, ms: seq<Move>) returns (cs': seq<Sys>, ms': seq<Move>)
    requires IsConducted(cs, ms) && AtRest(cs[|ms|])
    ensures IsConducted(cs', ms') && cs <= cs' && ms <= ms'
    ensures var c := cs'[|ms'|];
            && c.w.s.life.Idle? && c.w.todo == [] && !c.w.ended
            && |c.w.queue| == 2 && c.w.queue[0].TurnStart? && c.w.queue[1].TurnComplete?
            && c.slot.None? && c.mu.NoCaller? && c.hand.Empty?
  {
    var begin := Event("", true, Ignore);
    cs', ms' := Play(cs, ms, OnSession(Decode(begin)));
    assert Work(begin) == [];
    assert cs'[|ms'|].w.todo == [Emit(TurnStart)];
    cs', ms' := Play(cs', ms', OnSession(Pump));
    assert cs'[|ms'|].w.todo == [] && cs'[|ms'|].w.queue == [TurnStart];
    hide Moved;
    cs', ms' := AgentEndsATurn(cs', ms');
  }

  lemma AgentEndsATurn(cs: seq<Sys>, ms: seq<Move>) returns (cs': seq<Sys>, ms': seq<Move>)
    requires IsConducted(cs, ms)
    requires var c := cs[|ms|];
             c.w.s.life.Running? && c.w.todo == [] && !c.w.ended && c.mu.NoCaller? && c.hand.Empty?
    ensures IsConducted(cs', ms') && cs <= cs' && ms <= ms'
    ensures var c, c' := cs[|ms|], cs'[|ms'|];
            && c'.w.s.life.Idle? && c'.w.todo == [] && !c'.w.ended
            && |c'.w.queue| == |c.w.queue| + 1 && c.w.queue < c'.w.queue && c'.w.queue[|c.w.queue|].TurnComplete?
            && c' == c.(w := c'.w)
  {
    var done := Event("", false, Success);
    EndingATurn(cs[|ms|].w, done);
    cs', ms' := Play(cs, ms, OnSession(Decode(done)));
    cs', ms' := Play(cs', ms', OnSession(Pump));
    cs', ms' := Play(cs', ms', OnSession(Pump));
  }

  lemma EndingATurn(w: World, done: Event)
    requires w.s.life.Running? && w.todo == [] && !w.ended && done.kind.Success?
    ensures var w1 := ApplyDecode(w, done);
            && |w1.todo| == 1 && w1.todo[0].Finish?
            && var w2 := ApplyPump(w1);
            && |w2.todo| == 1 && w2.todo[0].Emit? && w2.todo[0].ev.TurnComplete?
            && var w3 := ApplyPump(w2);
            && w3.todo == [] && w3.s.life.Idle? && !w3.ended && w3.queue == w.queue + [w2.todo[0].ev]
  {
  }

  /**
   From any state at rest, the conductor can lose a turn its caller sent: the agent starts
   and ends a turn of its own, and RunTurn sends before the reader has acted on either
   boundary. Its Send is accepted, and it is never given an outcome.
   */
  lemma AgentTurnCanLoseASentTurn(cs: seq<Sys>, ms: seq<Move>)
      returns (cs': seq<Sys>, ms': seq<Move>, i: int, j: int, id: nat)
    requires IsConducted(cs, ms) && AtRest(cs[|ms|])
    ensures IsConducted(cs', ms') && cs <= cs' && ms <= ms'
    ensures SendsTurn(cs', ms', i, id) && FirstBoundary(cs', ms', i, j) && cs'[j].hand.ev.TurnStart?
    ensures j + 1 == |ms'|
  {
    cs', ms' := AgentRunsATurn(cs, ms);
    id := cs'[|ms'|].nextId;
    cs', ms' := Play(cs', ms', Register);
    i := |ms'|;
    cs', ms' := Play(cs', ms', CallSend);
    cs', ms' := Play(cs', ms', Encoded(true));
    cs', ms' := Play(cs', ms', Pop);
    j := |ms'|;
    cs', ms' := Play(cs', ms', Handle);
  }
}
