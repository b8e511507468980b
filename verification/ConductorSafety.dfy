/**
 What every interleaving of a conducted session keeps.

 The slot's turn has been given nothing yet, and what the reader holds is the next event of
 the stream; so its send into the one-place channel never blocks and no turn is given two
 outcomes. The second half is about the stream alone: once a Send has opened a turn, the
 first boundary produced from there on is that turn's own completion or the session's end,
 and no step of anyone changes that.
 */
module ConductorSafety {
  import opened Prelude
  import opened SessionMachine
  import opened SessionInvariant
  import opened SessionSafety
  import opened ConductorMachine

  // ----- at most one outcome per turn ---------------------------------------

  ghost predicate Unserved(c: Sys, t: Turn) {
    t.id < c.nextId && (!t.unsolicited ==> Got(c.outcomes, t.id) == [])
  }

  ghost predicate SlotInv(c: Sys) {
    && (c.mu.Registered? ==> c.slot == Some(Turn(c.mu.id, false)))
    && (c.mu.Sent? ==> c.slot == Some(Turn(c.mu.id, false)))
    && (c.slot.Some? ==> Unserved(c, c.slot.value))
    && (c.hand.Delivering? && c.hand.turn.Some? ==>
          && Unserved(c, c.hand.turn.value)
          && (c.slot.Some? ==> c.slot.value.id != c.hand.turn.value.id))
    && (forall id :: id in c.outcomes ==> id < c.nextId && |c.outcomes[id]| <= 1)
  }

  /** The id was given to a call of RunTurn or Await that found the slot empty. */
  ghost predicate AskedFor(cs: seq<Sys>, ms: seq<Move>, n: nat, id: nat)
    requires n <= |ms| && n <= |cs|
  {
    exists i :: 0 <= i < n && (ms[i].Register? || ms[i].Await?) && cs[i].slot.None? && cs[i].nextId == id
  }

  /** Whoever is to be told anything, or has been, has asked for it. */
  ghost predicate Asked(c: Sys, cs: seq<Sys>, ms: seq<Move>, n: nat)
    requires n <= |ms| && n <= |cs|
  {
    && (c.slot.Some? && !c.slot.value.unsolicited ==> AskedFor(cs, ms, n, c.slot.value.id))
    && (c.hand.Delivering? && c.hand.turn.Some? && !c.hand.turn.value.unsolicited ==> AskedFor(cs, ms, n, c.hand.turn.value.id))
    && (forall id :: id in c.outcomes ==> AskedFor(cs, ms, n, id))
  }

  lemma AskedStep(cs: seq<Sys>, ms: seq<Move>, n: nat)
    requires n < |ms| && n < |cs| && CanMove(cs[n], ms[n]) && Asked(cs[n], cs, ms, n)
    ensures Asked(Moved(cs[n], ms[n]), cs, ms, n + 1)
  {
    var c, m, next := cs[n], ms[n], n + 1;
    forall id | AskedFor(cs, ms, n, id) || ((m.Register? || m.Await?) && c.slot.None? && c.nextId == id)
      ensures AskedFor(cs, ms, next, id)
    {}
    hide AskedFor;
    match m
    case _ =>
  }

  /** A turn the agent opened of its own is told nothing: an outcome goes only to who asked for the turn. */
  lemma {:induction false} OnlyWhoAskedIsTold(cs: seq<Sys>, ms: seq<Move>, n: nat)
    requires IsConducted(cs, ms) && n <= |ms|
    ensures Asked(cs[n], cs, ms, n)
  {
    if n > 0 {
      hide Asked, Moved, CanMove;
      OnlyWhoAskedIsTold(cs, ms, n - 1);
      assert cs[n] == Moved(cs[n - 1], ms[n - 1]) && CanMove(cs[n - 1], ms[n - 1]);
      AskedStep(cs, ms, n - 1);
    }
  }

  /** An event the reader holds is the last one it took off the channel. */
  ghost predicate HandInv(c: Sys) {
    && Fifo(c.w)
    && (c.hand.Holding? ==> |c.w.queue| < |c.w.sent| && c.hand.ev == c.w.sent[|c.w.sent| - |c.w.queue| - 1])
  }

  ghost predicate SysInv(c: Sys) {
    Inv(c.w) && HandInv(c) && SlotInv(c)
  }

  lemma SlotStep(c: Sys, m: Move)
    requires SlotInv(c) && CanMove(c, m)
    ensures SlotInv(Moved(c, m))
  {
    match m
    case Deliver =>
    case Handle =>
    case _ =>
  }

  lemma HandStep(c: Sys, m: Move)
    requires HandInv(c) && CanMove(c, m)
    ensures HandInv(Moved(c, m))
  {
    match m
    case Pop => PopTakesTheHead(c);
    case OnSession(step) => SessionKeepsHand(c, step);
    case CallSend => SessionKeepsHand(c, Send);
    case Answer => SessionKeepsHand(c, Respond(c.hand.req.id));
    case _ =>
  }

  lemma SessionKeepsHand(c: Sys, l: Step)
    requires HandInv(c) && Enabled(c.w, l) && !l.Take?
    ensures HandInv(c.(w := Apply(c.w, l))) && HandInv(c.(w := Apply(c.w, l), hand := Empty))
  {
    hide Apply, Enabled;
    SentGrows(c.w, l);
  }

  lemma PopTakesTheHead(c: Sys)
    requires HandInv(c) && CanMove(c, Pop)
    ensures HandInv(Moved(c, Pop))
  {
    FifoAfterTake(c.w);
  }

  /** Only Take shortens the queue, and nothing is ever taken back from the stream. */
  lemma SentGrows(w: World, l: Step)
    requires Enabled(w, l) && !l.Take?
    ensures w.sent <= Apply(w, l).sent
    ensures |Apply(w, l).sent| - |Apply(w, l).queue| == |w.sent| - |w.queue|
    ensures Fifo(w) ==> Fifo(Apply(w, l))
  {
    if Fifo(w) {
      FifoStep(w, l);
    }
    if !(l.Pump? && w.todo[0].Emit?) {
      StreamFrame(w, l);
    }
  }

  lemma WorldStep(c: Sys, m: Move)
    requires Inv(c.w) && CanMove(c, m)
    ensures Inv(Moved(c, m).w)
  {
    hide Inv, Apply;
    match m
    case OnSession(step) => StepKeepsInv(c.w, step);
    case CallSend => StepKeepsInv(c.w, Send);
    case Pop => StepKeepsInv(c.w, Take);
    case Answer => StepKeepsInv(c.w, Respond(c.hand.req.id));
    case Handle =>
    case _ =>
  }

  lemma {:induction false} ConductedReachable(cs: seq<Sys>, ms: seq<Move>, i: nat)
    requires IsConducted(cs, ms) && i < |cs|
    ensures SysInv(cs[i])
  {
    hide Inv, HandInv, SlotInv, Moved, CanMove;
    if i == 0 {
      ConductedIsFine();
    } else {
      ConductedReachable(cs, ms, i - 1);
      WorldStep(cs[i - 1], ms[i - 1]);
      HandStep(cs[i - 1], ms[i - 1]);
      SlotStep(cs[i - 1], ms[i - 1]);
    }
  }

  lemma ConductedIsFine()
    ensures SysInv(CONDUCTED)
  {
    OpenedIsFine();
  }

  /** No turn is ever sent a second outcome, so the reader never blocks on a turn's channel. */
  lemma AtMostOneOutcome(cs: seq<Sys>, ms: seq<Move>, i: nat)
    requires IsConducted(cs, ms) && i < |cs|
    ensures forall id: nat :: |Got(cs[i].outcomes, id)| <= 1
    ensures !Blocked(cs[i])
  {
    ConductedReachable(cs, ms, i);
  }

  // ----- which boundary a turn gets -----------------------------------------

  /** The position of the next event the reader will act on. */
  function Next(c: Sys): int {
    |c.w.sent| - |c.w.queue| - (if c.hand.Holding? then 1 else 0)
  }

  ghost predicate NoBoundary(evs: seq<StreamEvent>, from: int, to: int) {
    forall k :: 0 <= k < |evs| && from <= k < to ==> !Boundary(evs[k])
  }

  /** No boundary is produced and not yet acted on. */
  ghost predicate Clean(c: Sys) {
    NoBoundary(Produced(c.w), Next(c), |Produced(c.w)|)
  }

  /** The boundary that ends the turn opened when `n` events had been decoded. */
  ghost predicate Own(w: World, n: nat, b: StreamEvent) {
    || b.Ended?
    || (b.TurnComplete? && exists m :: n <= m && Closed(w, m) && w.log[m].turn == Some(n) && w.log[m].result == Some(b.result))
  }

  /** From position p on: the turn opened at n is open and nothing bounds it yet, or its own boundary comes first. */
  ghost predicate OwnComesFirst(w: World, p: nat, n: nat) {
    || (w.turn == Some(n) && !w.ended && NoBoundary(Produced(w), p, |Produced(w)|) && (Awaiting(w) ==> n < |w.log|))
    || (exists q :: p <= q < |Produced(w)| && Boundary(Produced(w)[q]) && NoBoundary(Produced(w), p, q) && Own(w, n, Produced(w)[q]))
  }

  lemma ProducedGrows(w: World, l: Step)
    requires Phase(w) && Faithful(w) && Completing(w) && Enabled(w, l)
    ensures Produced(w) <= Produced(Apply(w, l))
  {
    match l
    case Decode(ev) =>
      ProducedByDecode(w, ev);
    case DecoderClosed(_) =>
      assert Emits(w.todo) == [];
    case Pump =>
      ProducedByPump(w);
    case Drop =>
      NeverDrops(w);
    case _ =>
  }

  lemma ProducedByPump(w: World)
    requires Phase(w) && Completing(w) && w.todo != []
    ensures !w.todo[0].Finish? ==> Produced(ApplyPump(w)) == Produced(w)
    ensures w.todo[0].Finish? ==>
              Produced(ApplyPump(w)) == Produced(w) + [TurnComplete(TurnResult(w.s.turnEvents, w.todo[0].error))]
  {
    if w.todo[0].Finish? {
      FinishIsLast(w);
      assert Emits(w.todo) == [];
      var done := Emit(TurnComplete(TurnResult(w.s.turnEvents, w.todo[0].error)));
      assert ApplyPump(w).todo == [done] && [done][1..] == [];
      assert Emits([done]) == [done.ev];
    } else {
      PumpMovesAlong(w);
    }
  }

  lemma ClosedStaysClosed(w: World, l: Step, m: int)
    requires Phase(w) && Completing(w) && Enabled(w, l) && Closed(w, m)
    ensures Closed(Apply(w, l), m) && Apply(w, l).log[m] == w.log[m]
  {
    if Finishes(w, l) {
      FinishIsLast(w);
    } else if !l.Decode? {
      LogFrame(w, l);
    }
  }

  lemma OwnIsStable(w: World, l: Step, n: nat, b: StreamEvent)
    requires Phase(w) && Completing(w) && Enabled(w, l) && Own(w, n, b)
    ensures Own(Apply(w, l), n, b)
  {
    if !b.Ended? {
      var m :| n <= m && Closed(w, m) && w.log[m].turn == Some(n) && w.log[m].result == Some(b.result);
      ClosedStaysClosed(w, l, m);
    }
  }

  lemma OpenTurnAfterDecode(w: World, ev: Event, p: nat, n: nat)
    requires Inv(w) && Enabled(w, Decode(ev)) && w.turn == Some(n)
    requires NoBoundary(Produced(w), p, |Produced(w)|)
    ensures OwnComesFirst(ApplyDecode(w, ev), p, n)
  {
    assert !Unsolicited(w.s, ev);
    ProducedByDecode(w, ev);
    AwaitingAfterDecode(w, ev);
    OutputsBoundNothing(ev);
    hide Work, Produced, Outputs, Faithful, Blocks, Accounted;
  }

  lemma OutputsBoundNothing(ev: Event)
    ensures NoBoundary(Outputs(ev), 0, |Outputs(ev)|)
  {
  }

  lemma OpenTurnAfterFinish(w: World, p: nat, n: nat)
    requires Inv(w) && w.todo != [] && w.todo[0].Finish? && w.turn == Some(n) && n < |w.log|
    requires p <= |Produced(w)| && NoBoundary(Produced(w), p, |Produced(w)|)
    ensures OwnComesFirst(ApplyPump(w), p, n)
  {
    var w' := ApplyPump(w);
    ProducedByPump(w);
    FinishIsLast(w);
    var q := |Produced(w)|;
    assert Closed(w', |w.log| - 1) && w'.log[|w.log| - 1].turn == Some(n);
    assert Own(w', n, Produced(w')[q]);
  }

  lemma OpenTurnAtEnd(w: World, reason: string, p: nat, n: nat)
    requires Inv(w) && Enabled(w, DecoderClosed(reason))
    requires p <= |Produced(w)| && NoBoundary(Produced(w), p, |Produced(w)|)
    ensures OwnComesFirst(Apply(w, DecoderClosed(reason)), p, n)
  {
    EndFaithful(w, reason);
    var w' := Apply(w, DecoderClosed(reason));
    assert Produced(w') == Produced(w) + [Ended(reason)];
    assert Boundary(Produced(w')[|Produced(w)|]);
  }

  lemma ProducedStep(w: World, l: Step)
    requires Inv(w) && Enabled(w, l)
    ensures Produced(w) <= Produced(Apply(w, l))
    ensures !l.Decode? && !l.DecoderClosed? && !l.Pump? ==> Produced(w) == Produced(Apply(w, l))
  {
    hide Faithful, Completing, Tracking, Blocks, Accounted;
    ProducedGrows(w, l);
    NeverDrops(w);
  }

  lemma OwnComesFirstStep(w: World, l: Step, p: nat, n: nat)
    requires Inv(w) && Enabled(w, l) && p <= |Produced(w)| && OwnComesFirst(w, p, n)
    ensures OwnComesFirst(Apply(w, l), p, n)
  {
    hide Work, Outputs, Produced, Own, Faithful, Blocks, Accounted;
    var w' := Apply(w, l);
    ProducedStep(w, l);
    if q :| p <= q < |Produced(w)| && Boundary(Produced(w)[q]) && NoBoundary(Produced(w), p, q) && Own(w, n, Produced(w)[q]) {
      OwnIsStable(w, l, n, Produced(w)[q]);
      assert Produced(w')[q] == Produced(w)[q] && NoBoundary(Produced(w'), p, q);
    } else {
      match l
      case Decode(ev) => OpenTurnAfterDecode(w, ev, p, n);
      case DecoderClosed(reason) => OpenTurnAtEnd(w, reason, p, n);
      case Pump =>
        if w.todo[0].Finish? {
          OpenTurnAfterFinish(w, p, n);
        } else {
          ProducedByPump(w);
          AwaitingFrame(w, l);
        }
      case Drop => NeverDrops(w);
      case _ =>
    }
  }
}
