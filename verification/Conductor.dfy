/**
 The conductor as the object it is: one turn slot set and cleared under a mutex, and a
 reader loop over the session's events. Its methods are proved to be the moves of
 ConductorMachine on the fields they hold.
 */
module Conductors {
  import opened Prelude
  import opened SessionMachine
  import opened ConductorMachine
  import opened ConductorSafety
  import opened PersistentSessions

  datatype RunReply = Waiting(id: nat) | Refused(reply: SendReply) | WriteFailed

  /** The reader acting on the event it holds until its hands are empty again. */
  function ActOn(c: Sys): Sys
    requires CanMove(c, Handle)
  {
    var c1 := Moved(c, Handle);
    if CanMove(c1, Answer) then Moved(c1, Answer)
    else if CanMove(c1, Deliver) then Moved(c1, Deliver)
    else c1
  }

  /** The reader alone, until it has read everything. */
  function ReadAlone(c: Sys): Sys
    requires c.hand.Empty? && c.mu.NoCaller?
    decreases |c.w.queue|
  {
    if c.w.queue == [] then c
    else
      var c1 := ActOn(Moved(c, Pop));
      if c1.hand.Empty? then ReadAlone(c1) else c1
  }

  /** The turn's own channel has the outcome, unless nobody waits for it. */
  function Told(outcomes: map<nat, seq<Outcome>>, turn: Option<Turn>, outcome: Outcome): map<nat, seq<Outcome>> {
    if turn.Some? && !turn.value.unsolicited then outcomes[turn.value.id := Got(outcomes, turn.value.id) + [outcome]] else outcomes
  }

  class Conductor {
    const session: PersistentSession
    var turn: Option<Turn>
    var nextId: nat
    var outcomes: map<nat, seq<Outcome>>
    var read: nat
    ghost var model: Sys

    ghost predicate Valid()
      reads this, session
    {
      && session.Valid() && session.model.queue == session.events && read <= |session.events|
      && model.w == session.model.(queue := session.events[read..])
      && model.slot == turn && model.nextId == nextId && model.outcomes == outcomes
      && SlotInv(model)
    }

    ghost predicate Free()
      reads this
    {
      model.mu.NoCaller? && model.hand.Empty?
    }

    constructor (session: PersistentSession)
      requires session.Valid() && session.model == OPENED
      ensures this.session == session && Valid() && Free() && model == CONDUCTED
    {
      this.session := session;
      turn, nextId, outcomes, read := None, 0, map[], 0;
      model := CONDUCTED;
    }

    method Await() returns (reply: RunReply)
      requires Valid() && Free()
      modifies this
      ensures Valid() && Free() && model == Moved(old(model), ConductorMachine.Await)
      ensures reply == if old(turn).Some? then RunReply.Refused(TurnInFlight) else Waiting(old(nextId))
      ensures turn == if reply.Waiting? then Some(Turn(reply.id, false)) else old(turn)
      ensures outcomes == old(outcomes)
    {
      SlotStep(model, ConductorMachine.Await);
      model := Moved(model, ConductorMachine.Await);
      if turn.Some? {
        return RunReply.Refused(TurnInFlight);
      }
      turn := Some(Turn(nextId, false));
      nextId := nextId + 1;
      return Waiting(nextId - 1);
    }

    /** Registered before Send, and unregistered again if Send fails. `written` is the encoder's verdict. */
    method RunTurn(written: bool) returns (reply: RunReply)
      requires Valid() && Free()
      modifies this, session
      ensures Valid() && Free()
      ensures old(turn).Some? ==> model == old(model) && reply == RunReply.Refused(TurnInFlight)
      ensures old(turn).None? ==>
                var c1 := Moved(old(model), Register);
                var c2 := Moved(c1, CallSend);
                var verdict := SendVerdict(old(model).w.s);
                if verdict != Accepted then model == c2 && reply == RunReply.Refused(verdict)
                else model == Moved(c2, Encoded(written)) && reply == if written then Waiting(old(nextId)) else WriteFailed
      ensures reply.Waiting? <==> old(turn).None? && old(session.state).Idle? && written
      ensures turn == if reply.Waiting? then Some(Turn(reply.id, false)) else old(turn)
      ensures outcomes == old(outcomes)
    {
      hide SlotInv;
      if turn.Some? {
        return RunReply.Refused(TurnInFlight);
      }
      SlotStep(model, Register);
      model := Moved(model, Register);
      turn := Some(Turn(nextId, false));
      nextId := nextId + 1;
      var verdict := session.Send(written);
      SlotStep(model, CallSend);
      model := Moved(model, CallSend);
      if verdict.Refused? {
        turn := None;
        return RunReply.Refused(verdict.why);
      }
      SlotStep(model, Encoded(written));
      model := Moved(model, Encoded(written));
      if verdict.SendFailed? {
        turn := None;
        return WriteFailed;
      }
      return Waiting(nextId - 1);
    }

    /** finish: the slot is emptied first, and its turn told afterwards. */
    method Finish(ev: StreamEvent, outcome: Outcome)
      requires Valid() && model.mu.NoCaller? && model.hand == Holding(ev)
      requires ev.TurnComplete? || ev.Ended?
      requires outcome == match ev case TurnComplete(r) => Outcome(Some(r), r.error) case Ended(reason) => Outcome(None, Some(reason)) case _ => outcome
      modifies this
      ensures Valid() && Free() && model == ActOn(old(model)) && read == old(read)
      ensures turn.None? && outcomes == Told(old(outcomes), old(turn), outcome)
    {
      NotBlocked(model);
      hide SlotInv, Blocked;
      SlotStep(model, ConductorMachine.Handle);
      model := Moved(model, ConductorMachine.Handle);
      var t := turn;
      turn := None;
      assert model.hand == Delivering(t, outcome);
      SlotStep(model, Deliver);
      model := Moved(model, Deliver);
      if t.Some? && !t.value.unsolicited {
        var got := if t.value.id in outcomes then outcomes[t.value.id] else [];
        outcomes := outcomes[t.value.id := got + [outcome]];
      }
    }

    /** One turn of the reader loop; a reply that cannot be written is only logged. */
    method Handle(ev: StreamEvent, wire: Wire)
      requires Valid() && model.mu.NoCaller? && model.hand == Holding(ev)
      modifies this, session
      ensures Valid() && Free() && model == ActOn(old(model)) && read == old(read)
      ensures session.events == old(session.events)
      ensures ev.MessageEvent? ==> turn == old(turn) && outcomes == old(outcomes)
      ensures ev.RequestEvent? ==> turn == old(turn) && outcomes == old(outcomes)
                                   && (old(session.state) != Terminated ==> ev.request.id !in session.pendingInput)
      ensures ev.TurnStart? ==> turn.Some? && turn.value.unsolicited && outcomes == old(outcomes)
      ensures ev.TurnComplete? ==> turn.None? && outcomes == Told(old(outcomes), old(turn), Outcome(Some(ev.result), ev.result.error))
      ensures ev.Ended? ==> turn.None? && outcomes == Told(old(outcomes), old(turn), Outcome(None, Some(ev.reason)))
    {
      hide SlotInv, Told;
      match ev
      case MessageEvent(_) =>
        SlotStep(model, ConductorMachine.Handle);
        model := Moved(model, ConductorMachine.Handle);
      case RequestEvent(req) =>
        SlotStep(model, ConductorMachine.Handle);
        model := Moved(model, ConductorMachine.Handle);
        var reply := session.Respond(req.id, wire);
        SlotStep(model, Answer);
        model := Moved(model, Answer);
      case TurnStart =>
        SlotStep(model, ConductorMachine.Handle);
        model := Moved(model, ConductorMachine.Handle);
        turn := Some(Turn(nextId, true));
        nextId := nextId + 1;
      case TurnComplete(result) =>
        Finish(ev, Outcome(Some(result), result.error));
      case Ended(reason) =>
        Finish(ev, Outcome(None, Some(reason)));
    }

    /** Take the next event off the channel. */
    method Take() returns (ev: StreamEvent)
      requires Valid() && Free() && read < |session.events|
      modifies this
      ensures Valid() && model.mu.NoCaller? && model.hand == Holding(ev)
      ensures CanMove(old(model), Pop) && model == Moved(old(model), Pop)
      ensures read == old(read) + 1
    {
      ev := session.events[read];
      SlotStep(model, Pop);
      assert session.events[read..][1..] == session.events[read + 1..];
      model := Moved(model, Pop);
      read := read + 1;
    }

    /** read: everything on the channel, in order. */
    method Read(wires: nat -> Wire)
      requires Valid() && Free()
      modifies this, session
      ensures Valid() && Free() && model == ReadAlone(old(model)) && model.w.queue == [] && read == |session.events|
    {
      while read < |session.events|
        invariant Valid() && Free()
        invariant ReadAlone(model) == ReadAlone(old(model))
        decreases |session.events| - read
      {
        hide ActOn, Moved, SlotInv;
        ghost var before := model;
        var ev := Take();
        Handle(ev, wires(read));
        assert model == ActOn(Moved(before, Pop));
      }
    }
  }

  /** A turn that is still in the slot has been told nothing, so telling it does not block. */
  lemma NotBlocked(c: Sys)
    requires SlotInv(c) && CanMove(c, ConductorMachine.Handle) && (c.hand.ev.TurnComplete? || c.hand.ev.Ended?)
    ensures !Blocked(Moved(c, ConductorMachine.Handle))
  {}
}
