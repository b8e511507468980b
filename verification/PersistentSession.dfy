/**
 The persistent session as the object it is: fields changed under a mutex by its callers
 and by the pump loop.

 Every critical section is one method, and every method is proved to be a step of SessionMachine
 on the fields it holds; the pump loop is proved to be that machine run on its own until nothing
 is left to do. What the caller of a method is told besides depends on what becomes of the message
 it writes: nothing to write it as, a broken pipe, or a write that went through. None of that
 takes back what the method has done to the session's state by then.
 */
module PersistentSessions {
  import opened Prelude
  import opened SessionMachine
  import opened SessionInvariant
  import opened SessionSafety
  import opened SessionStreams

  /** The machine's pump run with no interference until its hands are empty. */
  function Drain(w: World): World
    decreases Effort(w.todo)
  {
    if w.todo == [] then w
    else
      EffortShrinks(w);
      Drain(ApplyPump(w))
  }

  function Effort(todo: seq<Micro>): nat {
    if todo == [] then 0 else (if todo[0].Finish? then 2 else 1) + Effort(todo[1..])
  }

  lemma EffortShrinks(w: World)
    requires w.todo != []
    ensures Effort(ApplyPump(w).todo) < Effort(w.todo)
  {
    if w.todo[0].Finish? {
      assert ApplyPump(w).todo[1..] == w.todo[1..];
    }
  }

  lemma DrainNext(w: World)
    ensures w.todo != [] ==> Drain(w) == Drain(ApplyPump(w))
    ensures w.todo == [] ==> Drain(w) == w
  {
    if w.todo != [] {
      EffortShrinks(w);
    }
  }

  /** A whole decoder stream, one event at a time. */
  function PumpAlone(w: World, events: seq<Event>): World {
    if events == [] then w
    else Drain(ApplyDecode(PumpAlone(w, events[..|events| - 1]), events[|events| - 1]))
  }

  lemma {:induction false} DrainKeepsInv(w: World)
    requires Inv(w)
    ensures Inv(Drain(w)) && Drain(w).todo == []
    ensures Drain(w).ended == w.ended && Drain(w).reason == w.reason
    ensures Events(Drain(w).log) == Events(w.log)
    decreases Effort(w.todo)
  {
    hide Inv;
    if w.todo != [] {
      EffortShrinks(w);
      PumpKeeps(w);
      DrainKeepsInv(ApplyPump(w));
    }
  }

  lemma PumpKeeps(w: World)
    requires Inv(w) && w.todo != []
    ensures Inv(ApplyPump(w)) && Events(ApplyPump(w).log) == Events(w.log)
    ensures ApplyPump(w).ended == w.ended && ApplyPump(w).reason == w.reason
  {
    hide Phase, Faithful, Completing, Tracking, Blocks, Accounted;
    StepKeepsInv(w, Pump);
    EventsFrame(w, Pump);
    match w.todo[0]
    case _ =>
  }

  lemma {:induction false} PumpAloneKeepsInv(w: World, events: seq<Event>)
    requires Inv(w) && w.todo == [] && !w.ended
    ensures var w' := PumpAlone(w, events);
            Inv(w') && w'.todo == [] && !w'.ended && Events(w'.log) == Events(w.log) + events
  {
    hide Inv, Events, Drain, ApplyDecode;
    if events == [] {
      assert Events(w.log) + events == Events(w.log);
    } else {
      var n := |events| - 1;
      PumpAloneKeepsInv(w, events[..n]);
      PumpsOneMore(PumpAlone(w, events[..n]), events[n]);
      assert Events(w.log) + events[..n] + [events[n]] == Events(w.log) + events;
    }
  }

  lemma PumpsOneMore(w: World, ev: Event)
    requires Inv(w) && w.todo == [] && !w.ended
    ensures var w' := Drain(ApplyDecode(w, ev));
            Inv(w') && w'.todo == [] && !w'.ended && Events(w'.log) == Events(w.log) + [ev]
  {
    hide Inv, Events, Drain, ApplyDecode;
    DecodeKeeps(w, ev);
    DrainKeepsInv(ApplyDecode(w, ev));
  }

  lemma DecodeKeeps(w: World, ev: Event)
    requires Inv(w) && w.todo == [] && !w.ended
    ensures Inv(ApplyDecode(w, ev)) && Events(ApplyDecode(w, ev).log) == Events(w.log) + [ev]
    ensures !ApplyDecode(w, ev).ended
  {
    hide Phase, Faithful, Completing, Tracking, Blocks, Accounted;
    StepKeepsInv(w, Decode(ev));
    EventsFrame(w, Decode(ev));
  }

  /**
   A session nobody disturbs: the loop leaves the channel closed, having carried exactly
   what the decoded events stand for and then one Ended.
   */
  lemma UndisturbedStream(events: seq<Event>, reason: string)
    ensures var w := Drain(ApplyEnd(PumpAlone(OPENED, events), reason));
            w.closed && Events(w.log) == events && w.sent == Render(w.log) + [Ended(reason)]
  {
    OpenedIsFine();
    PumpAloneKeepsInv(OPENED, events);
    var w := PumpAlone(OPENED, events);
    assert Events(OPENED.log) + events == events;
    EndKeeps(w, reason);
    DrainKeepsInv(ApplyEnd(w, reason));
    ClosedStream(Drain(ApplyEnd(w, reason)));
  }

  lemma EndKeeps(w: World, reason: string)
    requires Inv(w) && w.todo == [] && !w.ended
    ensures Inv(ApplyEnd(w, reason))
  {
    hide Phase, Faithful, Completing, Tracking, Blocks, Accounted;
    StepKeepsInv(w, DecoderClosed(reason));
  }

  lemma ClosedStream(w: World)
    requires Inv(w) && w.ended && w.todo == []
    ensures w.closed && w.sent == Render(w.log) + [Ended(w.reason)]
  {
    assert w.sent + [] == w.sent;
  }

  // ----- what has been shown, one event at a time ------------------------------

  lemma DueByKind(ev: Event)
    ensures DueOf(ev, false) == match ev.kind
                                case Message(out) => NOTHING.(messages := out)
                                case Control(Some(req)) => NOTHING.(requests := [req])
                                case Success => NOTHING.(errors := [None])
                                case Failure(detail) => NOTHING.(errors := [Some(detail)])
                                case _ => NOTHING
  {
    DueCases(ev, false);
    hide Said, Asked, Verdicts;
  }

  /** An event that opens a turn shows its start, and then what it shows in any case. */
  lemma DueSplits(r: Reading, ev: Event, own: bool)
    ensures Join(if own then Join(r, ReadOne(TurnStart)) else r, DueOf(ev, false)) == Join(r, DueOf(ev, own))
  {
    hide Said, Asked, Verdicts;
  }

  /** From r0 to r the stream has shown what these events say. */
  ghost predicate DueSoFar(r0: Reading, r: Reading, decoded: seq<Event>) {
    && r.messages == r0.messages + Said(decoded) && r.requests == r0.requests + Asked(decoded)
    && r.errors == r0.errors + Verdicts(decoded) && r.ends == r0.ends
  }

  lemma DueNone(r: Reading)
    ensures DueSoFar(r, r, [])
  {}

  lemma DueNext(r0: Reading, r: Reading, decoded: seq<Event>, ev: Event, own: bool)
    requires DueSoFar(r0, r, decoded)
    ensures DueSoFar(r0, Join(r, DueOf(ev, own)), decoded + [ev])
  {
    DueGrows(decoded, 0, ev, own);
    DueIs(decoded, 0, []);
    DueIs(decoded + [ev], if own then 1 else 0, []);
    NoEndYet(ev, own);
    AddsUp(r0, r, Due(decoded, 0, []), DueOf(ev, own));
    hide Said, Asked, Verdicts, Due, DueOf;
  }

  lemma NoEndYet(ev: Event, own: bool)
    ensures DueOf(ev, own).ends == []
  {}

  lemma AddsUp(r0: Reading, r: Reading, a: Reading, b: Reading)
    requires r.messages == r0.messages + a.messages && r.requests == r0.requests + a.requests && r.errors == r0.errors + a.errors
    ensures var j := Join(a, b);
            && r.messages + b.messages == r0.messages + j.messages && r.requests + b.requests == r0.requests + j.requests
            && r.errors + b.errors == r0.errors + j.errors
  {}

  /** What becomes of a message handed to the transport and the encoder. */
  datatype Wire = Written | NotEncoded | Broken

  datatype SendOutcome = Sent | SendFailed | Refused(why: SendReply)

  datatype RespondOutcome = Answered(input: string) | NoReply | ReplyFailed | Unknown | TooLate

  datatype InterruptOutcome = Interrupted | Nothing | Unsupported | ControlFailed | NoSession

  class PersistentSession {
    var state: Life
    var pendingInput: map<string, string>
    var turnEvents: seq<Event>
    var events: seq<StreamEvent>
    var closed: bool
    var cancelled: bool
    /** How often the stopping of the process has been started. */
    var stops: nat
    ghost var model: World

    ghost predicate Valid()
      reads this
    {
      && stops <= 1
      && model.s == Session(state, pendingInput, turnEvents)
      && model.sent == events && model.closed == closed && model.cancelled == cancelled
    }

    /** Open: the prompt it was given is the first turn in flight. */
    constructor ()
      ensures Valid() && model == OPENED
    {
      state, pendingInput, turnEvents := Running, map[], [];
      events, closed, cancelled, stops := [], false, false, 0;
      model := OPENED;
    }

    /** A write that fails after the turn was opened leaves it open: terminating is the pump's business. */
    method Send(written: bool) returns (reply: SendOutcome)
      requires Valid()
      modifies this
      ensures Valid() && model == Apply(old(model), SessionMachine.Send) && stops == old(stops)
      ensures reply.Refused? <==> SendVerdict(old(model).s) != Accepted
      ensures reply.Refused? ==> reply.why == SendVerdict(old(model).s) && state == old(state)
      ensures !reply.Refused? ==> state == Running && turnEvents == [] && (reply.Sent? <==> written)
    {
      model := Apply(model, SessionMachine.Send);
      match state {
        case Idle =>
          state := Running;
          turnEvents := [];
        case Running =>
          return Refused(TurnInFlight);
        case _ =>
          return Refused(SessionClosed);
      }
      if !written {
        return SendFailed;
      }
      return Sent;
    }

    /** The request is used up as soon as its input is taken, whether or not the reply can be written. */
    method Respond(id: string, wire: Wire) returns (reply: RespondOutcome)
      requires Valid()
      modifies this
      ensures Valid() && model == Apply(old(model), SessionMachine.Respond(id)) && stops == old(stops)
      ensures match RespondVerdict(old(model).s, id)
              case Forward(input) =>
                && id !in pendingInput
                && reply == (match wire case Written => Answered(input) case NotEncoded => NoReply case Broken => ReplyFailed)
              case UnknownRequest => reply == Unknown && pendingInput == old(pendingInput)
              case RespondClosed => reply == TooLate && pendingInput == old(pendingInput)
    {
      model := Apply(model, SessionMachine.Respond(id));
      if state == Terminated {
        return TooLate;
      }
      if id !in pendingInput {
        assert pendingInput - {id} == pendingInput;
        return Unknown;
      }
      var input := pendingInput[id];
      pendingInput := pendingInput - {id};
      match wire
      case NotEncoded => return NoReply;
      case Broken => return ReplyFailed;
      case Written => return Answered(input);
    }

    /** Only a turn in flight is interrupted, and only over a transport that can say so. */
    method Interrupt(wire: Wire) returns (reply: InterruptOutcome)
      requires Valid()
      ensures reply.NoSession? <==> InterruptVerdict(model.s).InterruptClosed?
      ensures reply.Nothing? <==> InterruptVerdict(model.s).NothingToStop?
      ensures InterruptVerdict(model.s).Interrupting? ==>
                (reply.Interrupted? <==> wire.Written?) && (reply.Unsupported? <==> wire.NotEncoded?)
    {
      match state
      case Running =>
        match wire {
          case NotEncoded => return Unsupported;
          case Broken => return ControlFailed;
          case Written => return Interrupted;
        }
      case Idle => return Nothing;
      case _ => return NoSession;
    }

    /** shutdown, which starts at most once: the input is closed and the kill is armed. */
    method Shutdown()
      requires Valid()
      modifies this`stops
      ensures Valid() && stops == 1
    {
      if stops == 0 {
        stops := 1;
      }
    }

    /** Enters Closing unless it is too late, and sees to it that the process is being stopped. */
    method BeginClose()
      requires Valid()
      modifies this
      ensures Valid() && model == Apply(old(model), SessionMachine.Close) && stops == 1
    {
      model := Apply(model, SessionMachine.Close);
      if state != Terminated {
        state := Closing;
      }
      Shutdown();
    }

    /** The wait that ends a Close: `expired` is whether its context has ended, and one of the two has. */
    method AwaitClosed(expired: bool, preferDone: bool) returns (ok: bool)
      requires Valid() && (closed || expired)
      ensures ok ==> closed
      ensures !ok ==> expired
    {
      ok := closed && (preferDone || !expired);
    }

    /** emit, whose context is live for as long as the pump runs. */
    method EmitEvent(ev: StreamEvent)
      requires Valid() && model.todo != [] && model.todo[0] == Emit(ev) && !model.cancelled
      modifies this
      ensures Valid() && model == ApplyPump(old(model)) && Drain(model) == Drain(old(model)) && stops == old(stops)
      ensures model.todo == old(model).todo[1..] && model.ended == old(model).ended && !model.cancelled
      ensures Read(events) == Join(Read(old(events)), ReadOne(ev)) && old(events) < events
    {
      model := ApplyPump(model);
      events := events + [ev];
      assert events[..|events| - 1] == old(events);
    }

    method CompleteTurn(turnErr: Option<string>)
      requires Valid() && model.todo == [Finish(turnErr)] && !model.cancelled
      modifies this
      ensures Valid() && model == Drain(old(model))
      ensures model.todo == [] && model.ended == old(model).ended && !model.cancelled
      ensures Read(events) == Join(Read(old(events)), NOTHING.(errors := [turnErr])) && old(events) < events
    {
      hide Read, Join;
      model := ApplyPump(model);
      var turn := turnEvents;
      turnEvents := [];
      if state == Running {
        state := Idle;
      }
      assert model.todo == [Emit(TurnComplete(TurnResult(turn, turnErr)))];
      EmitEvent(TurnComplete(TurnResult(turn, turnErr)));
    }

    /** One turn of the pump loop: record the event, then do what its kind asks for. */
    method HandleEvent(ev: Event)
      requires Valid() && model.todo == [] && !model.ended && !model.cancelled
      modifies this
      ensures Valid() && model == Drain(ApplyDecode(old(model), ev))
      ensures model.todo == [] && !model.ended && !model.cancelled
      ensures Read(events) == Join(Read(old(events)), DueOf(ev, ev.opensTurn && old(state) == Idle)) && old(events) <= events
    {
      hide Work, Read, Join, ReadOne, DueOf;
      var unsolicited := state == Idle && ev.opensTurn;
      model := ApplyDecode(model, ev);
      if unsolicited {
        state := Running;
        turnEvents := [];
      }
      turnEvents := turnEvents + [ev];
      if unsolicited {
        EmitEvent(TurnStart);
      }
      assert model.todo == Work(ev);
      DueSplits(Read(old(events)), ev, unsolicited);
      DoWork(ev);
    }

    method DoWork(ev: Event)
      requires Valid() && model.todo == Work(ev) && !model.ended && !model.cancelled
      modifies this
      ensures Valid() && model == Drain(old(model))
      ensures model.todo == [] && !model.ended && !model.cancelled
      ensures Read(events) == Join(Read(old(events)), DueOf(ev, false)) && old(events) <= events
    {
      hide Read, Join;
      DueByKind(ev);
      JoinNothing(Read(events));
      match ev.kind
      case Ignore =>
      case Message(out) =>
        EmitMessages(ev, out);
      case Control(None) =>
      case Control(Some(req)) =>
        ShowRequest(req);
      case Success =>
        CompleteTurn(None);
      case Failure(detail) =>
        CompleteTurn(Some(detail));
    }

    /** A request is stored before it is shown. */
    method ShowRequest(req: Request)
      requires Valid() && !model.ended && !model.cancelled
      requires model.todo == (if req.id == "" then [] else [Stash(req)]) + EmitAll([RequestEvent(req)])
      modifies this
      ensures Valid() && model == Drain(old(model))
      ensures model.todo == [] && !model.ended && !model.cancelled
      ensures Read(events) == Join(Read(old(events)), NOTHING.(requests := [req])) && old(events) < events
    {
      hide Read, Join;
      if req.id != "" {
        model := ApplyPump(model);
        pendingInput := pendingInput[req.id := req.input];
      }
      assert model.todo == EmitAll([RequestEvent(req)]);
      EmitEvent(RequestEvent(req));
    }

    method EmitMessages(ev: Event, out: seq<string>)
      requires Valid() && !model.cancelled && !model.ended
      requires ev.kind == Message(out) && model.todo == Work(ev)
      modifies this
      ensures Valid() && model == Drain(old(model))
      ensures model.todo == [] && !model.ended && !model.cancelled
      ensures Read(events) == Join(Read(old(events)), NOTHING.(messages := out)) && old(events) <= events
    {
      hide Read;
      var i := 0;
      JoinNothing(Read(events));
      while i < |out|
        invariant 0 <= i <= |out| && old(events) <= events
        invariant Read(events) == Join(Read(old(events)), NOTHING.(messages := out[..i]))
        invariant Valid() && !model.cancelled && !model.ended
        invariant model.todo == EmitAll(Outputs(ev))[i..]
        invariant Drain(model) == Drain(old(model))
      {
        EmitEvent(MessageEvent(out[i]));
        i := i + 1;
      }
    }

    method Terminate(reason: string)
      requires Valid() && model.todo == [] && !model.ended && !model.cancelled
      modifies this
      ensures Valid() && model == Drain(ApplyEnd(old(model), reason)) && stops == 1
      ensures Read(events) == Join(Read(old(events)), NOTHING.(ends := [reason])) && old(events) < events
    {
      hide Drain, Effort, Read, Join;
      model := ApplyEnd(model, reason);
      Shutdown();
      MarkTerminated(reason);
      EmitEvent(Ended(reason));
      CloseStream();
    }

    method MarkTerminated(reason: string)
      requires Valid() && model.todo == [Die, Emit(Ended(reason)), Shut, Cancel] && !model.cancelled
      modifies this`state, this`model
      ensures Valid() && Drain(model) == Drain(old(model)) && stops == old(stops)
      ensures model.todo == [Emit(Ended(reason)), Shut, Cancel] && !model.cancelled
    {
      hide Drain, Effort;
      DrainNext(model);
      model := ApplyPump(model);
      state := Terminated;
    }

    method CloseStream()
      requires Valid() && model.todo == [Shut, Cancel]
      modifies this`closed, this`cancelled, this`model
      ensures Valid() && model == Drain(old(model)) && stops == old(stops)
    {
      hide Drain, Effort;
      DrainNext(model);
      model := ApplyPump(model);
      closed := true;
      DrainNext(model);
      model := ApplyPump(model);
      cancelled := true;
      DrainNext(model);
    }

    /** pump: every decoded event in order, then terminate. */
    method PumpLoop(decoded: seq<Event>, reason: string)
      requires Valid() && model.todo == [] && !model.ended && !model.cancelled
      modifies this
      ensures Valid() && model == Drain(ApplyEnd(PumpAlone(old(model), decoded), reason))
      ensures old(events) < events
      ensures var r, r0 := Read(events), Read(old(events));
              && r.messages == r0.messages + Said(decoded) && r.requests == r0.requests + Asked(decoded)
              && r.errors == r0.errors + Verdicts(decoded) && r.ends == r0.ends + [reason]
    {
      DueNone(Read(events));
      hide Read, Said, Asked, Verdicts, Drain, ApplyDecode, ApplyEnd;
      var i := 0;
      while i < |decoded|
        invariant 0 <= i <= |decoded|
        invariant Valid() && model == PumpAlone(old(model), decoded[..i])
        invariant model.todo == [] && !model.ended && !model.cancelled && old(events) <= events
        invariant DueSoFar(Read(old(events)), Read(events), decoded[..i])
      {
        assert decoded[..i + 1][..i] == decoded[..i];
        assert decoded[..i + 1] == decoded[..i] + [decoded[i]];
        DueNext(Read(old(events)), Read(events), decoded[..i], decoded[i], decoded[i].opensTurn && state == Idle);
        HandleEvent(decoded[i]);
        i := i + 1;
      }
      assert decoded[..i] == decoded;
      Terminate(reason);
    }
  }
}
