/**
 One-shot execution as the object it is: the pump loop over whatever was decoded, and Wait,
 whose body runs once. Each is proved to be ExecutionMachine left undisturbed.
 */
module Executions {
  import opened Prelude
  import opened ExecutionMachine
  import SM = SessionMachine
  import SS = SessionStreams

  /** What the consumer's stream carries. */
  datatype Item = Agent(ev: SM.StreamEvent) | ErrorEvent(error: Error)

  function DecodeAll(w: World, decoded: seq<Event>): World
    requires w.pump.Reading?
    ensures DecodeAll(w, decoded).pump.Reading? && DecodeAll(w, decoded).exited == w.exited
    ensures DecodeAll(w, decoded).ctx == w.ctx && DecodeAll(w, decoded).once == w.once
    ensures DecodeAll(w, decoded).feeding == w.feeding
  {
    if decoded == [] then w
    else Apply(DecodeAll(w, decoded[..|decoded| - 1]), Decode(decoded[|decoded| - 1]))
  }

  predicate Untold(w: World) {
    w.pump.Reading? && w.exited.None? && w.once.Untouched?
  }

  function PumpAlone(w: World, decoded: seq<Event>, ending: Ending, exit: Option<string>, delivered: bool): World
    requires Untold(w) && (!delivered ==> !w.ctx.Live?)
    ensures PumpAlone(w, decoded, ending, exit, delivered).pump.Done? && PumpAlone(w, decoded, ending, exit, delivered).once.Untouched?
    ensures PumpAlone(w, decoded, ending, exit, delivered).feeding == w.feeding
  {
    var ended := Apply(DecodeAll(w, decoded), StreamEnds(ending));
    Apply(Apply(Apply(ended, Exit(exit)), Settle), Report(delivered))
  }

  /** The initial input given out to its end. */
  function FedAlone(w: World): World {
    if !w.feeding then w
    else if w.inputOpen then Apply(Apply(w, CloseInput), FeederStops)
    else Apply(w, FeederStops)
  }

  /** The first caller's Wait. */
  function WaitAlone(w: World): World
    requires w.pump.Done? && !w.feeding && w.once.Untouched?
  {
    var computed := Apply(Apply(Apply(Apply(w, Enter), Join), Release), Compute);
    Apply(Apply(computed, Tell), Return)
  }

  /** Everything offered to the consumer for the decoded events. */
  function Offered(decoded: seq<Event>): seq<Item> {
    if decoded == [] then []
    else Offered(decoded[..|decoded| - 1]) + Wrap(SM.Outputs(decoded[|decoded| - 1]))
  }

  function Wrap(evs: seq<SM.StreamEvent>): seq<Item> {
    seq(|evs|, i requires 0 <= i < |evs| => Agent(evs[i]))
  }

  /** What gets through when the k-th offer loses to the context whenever gone(k). */
  function Surviving(items: seq<Item>, gone: nat -> bool): seq<Item> {
    if items == [] then []
    else
      var n := |items| - 1;
      Surviving(items[..n], gone) + if gone(n) then [] else [items[n]]
  }

  lemma {:induction false} AllSurvive(items: seq<Item>, gone: nat -> bool)
    requires forall k: nat :: !gone(k)
    ensures Surviving(items, gone) == items
  {
    if items != [] {
      AllSurvive(items[..|items| - 1], gone);
    }
  }

  // ----- what the consumer makes of it ------------------------------------------

  function AgentPart(items: seq<Item>): seq<SM.StreamEvent> {
    if items == [] then []
    else AgentPart(items[..|items| - 1]) + if items[|items| - 1].Agent? then [items[|items| - 1].ev] else []
  }

  function ErrorPart(items: seq<Item>): seq<Error> {
    if items == [] then []
    else ErrorPart(items[..|items| - 1]) + if items[|items| - 1].ErrorEvent? then [items[|items| - 1].error] else []
  }

  lemma {:induction false} PartsConcat(a: seq<Item>, b: seq<Item>)
    ensures AgentPart(a + b) == AgentPart(a) + AgentPart(b) && ErrorPart(a + b) == ErrorPart(a) + ErrorPart(b)
  {
    if b == [] {
      assert a + b == a;
    } else {
      var n := |b| - 1;
      assert (a + b)[..|a + b| - 1] == a + b[..n] && (a + b)[|a + b| - 1] == b[n];
      PartsConcat(a, b[..n]);
    }
  }

  lemma {:induction false} WrapParts(evs: seq<SM.StreamEvent>)
    ensures AgentPart(Wrap(evs)) == evs && ErrorPart(Wrap(evs)) == []
  {
    if evs != [] {
      var n := |evs| - 1;
      WrapParts(evs[..n]);
      assert Wrap(evs)[..n] == Wrap(evs[..n]);
      assert evs == evs[..n] + [evs[n]];
    }
  }

  /** Everything offered is the agent's messages and requests, in the order it made them. */
  lemma {:induction false} OfferedShows(decoded: seq<Event>)
    ensures ErrorPart(Offered(decoded)) == []
    ensures SS.Read(AgentPart(Offered(decoded))) == SS.NOTHING.(messages := SS.Said(decoded), requests := SS.Asked(decoded))
  {
    if decoded != [] {
      var n := |decoded| - 1;
      var evs := SM.Outputs(decoded[n]);
      OfferedShows(decoded[..n]);
      WrapParts(evs);
      PartsConcat(Offered(decoded[..n]), Wrap(evs));
      SS.ReadConcat(AgentPart(Offered(decoded[..n])), evs);
      SS.OutputsShow(decoded[n]);
      SS.DueCases(decoded[n], false);
      hide AgentPart, SS.Read, SS.DueOf, Wrap, SM.Outputs;
    }
  }

  /** What later events are offered as comes after what earlier ones are, and changes none of it. */
  lemma {:induction false} OfferedInOrder(a: seq<Event>, b: seq<Event>)
    ensures Offered(a + b) == Offered(a) + Offered(b)
  {
    hide Wrap, SM.Outputs;
    if b == [] {
      assert a + b == a;
    } else {
      var n := |b| - 1;
      assert (a + b)[..|a + b| - 1] == a + b[..n] && (a + b)[|a + b| - 1] == b[n];
      OfferedInOrder(a, b[..n]);
      assert Offered(a) + Offered(b[..n]) + Wrap(SM.Outputs(b[n])) == Offered(a) + (Offered(b[..n]) + Wrap(SM.Outputs(b[n])));
    }
  }

  function Tail(error: Option<Error>): seq<Item> {
    if error.Some? then [ErrorEvent(error.value)] else []
  }

  function Shown(error: Option<Error>): seq<Error> {
    if error.Some? then [error.value] else []
  }

  lemma {:induction false} SurvivorsShowNoMore(items: seq<Item>, gone: nat -> bool)
    requires ErrorPart(items) == []
    ensures ErrorPart(Surviving(items, gone)) == []
  {
    if items != [] {
      var n := |items| - 1;
      SurvivorsShowNoMore(items[..n], gone);
      PartsConcat(Surviving(items[..n], gone), if gone(n) then [] else [items[n]]);
      assert [items[n]][..0] == [];
    }
  }

  lemma TailParts(error: Option<Error>)
    ensures AgentPart(Tail(error)) == [] && ErrorPart(Tail(error)) == Shown(error) && ErrorPart([]) == []
  {
    if error.Some? {
      assert Tail(error)[..0] == [];
    }
  }

  lemma TailSurvives(items: seq<Item>, error: Option<Error>, gone: nat -> bool)
    ensures Surviving(items + Tail(error), gone) ==
            Surviving(items, gone) + if gone(|items|) then [] else Tail(error)
  {
    if error.None? {
      assert items + [] == items && Surviving(items, gone) + [] == Surviving(items, gone);
    } else {
      assert (items + Tail(error))[..|items|] == items;
    }
  }

  lemma SentShows(decoded: seq<Event>, w: World, gone: nat -> bool)
    requires w.shown == if gone(|Offered(decoded)|) then None else Closing(w.state)
    ensures var sent := Surviving(Offered(decoded) + Tail(Closing(w.state)), gone);
            && ErrorPart(sent) == Shown(w.shown)
            && ((forall k: nat :: !gone(k)) ==>
                  SS.Read(AgentPart(sent)) == SS.NOTHING.(messages := SS.Said(decoded), requests := SS.Asked(decoded)))
  {
    var items, error := Offered(decoded), Closing(w.state);
    var tail := if gone(|items|) then [] else Tail(error);
    OfferedShows(decoded);
    SurvivorsShowNoMore(items, gone);
    TailSurvives(items, error, gone);
    TailParts(error);
    hide Offered, Surviving, Tail, Closing, AgentPart, ErrorPart, SS.Read, SS.Said, SS.Asked;
    PartsConcat(Surviving(items, gone), tail);
    assert [] + Shown(w.shown) == Shown(w.shown);
    if forall k: nat :: !gone(k) {
      AllSurvive(items, gone);
      assert AgentPart(items) + [] == AgentPart(items);
    }
  }

  /** What the pump's last steps come to. */
  lemma FinishIs(w: World, ending: Ending, exit: Option<string>, delivered: bool)
    requires Untold(w) && (!delivered ==> !w.ctx.Live?)
    ensures var state := AfterExit(w.state, ending, exit);
            PumpAlone(w, [], ending, exit, delivered) ==
            w.(pump := Done, ending := ending, exited := Some(exit), state := state,
               shown := if delivered then Closing(state) else None)
  {}

  /** What the first Wait's steps come to. */
  lemma WaitIs(w: World)
    requires w.pump.Done? && !w.feeding && w.once.Untouched?
    ensures var verdict := Verdict(w.state.events, Outcome(w.state, w.ctx, w.format));
            WaitAlone(w) ==
            w.(once := Over, snap := w.ctx, ctx := if w.ctx.Live? then Cancelled else w.ctx, verdict := verdict,
               store := if w.tracked then w.store + [NoticeOf(verdict.error)] else w.store, returned := w.returned + [verdict])
  {
    hide Outcome, NoticeOf;
    JoinIs(w);
  }

  lemma JoinIs(w: World)
    requires w.pump.Done? && !w.feeding && w.once.Untouched?
    ensures Apply(Apply(Apply(w, Enter), Join), Release) ==
            w.(once := Released, snap := w.ctx, ctx := if w.ctx.Live? then Cancelled else w.ctx)
  {}

  /** An undisturbed execution, its input given out and waited for at once: the whole outcome from what happened. */
  lemma UndisturbedOutcome(format: Format, tracked: bool, input: bool, decoded: seq<Event>, ending: Ending, exit: Option<string>)
    ensures var done := WaitAlone(PumpAlone(FedAlone(Started(format, tracked, input)), decoded, ending, exit, true));
            && done.verdict == Verdict(decoded, Account(decoded, ending, exit, Live, format))
            && done.returned == [done.verdict]
            && done.store == if tracked then [SetRunning, NoticeOf(done.verdict.error)] else []
  {
    hide Inv, Account, Apply, AfterExit, Outcome, Closing;
    var w := FedAlone(Started(format, tracked, input));
    FedIsFine(format, tracked, input);
    DecodeAllKeeps(w, decoded);
    var read := DecodeAll(w, decoded);
    PumpAloneSplits(w, decoded, ending, exit, true);
    var settled := PumpAlone(read, [], ending, exit, true);
    FinishIs(read, ending, exit, true);
    FinishKeepsInv(read, ending, exit, true);
    WaitIs(settled);
    DoneIsAccounted(settled, Live);
    assert w.state.events + decoded == decoded;
  }

  lemma FedIsFine(format: Format, tracked: bool, input: bool)
    ensures var w := FedAlone(Started(format, tracked, input));
            && Inv(w) && !w.feeding && Untold(w) && w.ctx == Live && w.state.events == []
            && w.format == format && w.tracked == tracked && w.returned == [] && w.store == Started(format, tracked, input).store
  {
    StartedIsFine(format, tracked, input);
    if input {
      StepKeepsInv(Started(format, tracked, input), CloseInput);
      StepKeepsInv(Apply(Started(format, tracked, input), CloseInput), FeederStops);
    }
  }

  lemma PumpAloneSplits(w: World, decoded: seq<Event>, ending: Ending, exit: Option<string>, delivered: bool)
    requires Untold(w) && (!delivered ==> !w.ctx.Live?)
    ensures PumpAlone(w, decoded, ending, exit, delivered) == PumpAlone(DecodeAll(w, decoded), [], ending, exit, delivered)
  {}

  lemma FinishKeepsInv(w: World, ending: Ending, exit: Option<string>, delivered: bool)
    requires Inv(w) && Untold(w) && (!delivered ==> !w.ctx.Live?)
    ensures Inv(PumpAlone(w, [], ending, exit, delivered))
    ensures PumpAlone(w, [], ending, exit, delivered).state.events == w.state.events
  {
    hide Inv;
    var ended := Apply(w, StreamEnds(ending));
    var exited := Apply(ended, Exit(exit));
    StepKeepsInv(w, StreamEnds(ending));
    StepKeepsInv(ended, Exit(exit));
    StepKeepsInv(exited, Settle);
    StepKeepsInv(Apply(exited, Settle), Report(delivered));
  }

  lemma DoneIsAccounted(w: World, ctx: Context)
    requires Inv(w) && w.pump.Done?
    ensures w.exited.Some?
    ensures Outcome(w.state, ctx, w.format) == Account(w.state.events, w.ending, w.exited.value, ctx, w.format)
  {
    OutcomeIsAccount(w.(snap := ctx));
  }

  lemma {:induction false} DecodeAllKeeps(w: World, decoded: seq<Event>)
    requires Inv(w) && w.pump.Reading?
    ensures var v := DecodeAll(w, decoded);
            && Inv(v) && v.state.events == w.state.events + decoded
            && v == w.(state := v.state)
  {
    hide Inv;
    if decoded == [] {
      assert w.state.events + [] == w.state.events;
    } else {
      var n := |decoded| - 1;
      DecodeAllKeeps(w, decoded[..n]);
      StepKeepsInv(DecodeAll(w, decoded[..n]), Decode(decoded[n]));
      assert w.state.events + decoded[..n] + [decoded[n]] == w.state.events + decoded;
    }
  }

  lemma NothingOffered(w: World, decoded: seq<Event>, gone: nat -> bool)
    requires w.pump.Reading?
    ensures DecodeAll(w, decoded[..0]) == w && Offered(decoded[..0]) == [] && Surviving([], gone) == []
  {}

  lemma PumpNext(w: World, decoded: seq<Event>, i: nat)
    requires w.pump.Reading? && i < |decoded|
    ensures DecodeAll(w, decoded[..i + 1]) == Apply(DecodeAll(w, decoded[..i]), Decode(decoded[i]))
    ensures Offered(decoded[..i + 1]) == Offered(decoded[..i]) + Wrap(SM.Outputs(decoded[i]))
  {
    assert decoded[..i + 1][..i] == decoded[..i];
  }

  class Execution {
    const format: Format
    const tracked: bool
    var events: seq<Event>
    var terminalSeen: bool
    var terminalErr: Option<string>
    var processErr: Option<string>
    var protocolErr: Option<string>
    var ctx: Context
    var inputOpen: bool
    var feeding: bool
    var waited: bool
    var waitResult: Verdict
    var store: seq<Notice>
    /** What the consumer was given, and how many offers there have been. */
    var sent: seq<Item>
    var offers: nat
    ghost var model: World

    ghost predicate Valid()
      reads this
    {
      && model.format == format && model.tracked == tracked
      && model.state == State(events, terminalSeen, terminalErr, processErr, protocolErr)
      && model.ctx == ctx && model.store == store
      && model.inputOpen == inputOpen && model.feeding == feeding
      && (if waited then model.once.Over? && model.verdict == waitResult else model.once.Untouched?)
    }

    constructor (format: Format, tracked: bool, input: bool)
      ensures Valid() && model == Started(format, tracked, input) && sent == [] && offers == 0
    {
      this.format, this.tracked := format, tracked;
      events, terminalSeen, terminalErr, processErr, protocolErr := [], false, None, None, None;
      ctx, waited, waitResult := Live, false, Verdict([], None);
      inputOpen, feeding := input, input;
      store := if tracked then [SetRunning] else [];
      sent, offers := [], 0;
      model := Started(format, tracked, input);
    }

    /**
     The feeder, which writes the initial input until there is no more, the context ends, or a
     write fails.
     */
    method Feed(failed: bool)
      requires Valid() && feeding && (failed || !inputOpen || !ctx.Live?) && (failed ==> inputOpen)
      modifies this`feeding, this`model
      ensures Valid() && model == Apply(old(model), if failed then FeedFails else FeederStops) && !feeding
    {
      model := Apply(model, if failed then FeedFails else FeederStops);
      feeding := false;
    }

    /** Whoever gives the initial input has no more of it. */
    method EndInput()
      requires Valid() && inputOpen
      modifies this`inputOpen, this`model
      ensures Valid() && model == Apply(old(model), CloseInput) && !inputOpen
    {
      model := Apply(model, CloseInput);
      inputOpen := false;
    }

    /** Records an event and what it says about the outcome. */
    method Observe(ev: Event)
      requires Valid() && model.pump.Reading?
      modifies this`events, this`terminalSeen, this`terminalErr, this`model
      ensures Valid() && model == Apply(old(model), Decode(ev))
    {
      model := Apply(model, Decode(ev));
      events := events + [ev];
      match ev.kind {
        case Success => terminalSeen := true;
        case Failure(detail) =>
          terminalSeen := true;
          terminalErr := Some(detail);
        case _ =>
      }
    }

    method Emit(ghost before: seq<Item>, item: Item, gone: nat -> bool)
      requires offers == |before| && sent == Surviving(before, gone)
      modifies this`sent, this`offers
      ensures offers == |before + [item]| && sent == Surviving(before + [item], gone)
    {
      assert (before + [item])[..|before|] == before;
      if !gone(offers) {
        sent := sent + [item];
      }
      offers := offers + 1;
    }

    /** Offers everything one event stands for. */
    method EmitAll(ghost before: seq<Item>, evs: seq<SM.StreamEvent>, gone: nat -> bool)
      requires offers == |before| && sent == Surviving(before, gone)
      modifies this`sent, this`offers
      ensures offers == |before + Wrap(evs)| && sent == Surviving(before + Wrap(evs), gone)
    {
      var i := 0;
      assert before + Wrap(evs)[..0] == before;
      while i < |evs|
        invariant 0 <= i <= |evs|
        invariant offers == |before| + i && sent == Surviving(before + Wrap(evs)[..i], gone)
      {
        Emit(before + Wrap(evs)[..i], Agent(evs[i]), gone);
        assert before + Wrap(evs)[..i] + [Agent(evs[i])] == before + Wrap(evs)[..i + 1];
        i := i + 1;
      }
      assert Wrap(evs)[..i] == Wrap(evs);
    }

    /** The pump: every decoded event, the join with the process, the closing error event. */
    method Pump(decoded: seq<Event>, ending: Ending, exit: Option<string>, gone: nat -> bool)
      requires Valid() && Untold(model) && offers == 0 && sent == []
      requires ctx.Live? ==> forall k: nat :: !gone(k)
      modifies this
      ensures Valid() && ctx == old(ctx)
      ensures var items := Offered(decoded);
              model == PumpAlone(old(model), decoded, ending, exit, !gone(|items|))
      ensures sent == Surviving(Offered(decoded) + Tail(Closing(model.state)), gone)
      ensures ErrorPart(sent) == Shown(model.shown)
      ensures (forall k: nat :: !gone(k)) ==>
                SS.Read(AgentPart(sent)) == SS.NOTHING.(messages := SS.Said(decoded), requests := SS.Asked(decoded))
    {
      hide PumpAlone, Apply, Closing, DecodeAll, Offered, Surviving, Wrap, Tail, AgentPart, ErrorPart, SM.Outputs;
      NothingOffered(model, decoded, gone);
      var i := 0;
      while i < |decoded|
        invariant 0 <= i <= |decoded|
        invariant Valid() && model == DecodeAll(old(model), decoded[..i]) && ctx == old(ctx) && !waited
        invariant offers == |Offered(decoded[..i])| && sent == Surviving(Offered(decoded[..i]), gone)
      {
        PumpNext(old(model), decoded, i);
        Observe(decoded[i]);
        EmitAll(Offered(decoded[..i]), SM.Outputs(decoded[i]), gone);
        i := i + 1;
      }
      assert decoded[..i] == decoded;
      PumpAloneSplits(old(model), decoded, ending, exit, !gone(|Offered(decoded)|));
      Finish(decoded, ending, exit, gone);
      SentShows(decoded, model, gone);
    }

    method Finish(ghost decoded: seq<Event>, ending: Ending, exit: Option<string>, gone: nat -> bool)
      requires Valid() && Untold(model) && (ctx.Live? ==> forall k: nat :: !gone(k))
      requires offers == |Offered(decoded)| && sent == Surviving(Offered(decoded), gone)
      modifies this
      ensures Valid() && ctx == old(ctx)
      ensures model == PumpAlone(old(model), [], ending, exit, !gone(|Offered(decoded)|))
      ensures sent == Surviving(Offered(decoded) + Tail(Closing(model.state)), gone)
      ensures model.shown == if gone(|Offered(decoded)|) then None else Closing(model.state)
    {
      hide Surviving, Offered, PumpAlone, AfterExit, Closing;
      ghost var n := |Offered(decoded)|;
      FinishIs(model, ending, exit, !gone(n));
      model := PumpAlone(model, [], ending, exit, !gone(n));
      Settle(ending, exit);
      EmitClosing(Offered(decoded), gone);
    }

    /** How the process and the decoder ended. */
    method Settle(ending: Ending, exit: Option<string>)
      modifies this`processErr, this`protocolErr
      ensures State(events, terminalSeen, terminalErr, processErr, protocolErr)
           == AfterExit(old(State(events, terminalSeen, terminalErr, processErr, protocolErr)), ending, exit)
    {
      var terminalSucceeded := terminalSeen && terminalErr.None?;
      if exit.Some? && !terminalSucceeded {
        processErr := exit;
      }
      if ending.Broken? {
        protocolErr := Some(ending.detail);
      }
    }

    /** The error the stream ends with, when there is one to show. */
    method EmitClosing(ghost before: seq<Item>, gone: nat -> bool)
      requires offers == |before| && sent == Surviving(before, gone)
      modifies this`sent, this`offers
      ensures sent == Surviving(before + Tail(Closing(State(events, terminalSeen, terminalErr, processErr, protocolErr))), gone)
    {
      hide Surviving;
      if protocolErr.Some? {
        Emit(before, ErrorEvent(ProtocolError(protocolErr.value)), gone);
      } else if terminalErr.None? && processErr.Some? {
        Emit(before, ErrorEvent(ProcessError(processErr.value)), gone);
      } else {
        assert before + [] == before;
      }
    }

    /** What the recorded state amounts to, by precedence. */
    method Conclude(runCtxErr: Context) returns (err: Option<Error>)
      ensures err == Outcome(State(events, terminalSeen, terminalErr, processErr, protocolErr), runCtxErr, format)
    {
      if terminalErr.Some? {
        err := Some(ResultError(terminalErr.value));
      } else if !runCtxErr.Live? {
        err := Some(ContextDone(runCtxErr));
      } else if protocolErr.Some? {
        err := Some(ProtocolError(protocolErr.value));
      } else if processErr.Some? {
        err := Some(ProcessError(processErr.value));
      } else if format.StreamJson? && !terminalSeen {
        err := Some(NoTerminalResult);
      } else {
        err := None;
      }
    }

    /** Blocks until the pump and the feeder are done; the outcome is settled by the first caller. */
    method Wait() returns (v: Verdict)
      requires Valid() && model.pump.Done? && (!waited ==> !feeding)
      modifies this
      ensures Valid() && waited
      ensures model == if old(waited) then Apply(old(model), Return) else WaitAlone(old(model))
      ensures v == model.verdict && model.returned == old(model).returned + [v]
    {
      hide WaitAlone, Outcome;
      if !waited {
        WaitIs(model);
        model := WaitAlone(model);
        var runCtxErr := ctx;
        if ctx.Live? {
          ctx := Cancelled;
        }
        var err := Conclude(runCtxErr);
        waitResult := Verdict(events, err);
        waited := true;
        if tracked {
          store := store + [if err.Some? then SetFailed(err.value) else SetCompleted];
        }
      } else {
        model := Apply(model, Return);
      }
      v := waitResult;
    }
  }
}
