/** One-shot execution as a state machine. */
module ExecutionMachine {
  /*
   The pump records whatever the decoder yields, the process exits, the context may end at any
   moment, and any number of goroutines wait for the outcome. The first of them computes it once;
   the store is told on the way.
   */

  import opened Prelude
  import SM = SessionMachine

  type Event = SM.Event

  datatype Format = StreamJson | Other

  datatype Context = Live | Cancelled | Expired

  /** How decoding ended: at EOF, with a context error, or with a fatal one. */
  datatype Ending = Eof | Interrupted | Broken(detail: string)

  datatype Error =
    | ResultError(detail: string)
    | ContextDone(cause: Context)
    | ProtocolError(detail: string)
    | ProcessError(detail: string)
    | NoTerminalResult

  datatype Notice = SetRunning | SetCompleted | SetFailed(error: Error)

  datatype Verdict = Verdict(events: seq<Event>, error: Option<Error>)

  // ----- what the stream says -----------------------------------------------

  predicate Seen(events: seq<Event>) {
    exists i :: 0 <= i < |events| && SM.Terminal(events[i])
  }

  /** The last terminal error; a later success does not take it back. */
  function LastFailure(events: seq<Event>): Option<string> {
    if events == [] then None
    else
      match events[|events| - 1].kind
      case Failure(detail) => Some(detail)
      case _ => LastFailure(events[..|events| - 1])
  }

  lemma {:induction false} LastFailureIsSome(events: seq<Event>)
    ensures LastFailure(events).Some? <==> exists i :: 0 <= i < |events| && events[i].kind.Failure?
    ensures LastFailure(events).Some? ==> Seen(events)
  {
    if events != [] {
      var n := |events| - 1;
      LastFailureIsSome(events[..n]);
      if LastFailure(events[..n]).Some? {
        var i :| 0 <= i < n && events[..n][i].kind.Failure?;
        assert events[i].kind.Failure? && SM.Terminal(events[i]);
      }
      if events[n].kind.Failure? {
        assert SM.Terminal(events[n]);
      } else if i :| 0 <= i < |events| && events[i].kind.Failure? {
        assert events[..n][i].kind.Failure?;
      }
    }
  }

  // ----- the machine --------------------------------------------------------

  datatype State = State(
    events: seq<Event>, terminalSeen: bool, terminalErr: Option<string>,
    processErr: Option<string>, protocolErr: Option<string>)

  datatype Pump = Reading | Joining | Reporting | Done

  /** How far the one run of the once-body is. */
  datatype Once = Untouched | Entered | Snapped | Released | Computed | Over

  datatype World = World(
    format: Format, tracked: bool, inputOpen: bool, feeding: bool, state: State,
    pump: Pump, ending: Ending, exited: Option<Option<string>>, ctx: Context,
    once: Once, snap: Context, verdict: Verdict, store: seq<Notice>,
    shown: Option<Error>, returned: seq<Verdict>)

  /**
   A started process; `tracked` when there is a store and a session id, `input` when there is an
   initial input to feed to it.
   */
  function Started(format: Format, tracked: bool, input: bool): World {
    World(format, tracked, input, input, State([], false, None, None, None), Reading, Eof, None, Live,
          Untouched, Live, Verdict([], None), if tracked then [SetRunning] else [], None, [])
  }

  datatype Step =
    | Decode(ev: Event)
    | StreamEnds(ending: Ending)
    | Exit(error: Option<string>)
    | Settle
    | Report(delivered: bool)
    | ContextEnds(cause: Context)
    | CloseInput
    | FeederStops
    | FeedFails
    | Enter
    | Join
    | Release
    | Compute
    | Tell
    | Return

  predicate Enabled(w: World, l: Step) {
    match l
    case Decode(_) => w.pump.Reading?
    case StreamEnds(_) => w.pump.Reading?
    case Exit(_) => w.exited.None?
    case Settle => w.pump.Joining? && w.exited.Some?
    case Report(delivered) => w.pump.Reporting? && (!delivered ==> !w.ctx.Live?)
    case ContextEnds(cause) => w.ctx.Live? && !cause.Live?
    case CloseInput => w.inputOpen
    case FeederStops => w.feeding && (!w.inputOpen || !w.ctx.Live?)
    case FeedFails => w.feeding && w.inputOpen
    case Enter => w.once.Untouched?
    case Join => w.once.Entered? && w.pump.Done? && !w.feeding
    case Release => w.once.Snapped?
    case Compute => w.once.Released?
    case Tell => w.once.Computed?
    case Return => w.once.Over?
  }

  function AfterDecode(s: State, ev: Event): State {
    var recorded := s.(events := s.events + [ev]);
    match ev.kind
    case Success => recorded.(terminalSeen := true)
    case Failure(detail) => recorded.(terminalSeen := true, terminalErr := Some(detail))
    case _ => recorded
  }

  /** A terminal success outranks how the process ended. */
  function AfterExit(s: State, ending: Ending, exit: Option<string>): State {
    var succeeded := s.terminalSeen && s.terminalErr.None?;
    s.(processErr := if exit.Some? && !succeeded then exit else s.processErr,
       protocolErr := if ending.Broken? then Some(ending.detail) else s.protocolErr)
  }

  /** The error event that ends the stream, if one does. */
  function Closing(s: State): Option<Error> {
    if s.protocolErr.Some? then Some(ProtocolError(s.protocolErr.value))
    else if s.terminalErr.None? && s.processErr.Some? then Some(ProcessError(s.processErr.value))
    else None
  }

  function Outcome(s: State, ctx: Context, format: Format): Option<Error> {
    if s.terminalErr.Some? then Some(ResultError(s.terminalErr.value))
    else if !ctx.Live? then Some(ContextDone(ctx))
    else if s.protocolErr.Some? then Some(ProtocolError(s.protocolErr.value))
    else if s.processErr.Some? then Some(ProcessError(s.processErr.value))
    else if format.StreamJson? && !s.terminalSeen then Some(NoTerminalResult)
    else None
  }

  function NoticeOf(error: Option<Error>): Notice {
    if error.Some? then SetFailed(error.value) else SetCompleted
  }

  function Apply(w: World, l: Step): World
    requires Enabled(w, l)
  {
    match l
    case Decode(ev) => w.(state := AfterDecode(w.state, ev))
    case StreamEnds(ending) => w.(pump := Joining, ending := ending)
    case Exit(error) => w.(exited := Some(error))
    case Settle => w.(pump := Reporting, state := AfterExit(w.state, w.ending, w.exited.value))
    case Report(delivered) => w.(pump := Done, shown := if delivered then Closing(w.state) else None)
    case ContextEnds(cause) => w.(ctx := cause)
    case CloseInput => w.(inputOpen := false)
    case FeederStops => w.(feeding := false)
    case FeedFails => w.(feeding := false)
    case Enter => w.(once := Entered)
    case Join => w.(once := Snapped, snap := w.ctx)
    case Release => w.(once := Released, ctx := if w.ctx.Live? then Cancelled else w.ctx)
    case Compute => w.(once := Computed, verdict := Verdict(w.state.events, Outcome(w.state, w.snap, w.format)))
    case Tell => w.(once := Over, store := if w.tracked then w.store + [NoticeOf(w.verdict.error)] else w.store)
    case Return => w.(returned := w.returned + [w.verdict])
  }

  ghost predicate IsRun(ws: seq<World>, ls: seq<Step>, format: Format, tracked: bool, input: bool) {
    && |ws| == |ls| + 1
    && ws[0] == Started(format, tracked, input)
    && forall i {:trigger ls[i]} :: 0 <= i < |ls| ==> Enabled(ws[i], ls[i]) && ws[i + 1] == Apply(ws[i], ls[i])
  }

  // ----- what every step keeps ----------------------------------------------

  predicate Settled(w: World) {
    w.pump.Reporting? || w.pump.Done?
  }

  predicate Decided(w: World) {
    w.once.Computed? || w.once.Over?
  }

  predicate Joined(w: World) {
    w.once.Snapped? || w.once.Released? || Decided(w)
  }

  /** What Wait reports, from what happened. */
  function Account(events: seq<Event>, ending: Ending, exit: Option<string>, ctx: Context, format: Format): Option<Error> {
    if LastFailure(events).Some? then Some(ResultError(LastFailure(events).value))
    else if !ctx.Live? then Some(ContextDone(ctx))
    else if ending.Broken? then Some(ProtocolError(ending.detail))
    else if exit.Some? && !Seen(events) then Some(ProcessError(exit.value))
    else if format.StreamJson? && !Seen(events) then Some(NoTerminalResult)
    else None
  }

  ghost predicate Recorded(w: World) {
    var s := w.state;
    && (s.terminalSeen <==> Seen(s.events)) && s.terminalErr == LastFailure(s.events)
    && (Settled(w) ==>
          && w.exited.Some?
          && s.processErr == (if Seen(s.events) && LastFailure(s.events).None? then None else w.exited.value)
          && s.protocolErr == if w.ending.Broken? then Some(w.ending.detail) else None)
    && (!Settled(w) ==> s.processErr.None? && s.protocolErr.None?)
  }

  ghost predicate Concluded(w: World) {
    && (Joined(w) ==> w.pump.Done? && !w.feeding)
    && (Decided(w) ==> w.exited.Some? && w.verdict == Verdict(w.state.events,
          Account(w.state.events, w.ending, w.exited.value, w.snap, w.format)))
    && w.store == (if !w.tracked then [] else if w.once.Over? then [SetRunning, NoticeOf(w.verdict.error)] else [SetRunning])
    && (w.returned != [] ==> w.once.Over?)
    && (forall k :: 0 <= k < |w.returned| ==> w.returned[k] == w.verdict)
    && (w.shown.Some? ==> w.pump.Done? && w.shown == Closing(w.state))
  }

  ghost predicate Inv(w: World) {
    Recorded(w) && Concluded(w)
  }

  lemma SeenAfter(events: seq<Event>, ev: Event)
    ensures Seen(events + [ev]) <==> Seen(events) || SM.Terminal(ev)
    ensures LastFailure(events + [ev]) == match ev.kind case Failure(detail) => Some(detail) case _ => LastFailure(events)
  {
    var longer := events + [ev];
    assert longer[..|longer| - 1] == events && longer[|events|] == ev;
    if Seen(events) {
      var i :| 0 <= i < |events| && SM.Terminal(events[i]);
      assert SM.Terminal(longer[i]);
    }
  }

  lemma OutcomeIsAccount(w: World)
    requires Recorded(w) && Settled(w)
    ensures Outcome(w.state, w.snap, w.format) == Account(w.state.events, w.ending, w.exited.value, w.snap, w.format)
  {
    LastFailureIsSome(w.state.events);
  }

  lemma StepKeepsInv(w: World, l: Step)
    requires Inv(w) && Enabled(w, l)
    ensures Inv(Apply(w, l))
  {
    hide Seen, LastFailure, Account;
    match l
    case Decode(ev) => SeenAfter(w.state.events, ev);
    case Compute => OutcomeIsAccount(w);
    case _ =>
  }

  lemma {:induction false} InvHolds(ws: seq<World>, ls: seq<Step>, format: Format, tracked: bool, input: bool, n: nat)
    requires IsRun(ws, ls, format, tracked, input) && n <= |ls|
    ensures Inv(ws[n]) && ws[n].format == format && ws[n].tracked == tracked
  {
    hide Seen, LastFailure, Account, Apply;
    if n > 0 {
      hide Inv, Enabled;
      InvHolds(ws, ls, format, tracked, input, n - 1);
      assert ws[n] == Apply(ws[n - 1], ls[n - 1]) && Enabled(ws[n - 1], ls[n - 1]);
      StepKeepsInv(ws[n - 1], ls[n - 1]);
      StaysConfigured(ws[n - 1], ls[n - 1]);
    } else {
      StartedIsFine(format, tracked, input);
    }
  }

  lemma StartedIsFine(format: Format, tracked: bool, input: bool)
    ensures Inv(Started(format, tracked, input))
  {}

  lemma StaysConfigured(w: World, l: Step)
    requires Enabled(w, l)
    ensures Apply(w, l).format == w.format && Apply(w, l).tracked == w.tracked
  {
    match l
    case _ =>
  }

  // ----- what Wait promises -------------------------------------------------

  /** The events decoded so far, in order. */
  ghost function DecodedBy(ls: seq<Step>): seq<Event> {
    if ls == [] then []
    else
      var rest := DecodedBy(ls[..|ls| - 1]);
      if ls[|ls| - 1].Decode? then rest + [ls[|ls| - 1].ev] else rest
  }

  lemma {:induction false} EventsAreDecoded(ws: seq<World>, ls: seq<Step>, format: Format, tracked: bool, input: bool, n: nat)
    requires IsRun(ws, ls, format, tracked, input) && n <= |ls|
    ensures ws[n].state.events == DecodedBy(ls[..n])
  {
    if n > 0 {
      EventsAreDecoded(ws, ls, format, tracked, input, n - 1);
      assert ls[..n][..n - 1] == ls[..n - 1];
      assert ws[n] == Apply(ws[n - 1], ls[n - 1]) && Enabled(ws[n - 1], ls[n - 1]);
      match ls[n - 1]
      case _ =>
    }
  }

  /** Every call of Wait returns the whole stream, after the process is gone, and all return the same. */
  lemma WaitersAgree(ws: seq<World>, ls: seq<Step>, format: Format, tracked: bool, input: bool, n: nat, k: nat)
    requires IsRun(ws, ls, format, tracked, input) && n <= |ls| && k < |ws[n].returned|
    ensures ws[n].returned[k] == ws[n].returned[0]
    ensures ws[n].returned[k].events == DecodedBy(ls[..n])
    ensures ws[n].pump.Done? && ws[n].exited.Some?
  {
    InvHolds(ws, ls, format, tracked, input, n);
    EventsAreDecoded(ws, ls, format, tracked, input, n);
  }

  /**
   In stream-json Wait succeeds exactly when a terminal result was seen, none was an error,
   the context was live when the first waiter looked, and decoding did not break. The exit of
   the process does not matter. In the other formats it stands in for a missing result.
   */
  lemma SucceedsExactlyWhen(ws: seq<World>, ls: seq<Step>, format: Format, tracked: bool, input: bool, n: nat, k: nat)
    requires IsRun(ws, ls, format, tracked, input) && n <= |ls| && k < |ws[n].returned|
    ensures var events := DecodedBy(ls[..n]);
            ws[n].returned[k].error.None? <==>
              && (forall i :: 0 <= i < |events| ==> !events[i].kind.Failure?)
              && ws[n].snap.Live? && !ws[n].ending.Broken?
              && (Seen(events) || (format.Other? && ws[n].exited == Some(None)))
  {
    InvHolds(ws, ls, format, tracked, input, n);
    EventsAreDecoded(ws, ls, format, tracked, input, n);
    LastFailureIsSome(ws[n].state.events);
  }

  /** The failure of this detail is the last there is. */
  ghost predicate FailedLastWith(events: seq<Event>, detail: string) {
    exists i :: 0 <= i < |events| && events[i].kind == SM.Failure(detail)
             && forall j :: i < j < |events| ==> !events[j].kind.Failure?
  }

  lemma {:induction false} LastFailureIs(events: seq<Event>, detail: string)
    ensures LastFailure(events) == Some(detail) <==> FailedLastWith(events, detail)
  {
    if events != [] {
      var n := |events| - 1;
      LastFailureIs(events[..n], detail);
      if events[n].kind.Failure? {
        assert events[n].kind == SM.Failure(detail) ==> FailedLastWith(events, detail);
      } else {
        assert forall i :: 0 <= i < n ==> events[..n][i] == events[i];
        if FailedLastWith(events[..n], detail) {
          var i :| 0 <= i < n && events[..n][i].kind == SM.Failure(detail)
                && forall j :: i < j < n ==> !events[..n][j].kind.Failure?;
          assert events[i].kind == SM.Failure(detail);
        }
        if FailedLastWith(events, detail) {
          var i :| 0 <= i < |events| && events[i].kind == SM.Failure(detail)
                && forall j :: i < j < |events| ==> !events[j].kind.Failure?;
          assert events[..n][i].kind == SM.Failure(detail);
        }
      }
    }
  }

  /** No turn ended in an error, and none was cut short by the context or the decoder. */
  ghost predicate Undecided(events: seq<Event>, snap: Context, ending: Ending) {
    (forall i :: 0 <= i < |events| ==> !events[i].kind.Failure?) && snap.Live? && !ending.Broken?
  }

  /**
   What a failing Wait reports is the strongest reason there is: the agent's own last error, before
   the context's end, before a broken stream, before a bad exit, before a missing result.
   */
  lemma FailsExactlyFor(ws: seq<World>, ls: seq<Step>, format: Format, tracked: bool, input: bool, n: nat, k: nat)
    requires IsRun(ws, ls, format, tracked, input) && n <= |ls| && k < |ws[n].returned|
    ensures var events, w := DecodedBy(ls[..n]), ws[n];
            match w.returned[k].error
            case Some(ResultError(detail)) => FailedLastWith(events, detail)
            case Some(ContextDone(cause)) =>
              (forall i :: 0 <= i < |events| ==> !events[i].kind.Failure?) && cause == w.snap && !w.snap.Live?
            case Some(ProtocolError(detail)) =>
              (forall i :: 0 <= i < |events| ==> !events[i].kind.Failure?) && w.snap.Live? && w.ending == Broken(detail)
            case Some(ProcessError(detail)) =>
              Undecided(events, w.snap, w.ending) && !Seen(events) && w.exited == Some(Some(detail))
            case Some(NoTerminalResult) =>
              Undecided(events, w.snap, w.ending) && !Seen(events) && w.exited == Some(None) && format.StreamJson?
            case None => true
  {
    InvHolds(ws, ls, format, tracked, input, n);
    EventsAreDecoded(ws, ls, format, tracked, input, n);
    LastFailureIsSome(ws[n].state.events);
    if LastFailure(ws[n].state.events).Some? {
      LastFailureIs(ws[n].state.events, LastFailure(ws[n].state.events).value);
    }
    hide IsRun, LastFailure, Recorded, FailedLastWith, Seen;
  }

  /**
   The stream ends with an error exactly when that error could be delivered and the decoder broke,
   or the process failed before any turn had ended.
   */
  lemma ShowsErrorExactlyWhen(ws: seq<World>, ls: seq<Step>, format: Format, tracked: bool, input: bool, n: nat)
    requires IsRun(ws, ls, format, tracked, input) && n < |ls| && ls[n].Report?
    ensures var events, w := DecodedBy(ls[..n]), ws[n];
            && w.exited.Some?
            && ws[n + 1].shown == if !ls[n].delivered then None
                                  else if w.ending.Broken? then Some(ProtocolError(w.ending.detail))
                                  else if w.exited.value.Some? && !Seen(events) then Some(ProcessError(w.exited.value.value))
                                  else None
  {
    InvHolds(ws, ls, format, tracked, input, n);
    EventsAreDecoded(ws, ls, format, tracked, input, n);
    LastFailureIsSome(ws[n].state.events);
    assert ws[n + 1] == Apply(ws[n], ls[n]) && Enabled(ws[n], ls[n]);
    hide IsRun, LastFailure, Seen;
  }

  /** By the time anyone returns, a tracked store has heard one start and one matching end. */
  lemma StoreHearsOnce(ws: seq<World>, ls: seq<Step>, format: Format, tracked: bool, input: bool, n: nat)
    requires IsRun(ws, ls, format, tracked, input) && n <= |ls|
    ensures !tracked ==> ws[n].store == []
    ensures tracked ==> ws[n].store == [SetRunning] || ws[n].store == [SetRunning, NoticeOf(ws[n].verdict.error)]
    ensures tracked && ws[n].returned != [] ==>
              ws[n].store == [SetRunning, match ws[n].returned[0].error case Some(e) => SetFailed(e) case None => SetCompleted]
  {
    InvHolds(ws, ls, format, tracked, input, n);
  }

  /** An error shown at the end of the stream is never followed by a successful Wait. */
  lemma ShownErrorMeansFailure(ws: seq<World>, ls: seq<Step>, format: Format, tracked: bool, input: bool, n: nat, k: nat)
    requires IsRun(ws, ls, format, tracked, input) && n <= |ls| && k < |ws[n].returned| && ws[n].shown.Some?
    ensures ws[n].returned[k].error.Some?
    ensures ws[n].snap.Live? && LastFailure(DecodedBy(ls[..n])).None? ==> ws[n].returned[k].error == ws[n].shown
  {
    InvHolds(ws, ls, format, tracked, input, n);
    EventsAreDecoded(ws, ls, format, tracked, input, n);
    LastFailureIsSome(ws[n].state.events);
  }

  /** Nothing a waiter learns changes afterwards. */
  lemma {:induction false} VerdictIsFinal(ws: seq<World>, ls: seq<Step>, format: Format, tracked: bool, input: bool, m: nat, n: nat)
    requires IsRun(ws, ls, format, tracked, input) && m <= n <= |ls| && ws[m].once.Over?
    ensures ws[n].once.Over? && ws[n].verdict == ws[m].verdict && ws[n].store == ws[m].store
  {
    if m < n {
      VerdictIsFinal(ws, ls, format, tracked, input, m, n - 1);
      assert ws[n] == Apply(ws[n - 1], ls[n - 1]) && Enabled(ws[n - 1], ls[n - 1]);
      match ls[n - 1]
      case _ =>
    }
  }

  /**
   The context counts until the first waiter looks, not until the run is over: a run that
   ended in success, its process gone and its stream closed, still fails if its deadline
   passes before anyone calls Wait.
   */
  lemma LateWaitFails(ok: Event) returns (ws: seq<World>, ls: seq<Step>)
    requires ok.kind.Success?
    ensures IsRun(ws, ls, StreamJson, true, false) && |ls| == 12 && |ws| == 13
    ensures ws[5].pump.Done? && ws[5].ctx.Live? && ws[5].state.events == [ok]
    ensures ws[12].returned == [Verdict([ok], Some(ContextDone(Expired)))]
    ensures ws[12].store == [SetRunning, SetFailed(ContextDone(Expired))]
  {
    hide IsRun;
    ws, ls := FinishedWell(ok, false);
    ws, ls := Go(ws, ls, ContextEnds(Expired), StreamJson, true, false);
    ws, ls := Go(ws, ls, Enter, StreamJson, true, false);
    ws, ls := Go(ws, ls, Join, StreamJson, true, false);
    ws, ls := Go(ws, ls, Release, StreamJson, true, false);
    ws, ls := Go(ws, ls, Compute, StreamJson, true, false);
    ws, ls := Go(ws, ls, Tell, StreamJson, true, false);
    ws, ls := Go(ws, ls, Return, StreamJson, true, false);
  }

  lemma FinishedWell(ok: Event, input: bool) returns (ws: seq<World>, ls: seq<Step>)
    requires ok.kind.Success?
    ensures IsRun(ws, ls, StreamJson, true, input) && |ls| == 5 && |ws| == 6
    ensures ws[5] == Started(StreamJson, true, input).(state := State([ok], true, None, None, None), pump := Done, exited := Some(None))
  {
    ws, ls := [Started(StreamJson, true, input)], [];
    assert IsRun(ws, ls, StreamJson, true, input);
    hide IsRun;
    ws, ls := Go(ws, ls, Decode(ok), StreamJson, true, input);
    ws, ls := Go(ws, ls, StreamEnds(Eof), StreamJson, true, input);
    ws, ls := Go(ws, ls, Exit(None), StreamJson, true, input);
    ws, ls := Go(ws, ls, Settle, StreamJson, true, input);
    ws, ls := Go(ws, ls, Report(true), StreamJson, true, input);
  }

  // ----- whether Wait returns -------------------------------------------------

  /** A step of the program's own goroutines; the rest are the agent's, the caller's or the clock's. */
  predicate Programs(l: Step) {
    l.Settle? || l.Report? || l.FeederStops? || l.Join? || l.Release? || l.Compute? || l.Tell?
  }

  predicate UnderWay(w: World) {
    w.once.Entered? || w.once.Snapped? || w.once.Released? || w.once.Computed?
  }

  /** What a Wait can be waiting for: the stream, the exit, or the end of the initial input. */
  predicate AwaitsOthers(w: World) {
    && w.once.Entered?
    && (w.pump.Reading? || (w.pump.Joining? && w.exited.None?) || (w.pump.Done? && w.feeding))
    && (w.feeding ==> w.inputOpen && w.ctx.Live?)
  }

  ghost predicate CanGoOn(w: World) {
    exists l :: Programs(l) && Enabled(w, l)
  }

  /**
   A Wait under way can go on by itself except while the stream is open, the process has not
   exited, or all of that is over but the initial input is still open under a live context.
   */
  lemma WaitIsHeldUpExactlyWhen(ws: seq<World>, ls: seq<Step>, format: Format, tracked: bool, input: bool, n: nat)
    requires IsRun(ws, ls, format, tracked, input) && n <= |ls| && UnderWay(ws[n])
    ensures !CanGoOn(ws[n]) <==> AwaitsOthers(ws[n])
  {
    InvHolds(ws, ls, format, tracked, input, n);
    var w := ws[n];
    if !AwaitsOthers(w) {
      var l := if w.once.Snapped? then Release else if w.once.Released? then Compute else if w.once.Computed? then Tell
               else if w.pump.Reporting? then Report(true)
               else if w.pump.Joining? && w.exited.Some? then Settle
               else if w.feeding && (!w.inputOpen || !w.ctx.Live?) then FeederStops
               else Join;
      assert Programs(l) && Enabled(w, l);
    }
  }

  function Measure(w: World): nat {
    (match w.pump case Reading => 3 case Joining => 2 case Reporting => 1 case Done => 0)
    + (if w.feeding then 1 else 0)
    + (match w.once case Untouched => 6 case Entered => 5 case Snapped => 4 case Released => 3 case Computed => 2 case Over => 1)
  }

  /** ... and every step it takes brings it nearer to its end, which no step of others takes away. */
  lemma WaitDrawsNearer(w: World, l: Step)
    requires Enabled(w, l)
    ensures Programs(l) ==> Measure(Apply(w, l)) < Measure(w)
    ensures Measure(Apply(w, l)) <= Measure(w)
  {
    match l
    case _ =>
  }

  /**
   While the input stays open, no write of it fails and the context lives, a Wait that has come to
   the input stays there.
   */
  lemma {:induction false} OpenInputHoldsWaitUp(ws: seq<World>, ls: seq<Step>, format: Format, tracked: bool, input: bool, m: nat, n: nat)
    requires IsRun(ws, ls, format, tracked, input) && m <= n <= |ls|
    requires ws[m].pump.Done? && ws[m].feeding && AwaitsOthers(ws[m])
    requires forall k :: m <= k < n ==> !ls[k].CloseInput? && !ls[k].FeedFails? && !ls[k].ContextEnds?
    ensures ws[n].pump.Done? && ws[n].feeding && AwaitsOthers(ws[n]) && ws[n].returned == ws[m].returned
  {
    if m < n {
      OpenInputHoldsWaitUp(ws, ls, format, tracked, input, m, n - 1);
      assert ws[n] == Apply(ws[n - 1], ls[n - 1]) && Enabled(ws[n - 1], ls[n - 1]);
      match ls[n - 1]
      case _ =>
    }
  }

  /** An instance: the run has ended well, its process is gone, and the first Wait does not return. */
  lemma WaitMayNotReturn(ok: Event) returns (ws: seq<World>, ls: seq<Step>)
    requires ok.kind.Success?
    ensures IsRun(ws, ls, StreamJson, true, true) && |ls| == 6 && |ws| == 7
    ensures ws[6].pump.Done? && ws[6].exited == Some(None) && ws[6].state.events == [ok]
    ensures ws[6].feeding && AwaitsOthers(ws[6])
  {
    hide IsRun;
    ws, ls := FinishedWell(ok, true);
    ws, ls := Go(ws, ls, Enter, StreamJson, true, true);
  }

  lemma Go(ws: seq<World>, ls: seq<Step>, l: Step, format: Format, tracked: bool, input: bool) returns (vs: seq<World>, ms: seq<Step>)
    requires IsRun(ws, ls, format, tracked, input) && |ws| == |ls| + 1 && Enabled(ws[|ls|], l)
    ensures IsRun(vs, ms, format, tracked, input) && |ms| == |ls| + 1 && |vs| == |ms| + 1
    ensures vs[|ms|] == Apply(ws[|ls|], l) && forall i :: 0 <= i < |ws| ==> vs[i] == ws[i]
  {
    hide Apply, Enabled;
    vs, ms := ws + [Apply(ws[|ls|], l)], ls + [l];
    assert forall i {:trigger ms[i]} :: 0 <= i < |ls| ==> ms[i] == ls[i] && vs[i] == ws[i] && vs[i + 1] == ws[i + 1];
  }
}
