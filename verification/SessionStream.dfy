/**
 What the consumer of a session is shown: read off the stream on one side and off the decoded
 events on the other, without a word about how the one is made of the other.
 */
module SessionStreams {
  import opened Prelude
  import opened SessionMachine
  import opened SessionInvariant
  import opened SessionSafety

  // ----- read off a stream ---------------------------------------------------

  /** The messages, requests and turn errors a stream carries, how many turns it starts, and how it ends. */
  datatype Reading = Reading(
    messages: seq<string>, requests: seq<Request>, errors: seq<Option<string>>, starts: nat, ends: seq<string>)

  const NOTHING := Reading([], [], [], 0, [])

  function Join(a: Reading, b: Reading): Reading {
    Reading(a.messages + b.messages, a.requests + b.requests, a.errors + b.errors, a.starts + b.starts, a.ends + b.ends)
  }

  function ReadOne(ev: StreamEvent): Reading {
    match ev
    case MessageEvent(raw) => NOTHING.(messages := [raw])
    case RequestEvent(request) => NOTHING.(requests := [request])
    case TurnStart => NOTHING.(starts := 1)
    case TurnComplete(result) => NOTHING.(errors := [result.error])
    case Ended(reason) => NOTHING.(ends := [reason])
  }

  function Read(evs: seq<StreamEvent>): Reading {
    if evs == [] then NOTHING else Join(Read(evs[..|evs| - 1]), ReadOne(evs[|evs| - 1]))
  }

  // ----- read off the agent's events ------------------------------------------

  /** What the agent has said, its messages run together. */
  function Said(events: seq<Event>): seq<string> {
    if events == [] then []
    else Said(events[..|events| - 1]) + match events[|events| - 1].kind case Message(out) => out case _ => []
  }

  /** What it has asked for; a request that cannot be made out is not asked. */
  function Asked(events: seq<Event>): seq<Request> {
    if events == [] then []
    else Asked(events[..|events| - 1]) + match events[|events| - 1].kind case Control(Some(req)) => [req] case _ => []
  }

  /** How the turns it has ended went. */
  function Verdicts(events: seq<Event>): seq<Option<string>> {
    if events == [] then []
    else
      Verdicts(events[..|events| - 1])
      + match events[|events| - 1].kind case Success => [None] case Failure(detail) => [Some(detail)] case _ => []
  }

  /** What the consumer is to make of the events, with so many turns of the agent's own and such an end. */
  function Due(events: seq<Event>, starts: nat, ends: seq<string>): Reading {
    Reading(Said(events), Asked(events), Verdicts(events), starts, ends)
  }

  /** An event's part in it. */
  function DueOf(ev: Event, own: bool): Reading {
    Due([ev], if own then 1 else 0, [])
  }

  // ----- both grow together ----------------------------------------------------

  lemma JoinAssociates(a: Reading, b: Reading, c: Reading)
    ensures Join(Join(a, b), c) == Join(a, Join(b, c))
  {}

  lemma JoinNothing(a: Reading)
    ensures Join(a, NOTHING) == a && Join(NOTHING, a) == a
  {}

  lemma {:induction false} ReadConcat(a: seq<StreamEvent>, b: seq<StreamEvent>)
    ensures Read(a + b) == Join(Read(a), Read(b))
  {
    hide Join, ReadOne;
    if b == [] {
      assert a + b == a;
      JoinNothing(Read(a));
    } else {
      var n := |b| - 1;
      assert (a + b)[..|a + b| - 1] == a + b[..n] && (a + b)[|a + b| - 1] == b[n];
      ReadConcat(a, b[..n]);
      JoinAssociates(Read(a), Read(b[..n]), ReadOne(b[n]));
    }
  }

  lemma ReadSingle(ev: StreamEvent)
    ensures Read([ev]) == ReadOne(ev)
  {
    hide Join, ReadOne;
    assert [ev][..0] == [];
    JoinNothing(ReadOne(ev));
  }

  lemma {:induction false} ReadMessages(evs: seq<StreamEvent>, out: seq<string>)
    requires |evs| == |out| && forall i :: 0 <= i < |out| ==> evs[i] == MessageEvent(out[i])
    ensures Read(evs) == NOTHING.(messages := out)
  {
    if out != [] {
      var n := |out| - 1;
      ReadMessages(evs[..n], out[..n]);
      assert out == out[..n] + [out[n]];
    }
  }

  /** One event's part, case by case. */
  lemma DueCases(ev: Event, own: bool)
    ensures DueOf(ev, own).messages == match ev.kind case Message(out) => out case _ => []
    ensures DueOf(ev, own).requests == match ev.kind case Control(Some(req)) => [req] case _ => []
    ensures DueOf(ev, own).errors == match ev.kind case Success => [None] case Failure(detail) => [Some(detail)] case _ => []
    ensures DueOf(ev, own).starts == (if own then 1 else 0) && DueOf(ev, own).ends == []
  {
    assert [ev][..0] == [];
    assert Said([]) == [] && Asked([]) == [] && Verdicts([]) == [];
    match ev.kind
    case Message(out) => assert [] + out == out;
    case _ =>
  }

  lemma DueGrows(events: seq<Event>, starts: nat, ev: Event, own: bool)
    ensures Due(events + [ev], starts + (if own then 1 else 0), []) == Join(Due(events, starts, []), DueOf(ev, own))
  {
    DueCases(ev, own);
    hide DueOf;
    assert (events + [ev])[..|events|] == events;
  }

  /** What an event shows, turn boundaries aside. */
  lemma OutputsShow(ev: Event)
    ensures Read(Outputs(ev)) == DueOf(ev, false).(errors := [])
  {
    DueCases(ev, false);
    hide Due, DueOf;
    match ev.kind
    case Message(out) => ReadMessages(Outputs(ev), out);
    case Control(Some(req)) => ReadSingle(RequestEvent(req));
    case _ =>
  }

  /** A terminal event has the result it calls for, and no other event has one. */
  ghost predicate Resolved(e: Entry) {
    match e.ev.kind
    case Success => e.result.Some? && e.result.value.error == None
    case Failure(detail) => e.result.Some? && e.result.value.error == Some(detail)
    case _ => e.result.None?
  }

  lemma EntryShows(e: Entry)
    requires Resolved(e)
    ensures Read(RenderEntry(e)) == DueOf(e.ev, e.unsolicited)
  {
    var start: seq<StreamEvent> := if e.unsolicited then [TurnStart] else [];
    var done: seq<StreamEvent> := if e.result.Some? then [TurnComplete(e.result.value)] else [];
    ReadStartAndDone(e, start, done);
    OutputsShow(e.ev);
    hide Outputs, Read;
    ReadConcat(start, Outputs(e.ev));
    ReadConcat(start + Outputs(e.ev), done);
    assert RenderEntry(e) == start + Outputs(e.ev) + done;
    PartsJoin(e);
  }

  lemma ReadStartAndDone(e: Entry, start: seq<StreamEvent>, done: seq<StreamEvent>)
    requires start == (if e.unsolicited then [TurnStart] else [])
    requires done == (if e.result.Some? then [TurnComplete(e.result.value)] else [])
    ensures Read(start) == NOTHING.(starts := if e.unsolicited then 1 else 0)
    ensures Read(done) == NOTHING.(errors := if e.result.Some? then [e.result.value.error] else [])
  {
    ReadSingle(TurnStart);
    if e.result.Some? {
      ReadSingle(TurnComplete(e.result.value));
    }
  }

  lemma PartsJoin(e: Entry)
    requires Resolved(e)
    ensures Join(Join(NOTHING.(starts := if e.unsolicited then 1 else 0), DueOf(e.ev, false).(errors := [])),
                 NOTHING.(errors := if e.result.Some? then [e.result.value.error] else [])) == DueOf(e.ev, e.unsolicited)
  {
    var own := if e.unsolicited then 1 else 0;
    var errors := if e.result.Some? then [e.result.value.error] else [];
    Around(DueOf(e.ev, false).(errors := []), own, errors);
    DueOfEntry(e, own, errors);
  }

  lemma DueOfEntry(e: Entry, own: nat, errors: seq<Option<string>>)
    requires Resolved(e) && own == (if e.unsolicited then 1 else 0)
    requires errors == if e.result.Some? then [e.result.value.error] else []
    ensures DueOf(e.ev, e.unsolicited) == DueOf(e.ev, false).(starts := own, errors := errors)
  {
    DueCases(e.ev, e.unsolicited);
    hide Said, Asked, Verdicts;
  }

  lemma Around(r: Reading, starts: nat, errors: seq<Option<string>>)
    requires r.starts == 0 && r.errors == []
    ensures Join(Join(NOTHING.(starts := starts), r), NOTHING.(errors := errors)) == r.(starts := starts, errors := errors)
  {}

  // ----- over a log ------------------------------------------------------------

  function Opened(log: seq<Entry>): nat {
    if log == [] then 0 else Opened(log[..|log| - 1]) + if log[|log| - 1].unsolicited then 1 else 0
  }

  lemma {:induction false} LogShows(log: seq<Entry>)
    requires forall i :: 0 <= i < |log| ==> Resolved(log[i])
    ensures Read(Render(log)) == Due(Events(log), Opened(log), [])
  {
    hide Resolved, RenderEntry, Due, DueOf, Join;
    if log == [] {
      DueNothing();
    } else {
      var n := |log| - 1;
      var e := log[n];
      LogShows(log[..n]);
      assert Resolved(e);
      EntryShows(e);
      ReadConcat(Render(log[..n]), RenderEntry(e));
      DueGrows(Events(log[..n]), Opened(log[..n]), e.ev, e.unsolicited);
      assert Events(log) == Events(log[..n]) + [e.ev];
    }
  }

  lemma DueNothing()
    ensures Due([], 0, []) == NOTHING
  {}

  // ----- over a run ------------------------------------------------------------

  function Decoded(ls: seq<Step>): seq<Event> {
    if ls == [] then [] else Decoded(ls[..|ls| - 1]) + if ls[|ls| - 1].Decode? then [ls[|ls| - 1].ev] else []
  }

  function Endings(ls: seq<Step>): seq<string> {
    if ls == [] then []
    else Endings(ls[..|ls| - 1]) + if ls[|ls| - 1].DecoderClosed? then [ls[|ls| - 1].reason] else []
  }

  /** An event that may open a turn is decoded while the session is idle. */
  predicate OpensOwnTurn(w: World, l: Step) {
    l.Decode? && l.ev.opensTurn && w.s.life.Idle?
  }

  /** How many turns the agent has opened in the first n steps. */
  function OwnTurns(ws: seq<World>, ls: seq<Step>, n: nat): nat
    requires n <= |ls| && n <= |ws|
  {
    if n == 0 then 0 else OwnTurns(ws, ls, n - 1) + if OpensOwnTurn(ws[n - 1], ls[n - 1]) then 1 else 0
  }

  function ErrorOf(ev: Event): Option<string> {
    match ev.kind case Failure(detail) => Some(detail) case _ => None
  }

  /** Results carry the error of their own terminal event, and so does the one about to be built. */
  ghost predicate RightErrors(w: World) {
    && (forall i :: Closed(w, i) ==> w.log[i].result.value.error == ErrorOf(w.log[i].ev))
    && (Awaiting(w) ==> w.log != [] && w.todo[|w.todo| - 1].error == ErrorOf(w.log[|w.log| - 1].ev))
  }

  lemma ErrorsStep(w: World, l: Step)
    requires Inv(w) && RightErrors(w) && Enabled(w, l)
    ensures RightErrors(Apply(w, l))
  {
    hide Faithful, Completing, Tracking, Blocks, Accounted;
    NeverDrops(w);
    match l
    case Decode(ev) => ErrorsAfterDecode(w, ev);
    case Pump => ErrorsAfterPump(w);
    case _ =>
  }

  lemma ErrorsAfterDecode(w: World, ev: Event)
    requires RightErrors(w) && w.todo == []
    ensures RightErrors(ApplyDecode(w, ev))
  {
    var v := ApplyDecode(w, ev);
    assert forall i :: 0 <= i < |w.log| ==> v.log[i] == w.log[i];
    assert v.log[|w.log|].ev == ev;
  }

  lemma ErrorsAfterPump(w: World)
    requires Phase(w) && RightErrors(w) && w.todo != []
    ensures RightErrors(ApplyPump(w))
  {
    var v := ApplyPump(w);
    if w.todo[0].Finish? {
      FinishIsLast(w);
      assert v.todo == [v.todo[0]] && v.todo[0].Emit?;
    } else {
      assert v.todo == w.todo[1..] && v.log == w.log;
    }
  }

  lemma {:induction false} ErrorsAreRight(ws: seq<World>, ls: seq<Step>, n: nat)
    requires IsRun(ws, ls) && n < |ws|
    ensures RightErrors(ws[n])
  {
    if n > 0 {
      hide RightErrors, Apply, Enabled, Inv;
      ErrorsAreRight(ws, ls, n - 1);
      Reachable(ws, ls, n - 1);
      ErrorsStep(ws[n - 1], ls[n - 1]);
      assert ws[n] == Apply(ws[n - 1], ls[n - 1]);
    }
  }

  lemma OpenedFrame(w: World, l: Step)
    requires Phase(w) && Enabled(w, l)
    ensures Opened(Apply(w, l).log) == Opened(w.log) + if OpensOwnTurn(w, l) then 1 else 0
  {
    if l.Decode? {
      assert ApplyDecode(w, l.ev).log[..|w.log|] == w.log;
    } else if Finishes(w, l) {
      FinishIsLast(w);
      FinishOpensNothing(w);
    } else {
      LogFrame(w, l);
    }
  }

  lemma FinishOpensNothing(w: World)
    requires w.todo != [] && w.todo[0].Finish?
    ensures Opened(ApplyPump(w).log) == Opened(w.log)
  {
    var n := |w.log|;
    if n > 0 {
      assert ApplyPump(w).log[..n - 1] == w.log[..n - 1];
    }
  }

  lemma DecodedNext(ls: seq<Step>, n: nat)
    requires 0 < n <= |ls|
    ensures Decoded(ls[..n]) == Decoded(ls[..n - 1]) + if ls[n - 1].Decode? then [ls[n - 1].ev] else []
  {
    assert ls[..n][..n - 1] == ls[..n - 1];
  }

  lemma {:induction false} LogIsDecoded(ws: seq<World>, ls: seq<Step>, n: nat)
    requires IsRun(ws, ls) && n < |ws|
    ensures Events(ws[n].log) == Decoded(ls[..n]) && Opened(ws[n].log) == OwnTurns(ws, ls, n)
  {
    hide Apply, Enabled, OpensOwnTurn, Inv, Events, Decoded;
    if n > 0 {
      LogIsDecoded(ws, ls, n - 1);
      Reachable(ws, ls, n - 1);
      LogStep(ws[n - 1], ls[n - 1]);
      assert ws[n] == Apply(ws[n - 1], ls[n - 1]);
      DecodedNext(ls, n);
    } else {
      NothingDecoded(ls);
    }
  }

  lemma NothingDecoded(ls: seq<Step>)
    ensures Events(OPENED.log) == Decoded(ls[..0])
  {}

  lemma LogStep(w: World, l: Step)
    requires Inv(w) && Enabled(w, l)
    ensures Events(Apply(w, l).log) == Events(w.log) + (if l.Decode? then [l.ev] else [])
    ensures Opened(Apply(w, l).log) == Opened(w.log) + if OpensOwnTurn(w, l) then 1 else 0
  {
    hide Phase, Faithful, Completing, Tracking, Blocks, Accounted;
    EventsFrame(w, l);
    OpenedFrame(w, l);
  }

  /** The decoder ends at most once, for the reason the stream will give. */
  lemma {:induction false} EndsOnce(ws: seq<World>, ls: seq<Step>, n: nat)
    requires IsRun(ws, ls) && n < |ws|
    ensures Endings(ls[..n]) == if ws[n].ended then [ws[n].reason] else []
  {
    if n > 0 {
      EndsOnce(ws, ls, n - 1);
      assert ls[..n][..n - 1] == ls[..n - 1];
      EndFrame(ws[n - 1], ls[n - 1]);
      assert ws[n] == Apply(ws[n - 1], ls[n - 1]);
    }
  }

  lemma EndFrame(w: World, l: Step)
    requires Enabled(w, l)
    ensures var v := Apply(w, l);
            if l.DecoderClosed? then !w.ended && v.ended && v.reason == l.reason else v.ended == w.ended && v.reason == w.reason
  {
    match l
    case Pump =>
    case _ =>
  }

  lemma AllResolved(w: World)
    requires Inv(w) && RightErrors(w) && !Awaiting(w)
    ensures forall i :: 0 <= i < |w.log| ==> Resolved(w.log[i])
  {
    forall i | 0 <= i < |w.log| ensures Resolved(w.log[i]) {
      assert Terminal(w.log[i].ev) <==> Closed(w, i);
    }
  }

  /**
   Whenever the pump has nothing in its hands, and when the stream is closed: the messages shown
   are those of the decoded events run together in order, the requests shown are theirs, every
   terminal event has completed a turn with its own error and nothing else has, every turn of the
   agent's own has been announced, and the stream says how it ended once it is closed.
   */
  lemma StreamSays(ws: seq<World>, ls: seq<Step>, n: nat)
    requires IsRun(ws, ls) && n < |ws| && (ws[n].closed || (!ws[n].ended && ws[n].todo == []))
    ensures var r, events := Read(ws[n].sent), Decoded(ls[..n]);
            && r.messages == Said(events) && r.requests == Asked(events) && r.errors == Verdicts(events)
            && r.starts == OwnTurns(ws, ls, n) && r.ends == Endings(ls[..n])
  {
    StreamIsLossless(ws, ls, n);
    Reachable(ws, ls, n);
    ErrorsAreRight(ws, ls, n);
    LogIsDecoded(ws, ls, n);
    EndsOnce(ws, ls, n);
    NotAwaiting(ws[n]);
    hide *;
    SentShows(ws[n]);
    DueIs(Events(ws[n].log), Opened(ws[n].log), if ws[n].ended then [ws[n].reason] else []);
  }

  lemma DueIs(events: seq<Event>, starts: nat, ends: seq<string>)
    ensures var r := Due(events, starts, ends);
            && r.messages == Said(events) && r.requests == Asked(events) && r.errors == Verdicts(events)
            && r.starts == starts && r.ends == ends
  {}

  lemma SentShows(w: World)
    requires Inv(w) && RightErrors(w) && !Awaiting(w)
    requires w.sent == Render(w.log) + if w.ended then [Ended(w.reason)] else []
    ensures Read(w.sent) == Due(Events(w.log), Opened(w.log), if w.ended then [w.reason] else [])
  {
    AllResolved(w);
    LogShows(w.log);
    hide *;
    if w.ended {
      ReadConcat(Render(w.log), [Ended(w.reason)]);
      ReadSingle(Ended(w.reason));
      DueEnds(Events(w.log), Opened(w.log), w.reason);
    } else {
      assert w.sent == Render(w.log);
    }
  }

  lemma DueEnds(events: seq<Event>, starts: nat, reason: string)
    ensures Join(Due(events, starts, []), ReadOne(Ended(reason))) == Due(events, starts, [reason])
  {
    hide Said, Asked, Verdicts;
  }

  lemma NotAwaiting(w: World)
    requires Inv(w) && (w.closed || (!w.ended && w.todo == []))
    ensures !Awaiting(w) && (w.closed <==> w.ended)
  {
    hide Faithful, Completing, Tracking, Blocks, Accounted;
    if w.closed && w.todo != [] {
      assert w.todo[0] == Shutdown(w.reason, 3);
    }
  }

  // ----- a turn is announced before anything of it is shown -----------------------

  /** The turn's start is the k-th thing sent, or about to be. */
  ghost predicate StartIsNext(w: World, k: nat) {
    if |w.sent| > k then w.sent[k] == TurnStart
    else |w.sent| == k && w.todo != [] && w.todo[0] == Emit(TurnStart)
  }

  /** Once an event has opened a turn of the agent's own, the next thing sent is its start. */
  lemma {:induction false} StartComesFirst(ws: seq<World>, ls: seq<Step>, i: nat, n: nat)
    requires IsRun(ws, ls) && i < n < |ws| && OpensOwnTurn(ws[i], ls[i])
    ensures ws[i].sent <= ws[n].sent && StartIsNext(ws[n], |ws[i].sent|)
  {
    hide Inv, Apply, Enabled, StartIsNext, OpensOwnTurn;
    var w, l := ws[n - 1], ls[n - 1];
    assert ws[n] == Apply(w, l) && Enabled(w, l);
    Reachable(ws, ls, n - 1);
    if n > i + 1 {
      StartComesFirst(ws, ls, i, n - 1);
      StaysNext(w, l, |ws[i].sent|);
    } else {
      BecomesNext(w, l);
    }
  }

  lemma BecomesNext(w: World, l: Step)
    requires Enabled(w, l) && OpensOwnTurn(w, l)
    ensures w.sent <= Apply(w, l).sent && StartIsNext(Apply(w, l), |w.sent|)
  {}

  lemma StaysNext(w: World, l: Step, k: nat)
    requires Inv(w) && Enabled(w, l) && StartIsNext(w, k)
    ensures w.sent <= Apply(w, l).sent && StartIsNext(Apply(w, l), k)
  {
    hide Faithful, Completing, Tracking, Blocks, Accounted;
    NeverDrops(w);
    hide Phase;
    SentGrows(w, l);
  }

  lemma SentGrows(w: World, l: Step)
    requires Enabled(w, l)
    ensures w.sent <= Apply(w, l).sent
    ensures Apply(w, l).sent == w.sent + if l.Pump? && w.todo[0].Emit? then [w.todo[0].ev] else []
    ensures !l.Pump? && !l.Drop? && w.todo != [] ==> Apply(w, l).todo == w.todo
  {
    if !(l.Pump? && w.todo[0].Emit?) && !l.Take? {
      StreamFrame(w, l);
    }
    match l
    case Pump =>
    case _ =>
  }
}
