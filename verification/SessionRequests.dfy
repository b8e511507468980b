/**
 Control requests of a persistent session: a consumer that has been shown a request can
 answer it, once, and the agent gets the input that request came with.

 The argument follows a request from the event that carries it. Recording the event puts the
 stash in the pump's hands; stashing makes the request pending; only then is it shown; and a
 reply takes it out of the pending ones. With ids that are never reused these places exclude
 one another, and the input travels along unchanged. Termination is the only thing that makes
 a shown and unanswered request impossible to answer.
 */
module SessionRequests {
  import opened Prelude
  import opened SessionMachine
  import opened SessionInvariant
  import opened SessionSafety

  /** The request an event carries, when it can be answered at all. */
  function Asked(ev: Event): Option<Request> {
    match ev.kind
    case Control(Some(req)) => if req.id == "" then None else Some(req)
    case _ => None
  }

  /** Every answerable request so far, by id. */
  function AskedMap(evs: seq<Event>): map<string, string> {
    if evs == [] then map[]
    else
      var rest := AskedMap(evs[..|evs| - 1]);
      match Asked(evs[|evs| - 1])
      case Some(req) => rest[req.id := req.input]
      case None => rest
  }

  /** The agent never reuses a request id. */
  predicate DistinctIds(evs: seq<Event>) {
    evs == [] || (
      && DistinctIds(evs[..|evs| - 1])
      && match Asked(evs[|evs| - 1])
         case Some(req) => req.id !in AskedMap(evs[..|evs| - 1])
         case None => true)
  }

  function ReplyIds(replies: seq<Reply>): set<string> {
    set k | 0 <= k < |replies| :: replies[k].id
  }

  function ToStash(todo: seq<Micro>): Option<Request> {
    if todo == [] then None
    else if todo[0].Stash? then Some(todo[0].req)
    else ToStash(todo[1..])
  }

  /** Each request asked is waiting to be stashed, pending, or answered: one of the three, with its input. */
  ghost predicate Routed(asked: map<string, string>, stash: Option<Request>, pending: map<string, string>, replies: seq<Reply>) {
    && (stash.Some? ==>
          && stash.value.id in asked && asked[stash.value.id] == stash.value.input
          && stash.value.id !in pending && stash.value.id !in ReplyIds(replies))
    && (forall id :: id in pending ==> id in asked && pending[id] == asked[id] && id !in ReplyIds(replies))
    && (forall id :: id in asked ==> id in pending || id in ReplyIds(replies) || stash == Some(Request(id, asked[id])))
    && (forall k :: 0 <= k < |replies| ==> replies[k].id in asked && asked[replies[k].id] == replies[k].input)
    && (forall j, k :: 0 <= j < k < |replies| ==> replies[j].id != replies[k].id)
  }

  /** What is shown, or about to be, was asked; and it is stashed first. */
  ghost predicate Shown(asked: map<string, string>, ev: StreamEvent) {
    ev.RequestEvent? && ev.request.id != "" ==>
      ev.request.id in asked && asked[ev.request.id] == ev.request.input
  }

  ghost predicate Visible(asked: map<string, string>, todo: seq<Micro>, sent: seq<StreamEvent>) {
    && (forall k, m :: 0 <= k < m < |todo| && todo[m].Stash? ==> todo[k] == Emit(TurnStart))
    && (forall k :: 0 <= k < |todo| && todo[k].Emit? ==> Shown(asked, todo[k].ev))
    && (forall k :: 0 <= k < |sent| ==> Shown(asked, sent[k]))
    && (forall k :: 0 <= k < |sent| && sent[k].RequestEvent? && sent[k].request.id != "" ==>
          ToStash(todo) != Some(sent[k].request))
  }

  ghost predicate RequestInv(w: World) {
    var asked := AskedMap(Events(w.log));
    Routed(asked, ToStash(w.todo), w.s.pending, w.replies) && Visible(asked, w.todo, w.sent)
  }

  // ----- every step keeps it ------------------------------------------------

  lemma {:induction false} NothingToStash(todo: seq<Micro>)
    requires forall k :: 0 <= k < |todo| ==> !todo[k].Stash?
    ensures ToStash(todo) == None
  {
    if todo != [] {
      NothingToStash(todo[1..]);
    }
  }

  lemma AskedAfter(evs: seq<Event>, ev: Event)
    ensures AskedMap(evs + [ev]) ==
            match Asked(ev) case Some(req) => AskedMap(evs)[req.id := req.input] case None => AskedMap(evs)
    ensures DistinctIds(evs + [ev]) ==> DistinctIds(evs)
    ensures DistinctIds(evs + [ev]) && Asked(ev).Some? ==> Asked(ev).value.id !in AskedMap(evs)
  {
    assert (evs + [ev])[..|evs|] == evs;
  }

  lemma ToStashAfterDecode(w: World, ev: Event)
    ensures ToStash(ApplyDecode(w, ev).todo) == Asked(ev)
    ensures var todo := ApplyDecode(w, ev).todo;
            forall k, m :: 0 <= k < m < |todo| && todo[m].Stash? ==> todo[k] == Emit(TurnStart)
  {
    var todo := ApplyDecode(w, ev).todo;
    ToStashOfWork(ev);
    hide Work;
    if Unsolicited(w.s, ev) {
      assert todo[0] == Emit(TurnStart) && todo[1..] == Work(ev);
    } else {
      assert todo == Work(ev);
    }
  }

  lemma ToStashOfWork(ev: Event)
    ensures ToStash(Work(ev)) == Asked(ev)
    ensures forall m :: 0 < m < |Work(ev)| ==> !Work(ev)[m].Stash?
    ensures |Work(ev)| > 0 && Work(ev)[0].Stash? ==> Asked(ev).Some?
  {
    if Asked(ev).None? {
      NothingToStash(Work(ev));
    } else {
      assert Work(ev)[0] == Stash(Asked(ev).value);
    }
  }

  lemma RequestAfterDecode(w: World, ev: Event)
    requires RequestInv(w) && w.todo == []
    requires DistinctIds(Events(w.log) + [ev])
    ensures RequestInv(ApplyDecode(w, ev))
  {
    var w' := ApplyDecode(w, ev);
    assert Events(w'.log) == Events(w.log) + [ev];
    AskedAfter(Events(w.log), ev);
    ToStashAfterDecode(w, ev);
    var asked, asked' := AskedMap(Events(w.log)), AskedMap(Events(w'.log));
    assert Routed(asked', Asked(ev), w.s.pending, w.replies);
    EmitsOnlyWhatWasAsked(w, ev, asked');
  }

  lemma EmitsOnlyWhatWasAsked(w: World, ev: Event, asked: map<string, string>)
    requires Asked(ev).Some? ==> Asked(ev).value.id in asked && asked[Asked(ev).value.id] == Asked(ev).value.input
    ensures forall k :: var todo := ApplyDecode(w, ev).todo; 0 <= k < |todo| && todo[k].Emit? ==> Shown(asked, todo[k].ev)
  {
    var todo := ApplyDecode(w, ev).todo;
    forall k | 0 <= k < |todo| && todo[k].Emit?
      ensures Shown(asked, todo[k].ev)
    {
      assert todo[k].ev.RequestEvent? ==> ev.kind.Control? && ev.kind.parsed == Some(todo[k].ev.request);
    }
  }

  lemma RequestAfterStash(w: World)
    requires RequestInv(w) && w.todo != [] && w.todo[0].Stash?
    ensures RequestInv(ApplyPump(w))
  {
    NothingToStash(w.todo[1..]);
  }

  lemma RequestAfterEmit(w: World)
    requires RequestInv(w) && w.todo != [] && w.todo[0].Emit?
    ensures RequestInv(ApplyPump(w))
  {
    var w' := ApplyPump(w);
    assert ToStash(w'.todo) == ToStash(w.todo);
    if w.todo[0].ev.RequestEvent? {
      NothingToStash(w'.todo);
    }
    forall k | 0 <= k < |w'.todo| && w'.todo[k].Emit?
      ensures Shown(AskedMap(Events(w.log)), w'.todo[k].ev)
    {
      assert w'.todo[k] == w.todo[k + 1];
    }
  }

  lemma ReplyIdsAfter(replies: seq<Reply>, reply: Reply)
    ensures ReplyIds(replies + [reply]) == ReplyIds(replies) + {reply.id}
  {
    var all := replies + [reply];
    forall id | id in ReplyIds(replies) + {reply.id}
      ensures id in ReplyIds(all)
    {
      if id == reply.id {
        assert all[|replies|].id == id;
      } else {
        var k :| 0 <= k < |replies| && replies[k].id == id;
        assert all[k].id == id;
      }
    }
  }

  lemma RequestAfterRespond(w: World, id: string)
    requires RequestInv(w)
    ensures RequestInv(Apply(w, Respond(id)))
  {
    var asked := AskedMap(Events(w.log));
    match RespondVerdict(w.s, id)
    case Forward(input) =>
      var reply := Reply(id, input);
      ReplyIdsAfter(w.replies, reply);
      assert forall k :: 0 <= k < |w.replies| ==> w.replies[k].id in ReplyIds(w.replies);
      assert Routed(asked, ToStash(w.todo), w.s.pending - {id}, w.replies + [reply]);
    case _ =>
      assert w.s.pending - {id} == w.s.pending || w.s.life.Terminated?;
  }

  ghost predicate Quiet(todo: seq<Micro>) {
    forall k :: 0 <= k < |todo| ==> !todo[k].Stash? && !(todo[k].Emit? && todo[k].ev.RequestEvent?)
  }

  /** A step that trades one quiet list of work for another leaves requests alone. */
  lemma RequestFrame(w: World, w': World)
    requires RequestInv(w) && Quiet(w.todo) && Quiet(w'.todo)
    requires Events(w'.log) == Events(w.log) && w'.s.pending == w.s.pending
    requires w'.replies == w.replies && w'.sent == w.sent
    ensures RequestInv(w')
  {
    NothingToStash(w.todo);
    NothingToStash(w'.todo);
  }

  lemma RequestAfterPump(w: World)
    requires Phase(w) && Completing(w) && RequestInv(w) && w.todo != []
    ensures RequestInv(ApplyPump(w))
  {
    match w.todo[0]
    case Stash(_) => RequestAfterStash(w);
    case Emit(_) => RequestAfterEmit(w);
    case Finish(_) =>
      FinishIsLast(w);
      EventsFrame(w, Pump);
      RequestFrame(w, ApplyPump(w));
    case _ =>
      ShutdownIsQuiet(w);
      RequestFrame(w, ApplyPump(w));
  }

  lemma ShutdownIsQuiet(w: World)
    requires Phase(w) && w.todo != [] && (w.todo[0].Die? || w.todo[0].Shut? || w.todo[0].Cancel?)
    ensures Quiet(w.todo)
  {
    assert w.ended;
    forall k | 0 <= k < |w.todo|
      ensures !w.todo[k].Stash? && !(w.todo[k].Emit? && w.todo[k].ev.RequestEvent?)
    {
      assert w.todo[k] == Shutdown(w.reason, 4 - |w.todo| + k);
    }
  }

  lemma RequestStep(w: World, l: Step)
    requires Phase(w) && Completing(w) && RequestInv(w) && Enabled(w, l)
    requires DistinctIds(Events(Apply(w, l).log))
    ensures RequestInv(Apply(w, l))
  {
    match l
    case Decode(ev) => EventsFrame(w, l); RequestAfterDecode(w, ev);
    case Pump => RequestAfterPump(w);
    case Respond(id) => RequestAfterRespond(w, id);
    case DecoderClosed(_) => RequestFrame(w, Apply(w, l));
    case Drop => NeverDrops(w);
    case _ =>
  }

  lemma {:induction false} RequestReachable(ws: seq<World>, ls: seq<Step>, n: nat)
    requires IsRun(ws, ls) && n < |ws| && DistinctIds(Events(ws[n].log))
    ensures RequestInv(ws[n])
  {
    hide Inv, RequestInv, Apply, Enabled, DistinctIds, Phase, Completing;
    if n == 0 {
      OpenedIsQuiet();
    } else {
      ReachableParts(ws, ls, n - 1);
      StepKeepsDistinct(ws[n - 1], ls[n - 1]);
      RequestReachable(ws, ls, n - 1);
      RequestStep(ws[n - 1], ls[n - 1]);
    }
  }

  lemma ReachableParts(ws: seq<World>, ls: seq<Step>, n: nat)
    requires IsRun(ws, ls) && n < |ws|
    ensures Phase(ws[n]) && Completing(ws[n])
  {
    hide Phase, Completing, Faithful, Tracking, Blocks, Accounted;
    Reachable(ws, ls, n);
  }

  lemma OpenedIsQuiet()
    ensures RequestInv(OPENED)
  {
    assert Events(OPENED.log) == [];
  }

  lemma StepKeepsDistinct(w: World, l: Step)
    requires Phase(w) && Enabled(w, l) && DistinctIds(Events(Apply(w, l).log))
    ensures DistinctIds(Events(w.log))
  {
    EventsFrame(w, l);
    if l.Decode? {
      AskedAfter(Events(w.log), l.ev);
    } else {
      assert Events(w.log) + [] == Events(w.log);
    }
  }

  // ----- what a consumer can rely on ----------------------------------------

  /**
   With distinct request ids: once a request has reached the stream, answering it is
   never refused as unknown while it is unanswered and the session is not terminated,
   and the reply is encoded with the input that came with that very request.
   */
  lemma ShownRequestIsAnswerable(ws: seq<World>, ls: seq<Step>, n: nat, req: Request)
    requires IsRun(ws, ls) && n < |ws| && DistinctIds(Events(ws[n].log))
    requires RequestEvent(req) in ws[n].sent && req.id != ""
    requires req.id !in ReplyIds(ws[n].replies) && !ws[n].s.life.Terminated?
    ensures RespondVerdict(ws[n].s, req.id) == Forward(req.input)
  {
    RequestReachable(ws, ls, n);
    var k :| 0 <= k < |ws[n].sent| && ws[n].sent[k] == RequestEvent(req);
    assert Shown(AskedMap(Events(ws[n].log)), ws[n].sent[k]);
  }

  /** Every reply answers a request that was really asked, with its input, and at most once. */
  lemma RepliesAreUniqueAndFaithful(ws: seq<World>, ls: seq<Step>, n: nat, k: nat)
    requires IsRun(ws, ls) && n < |ws| && DistinctIds(Events(ws[n].log))
    requires k < |ws[n].replies|
    ensures var reply, asked := ws[n].replies[k], AskedMap(Events(ws[n].log));
            reply.id in asked && asked[reply.id] == reply.input
    ensures forall j :: 0 <= j < |ws[n].replies| && ws[n].replies[j].id == ws[n].replies[k].id ==> j == k
  {
    RequestReachable(ws, ls, n);
  }
}
