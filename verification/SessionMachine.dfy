/**
 A persistent agent session as a state machine.

 Every critical section of agentboot/persistent_session.go is one atomic step. The
 pump goroutine's program counter is the list of things it still has to do before it
 reads the next decoder event (`todo`), so any caller step may fall between any two of
 the pump's. The agent, the decoder and the transport's classification of an event are
 chosen by the environment.
 */
module SessionMachine {
  import opened Prelude

  // ----- what flows through a session -------------------------------------

  /** An approval or ask request. `id` may be empty; only a named one can be answered. */
  datatype Request = Request(id: string, input: string)

  /** How the transport classifies a decoded event, with what it parses out of it. */
  datatype Kind =
    | Ignore
    | Message(out: seq<string>)
    | Control(parsed: Option<Request>)
    | Success
    | Failure(detail: string)

  datatype Event = Event(raw: string, opensTurn: bool, kind: Kind)

  datatype TurnResult = TurnResult(events: seq<Event>, error: Option<string>)

  datatype StreamEvent =
    | MessageEvent(raw: string)
    | RequestEvent(request: Request)
    | TurnStart
    | TurnComplete(result: TurnResult)
    | Ended(reason: string)

  predicate Terminal(ev: Event) {
    ev.kind.Success? || ev.kind.Failure?
  }

  /** A boundary moves the conductor's turn slot; everything else belongs to a turn. */
  predicate Boundary(ev: StreamEvent) {
    ev.TurnStart? || ev.TurnComplete? || ev.Ended?
  }

  // ----- the session's fields, and its critical sections -------------------

  datatype Life = Idle | Running | Closing | Terminated

  datatype Session = Session(life: Life, pending: map<string, string>, turnEvents: seq<Event>)

  datatype SendReply = Accepted | TurnInFlight | SessionClosed

  datatype RespondReply = Forward(input: string) | UnknownRequest | RespondClosed

  datatype InterruptReply = Interrupting | NothingToStop | InterruptClosed

  function SendVerdict(s: Session): SendReply {
    match s.life
    case Idle => Accepted
    case Running => TurnInFlight
    case _ => SessionClosed
  }

  function AfterSend(s: Session): Session {
    if s.life.Idle? then s.(life := Running, turnEvents := []) else s
  }

  function RespondVerdict(s: Session, id: string): RespondReply {
    if s.life.Terminated? then RespondClosed
    else if id !in s.pending then UnknownRequest
    else Forward(s.pending[id])
  }

  function AfterRespond(s: Session, id: string): Session {
    if s.life.Terminated? then s else s.(pending := s.pending - {id})
  }

  function InterruptVerdict(s: Session): InterruptReply {
    match s.life
    case Running => Interrupting
    case Idle => NothingToStop
    case _ => InterruptClosed
  }

  function AfterClose(s: Session): Session {
    if s.life.Terminated? then s else s.(life := Closing)
  }

  predicate Unsolicited(s: Session, ev: Event) {
    s.life.Idle? && ev.opensTurn
  }

  function AfterDecode(s: Session, ev: Event): Session {
    if Unsolicited(s, ev) then s.(life := Running, turnEvents := [ev])
    else s.(turnEvents := s.turnEvents + [ev])
  }

  function AfterStash(s: Session, req: Request): Session {
    s.(pending := s.pending[req.id := req.input])
  }

  function AfterComplete(s: Session): Session {
    s.(life := if s.life.Running? then Idle else s.life, turnEvents := [])
  }

  function AfterTerminate(s: Session): Session {
    s.(life := Terminated)
  }

  // ----- the pump ----------------------------------------------------------

  /** One thing the pump goroutine does atomically. */
  datatype Micro =
    | Stash(req: Request)
    | Emit(ev: StreamEvent)
    | Finish(error: Option<string>)
    | Die
    | Shut
    | Cancel

  /** The stream events one decoded event stands for, its turn boundary aside. */
  function Outputs(ev: Event): seq<StreamEvent> {
    match ev.kind
    case Message(out) => seq(|out|, i requires 0 <= i < |out| => MessageEvent(out[i]))
    case Control(Some(req)) => [RequestEvent(req)]
    case _ => []
  }

  function EmitAll(evs: seq<StreamEvent>): seq<Micro> {
    seq(|evs|, i requires 0 <= i < |evs| => Emit(evs[i]))
  }

  /** What the pump does with an event after recording it. */
  function Work(ev: Event): seq<Micro> {
    match ev.kind
    case Control(Some(req)) =>
      (if req.id == "" then [] else [Stash(req)]) + EmitAll(Outputs(ev))
    case Success => [Finish(None)]
    case Failure(detail) => [Finish(Some(detail))]
    case _ => EmitAll(Outputs(ev))
  }

  // ----- the whole system --------------------------------------------------

  /**
   What became of one decoded event: whether it opened an unsolicited turn, whether a
   turn was open once it was recorded, and, for a terminal event, the turn it closed
   (the position at which that turn opened) with the result built for it.
   */
  datatype Entry = Entry(ev: Event, unsolicited: bool, inTurn: bool,
                         from: nat, turn: Option<nat>, result: Option<TurnResult>)

  datatype Reply = Reply(id: string, input: string)

  /**
   `queue` and `closed` are the events channel; `cancelled` is the run context. The
   rest is history: everything ever sent or dropped, everything decoded, where the
   events now in `turnEvents` begin, where the open turn opened, every reply forwarded.
   */
  datatype World = World(
    s: Session,
    todo: seq<Micro>,
    ended: bool,
    reason: string,
    cancelled: bool,
    queue: seq<StreamEvent>,
    closed: bool,
    sent: seq<StreamEvent>,
    dropped: seq<StreamEvent>,
    log: seq<Entry>,
    from: nat,
    turn: Option<nat>,
    replies: seq<Reply>)

  /** Open: the prompt it was given is already the first turn in flight. */
  const OPENED: World :=
    World(Session(Running, map[], []), [], false, "", false, [], false, [], [], [], 0, Some(0), [])

  datatype Step =
    | Send
    | Respond(id: string)
    | Interrupt
    | Close
    | Decode(ev: Event)
    | DecoderClosed(reason: string)
    | Pump
    | Drop
    | Take

  /** The channel is taken as unbounded: a bound only removes interleavings. */
  predicate Enabled(w: World, l: Step) {
    match l
    case Decode(_) => !w.ended && w.todo == []
    case DecoderClosed(_) => !w.ended && w.todo == []
    case Pump => w.todo != []
    case Drop => w.todo != [] && w.todo[0].Emit? && w.cancelled
    case Take => w.queue != []
    case _ => true
  }

  function Apply(w: World, l: Step): World
    requires Enabled(w, l)
  {
    match l
    case Send => ApplySend(w)
    case Respond(id) => ApplyRespond(w, id)
    case Interrupt => w
    case Close => w.(s := AfterClose(w.s))
    case Decode(ev) => ApplyDecode(w, ev)
    case DecoderClosed(reason) => ApplyEnd(w, reason)
    case Pump => ApplyPump(w)
    case Drop => ApplyDrop(w, w.todo[0].ev)
    case Take => w.(queue := w.queue[1..])
  }

  function ApplySend(w: World): World {
    if w.s.life.Idle? then w.(s := AfterSend(w.s), from := |w.log|, turn := Some(|w.log|)) else w
  }

  function ApplyRespond(w: World, id: string): World {
    w.(s := AfterRespond(w.s, id),
       replies := match RespondVerdict(w.s, id)
                  case Forward(input) => w.replies + [Reply(id, input)]
                  case _ => w.replies)
  }

  function ApplyEnd(w: World, reason: string): World {
    w.(ended := true, reason := reason, todo := [Die, Emit(Ended(reason)), Shut, Cancel])
  }

  /** The other branch of emit's select: the event is lost and its request forgotten. */
  function ApplyDrop(w: World, ev: StreamEvent): World
    requires w.todo != []
  {
    w.(todo := w.todo[1..], dropped := w.dropped + [ev],
       s := if ev.RequestEvent? then w.s.(pending := w.s.pending - {ev.request.id}) else w.s)
  }

  function ApplyDecode(w: World, ev: Event): World {
    var opens := Unsolicited(w.s, ev);
    var turn := if opens then Some(|w.log|) else w.turn;
    w.(s := AfterDecode(w.s, ev),
       from := if opens then |w.log| else w.from,
       turn := turn,
       log := w.log + [Entry(ev, opens, turn.Some?, 0, None, None)],
       todo := (if opens then [Emit(TurnStart)] else []) + Work(ev))
  }

  function ApplyPump(w: World): World
    requires w.todo != []
  {
    var rest := w.todo[1..];
    match w.todo[0]
    case Stash(req) => w.(todo := rest, s := AfterStash(w.s, req))
    case Emit(ev) => w.(todo := rest, queue := w.queue + [ev], sent := w.sent + [ev])
    case Finish(error) => ApplyFinish(w, error, rest)
    case Die => w.(todo := rest, s := AfterTerminate(w.s))
    case Shut => w.(todo := rest, closed := true)
    case Cancel => w.(todo := rest, cancelled := true)
  }

  function ApplyFinish(w: World, error: Option<string>, rest: seq<Micro>): World {
    var result := TurnResult(w.s.turnEvents, error);
    var n := |w.log|;
    w.(todo := [Emit(TurnComplete(result))] + rest,
       s := AfterComplete(w.s),
       from := n,
       turn := None,
       log := if n == 0 then [] else
              w.log[n - 1 := w.log[n - 1].(from := w.from, turn := w.turn, result := Some(result))])
  }

  // ----- runs --------------------------------------------------------------

  /** ws[0], ls[0], ws[1], ls[1], ... : one interleaving, from Open on. */
  ghost predicate IsRun(ws: seq<World>, ls: seq<Step>) {
    && |ws| == |ls| + 1
    && ws[0] == OPENED
    && forall i {:trigger ls[i]} :: 0 <= i < |ls| ==> Enabled(ws[i], ls[i]) && ws[i + 1] == Apply(ws[i], ls[i])
  }

  lemma Extend(ws: seq<World>, ls: seq<Step>, l: Step)
    requires IsRun(ws, ls) && Enabled(ws[|ls|], l)
    ensures IsRun(ws + [Apply(ws[|ls|], l)], ls + [l])
  {
    hide Apply, Enabled;
    var ws', ls' := ws + [Apply(ws[|ls|], l)], ls + [l];
    assert forall i {:trigger ls'[i]} :: 0 <= i < |ls| ==> ls'[i] == ls[i] && ws'[i] == ws[i] && ws'[i + 1] == ws[i + 1];
  }
}
