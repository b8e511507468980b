/**
 A conductor over a persistent session: one reader goroutine routes turn boundaries to
 whoever owns the turn slot, while callers register turns under the conductor's mutex.

 RunTurn holds the mutex from registering its turn until Send has returned, so it is
 three steps here; the reader takes an event off the channel in one step and acts on it
 in another, and hands an outcome over in a third. Everything else the session can do
 may happen between any two of them.
 */
module ConductorMachine {
  import opened Prelude
  import opened SessionMachine

  datatype Turn = Turn(id: nat, unsolicited: bool)

  datatype Outcome = Outcome(result: Option<TurnResult>, error: Option<string>)

  /** Which RunTurn holds the mutex, and how far it is. */
  datatype Caller = NoCaller | Registered(id: nat) | Sent(id: nat)

  /** What the reader goroutine has in its hands. */
  datatype Hand =
    | Empty
    | Holding(ev: StreamEvent)
    | Answering(req: Request)
    | Delivering(turn: Option<Turn>, outcome: Outcome)

  /** `outcomes` is, per turn id, everything ever sent into that turn's one-place channel. */
  datatype Sys = Sys(
    w: World,
    slot: Option<Turn>,
    mu: Caller,
    hand: Hand,
    nextId: nat,
    outcomes: map<nat, seq<Outcome>>)

  const CONDUCTED: Sys := Sys(OPENED, None, NoCaller, Empty, 0, map[])

  datatype Move =
    | OnSession(step: Step)
    | Register
    | CallSend
    | Encoded(ok: bool)
    | Await
    | Pop
    | Handle
    | Answer
    | Deliver

  function Got(outcomes: map<nat, seq<Outcome>>, id: nat): seq<Outcome> {
    if id in outcomes then outcomes[id] else []
  }

  /** The reader would block: the turn's channel already holds an outcome. */
  predicate Blocked(c: Sys) {
    && c.hand.Delivering? && c.hand.turn.Some? && !c.hand.turn.value.unsolicited
    && Got(c.outcomes, c.hand.turn.value.id) != []
  }

  predicate CanMove(c: Sys, m: Move) {
    match m
    case OnSession(step) => !step.Take? && Enabled(c.w, step)
    case Register => c.mu.NoCaller?
    case CallSend => c.mu.Registered?
    case Encoded(_) => c.mu.Sent?
    case Await => c.mu.NoCaller?
    case Pop => c.hand.Empty? && c.w.queue != []
    case Handle => c.hand.Holding? && (c.mu.NoCaller? || c.hand.ev.MessageEvent?)
    case Answer => c.hand.Answering?
    case Deliver => c.hand.Delivering? && !Blocked(c)
  }

  function Moved(c: Sys, m: Move): Sys
    requires CanMove(c, m)
  {
    match m
    case OnSession(step) => c.(w := Apply(c.w, step))
    case Register =>
      if c.slot.Some? then c
      else c.(slot := Some(Turn(c.nextId, false)), mu := Registered(c.nextId), nextId := c.nextId + 1)
    case CallSend =>
      if SendVerdict(c.w.s) == Accepted then c.(w := Apply(c.w, Send), mu := Sent(c.mu.id))
      else c.(slot := None, mu := NoCaller)
    case Encoded(ok) =>
      if ok then c.(mu := NoCaller) else c.(slot := None, mu := NoCaller)
    case Await =>
      if c.slot.Some? then c
      else c.(slot := Some(Turn(c.nextId, false)), nextId := c.nextId + 1)
    case Pop => c.(w := Apply(c.w, Take), hand := Holding(c.w.queue[0]))
    case Handle => Handled(c, c.hand.ev)
    case Answer => c.(w := Apply(c.w, Respond(c.hand.req.id)), hand := Empty)
    case Deliver => Delivered(c)
  }

  function Handled(c: Sys, ev: StreamEvent): Sys {
    match ev
    case MessageEvent(_) => c.(hand := Empty)
    case RequestEvent(req) => c.(hand := Answering(req))
    case TurnStart => c.(slot := Some(Turn(c.nextId, true)), nextId := c.nextId + 1, hand := Empty)
    case TurnComplete(result) =>
      c.(slot := None, hand := Delivering(c.slot, Outcome(Some(result), result.error)))
    case Ended(reason) =>
      c.(slot := None, hand := Delivering(c.slot, Outcome(None, Some(reason))))
  }

  function Delivered(c: Sys): Sys
    requires c.hand.Delivering?
  {
    match c.hand.turn
    case Some(Turn(id, false)) =>
      c.(hand := Empty, outcomes := c.outcomes[id := Got(c.outcomes, id) + [c.hand.outcome]])
    case _ => c.(hand := Empty)
  }

  ghost predicate IsConducted(cs: seq<Sys>, ms: seq<Move>) {
    && |cs| == |ms| + 1
    && cs[0] == CONDUCTED
    && forall i {:trigger ms[i]} :: 0 <= i < |ms| ==> CanMove(cs[i], ms[i]) && cs[i + 1] == Moved(cs[i], ms[i])
  }
}
