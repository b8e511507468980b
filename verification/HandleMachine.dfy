/**
 Requests and replies of one execution, under every interleaving.

 The pump stashes a request's input, registers its id, then offers it to the consumer, who
 may already be answering others from any number of goroutines. Each line that takes a lock,
 reads the closed flag or selects on a channel is one step of its own.

 The invariant says where a request can be between those steps: ahead of its registration,
 registered, or claimed by exactly one call, whose hands it leaves for the wire, for a failed
 write or for the close. The stored input stays where it is until that call fetches it.
 */
module HandleMachine {
  import opened Prelude

  /** An approval or ask request, or anything else when the id is empty. */
  datatype Shown = Shown(id: string, input: string)

  /** Where the pump is between two decoder events. */
  datatype Pump =
    | Reading
    | Stashed(ev: Shown)
    | Offering(ev: Shown)
    | Stopped

  /** Where one call of Respond is. */
  datatype Call =
    | Checked(id: string, resp: string)
    | Claimed(id: string, resp: string)
    | Cleared(id: string, resp: string)
    | Routing(id: string, resp: string, input: Option<string>)

  /** `Failed` is a reply that could not be encoded or written. */
  datatype Outcome = Closed | Unknown | Forwarded | Failed

  datatype Wire = Wire(id: string, resp: string, input: Option<string>)

  datatype Answer = Answer(id: string, outcome: Outcome)

  /**
   `calls` are the Respond calls in flight by goroutine. The last five fields are history:
   the requests decoded, the events the consumer was given and those it lost, the ids whose
   registration a Respond has removed, and how every finished call ended.
   */
  datatype World = World(
    pump: Pump, inputs: map<string, string>, pending: set<string>,
    closed: bool, cancelled: bool, calls: map<nat, Call>, wire: seq<Wire>,
    asked: map<string, string>, sent: seq<Shown>, lost: seq<Shown>, claimed: set<string>, answers: seq<Answer>)

  const START := World(Reading, map[], {}, false, false, map[], [], map[], [], [], {}, [])

  datatype Step =
    | Decode(ev: Shown)
    | Register
    | Offer
    | Drop
    | CloseStream
    | Cancel
    | Respond(g: nat, id: string, resp: string)
    | Claim(g: nat)
    | Recheck(g: nat)
    | Fetch(g: nat)
    | Encode(g: nat, ok: bool)

  /** The agent never reuses a request id. */
  predicate Fresh(w: World, ev: Shown) {
    ev.id == "" || ev.id !in w.asked
  }

  predicate Enabled(w: World, l: Step) {
    match l
    case Decode(ev) => w.pump.Reading? && Fresh(w, ev)
    case Register => w.pump.Stashed?
    case Offer => w.pump.Offering?
    case Drop => w.pump.Offering? && w.cancelled
    case CloseStream => w.pump.Reading?
    case Cancel => true
    case Respond(g, _, _) => g !in w.calls
    case Claim(g) => g in w.calls && w.calls[g].Checked?
    case Recheck(g) => g in w.calls && w.calls[g].Claimed?
    case Fetch(g) => g in w.calls && w.calls[g].Cleared?
    case Encode(g, _) => g in w.calls && w.calls[g].Routing?
  }

  function Without(calls: map<nat, Call>, g: nat): map<nat, Call> {
    calls - {g}
  }

  function ApplyDecode(w: World, ev: Shown): World {
    if ev.id == "" then w.(pump := Offering(ev))
    else w.(pump := Stashed(ev), inputs := w.inputs[ev.id := ev.input], asked := w.asked[ev.id := ev.input])
  }

  function ApplyRegister(w: World): World
    requires w.pump.Stashed?
  {
    w.(pump := Offering(w.pump.ev), pending := w.pending + {w.pump.ev.id})
  }

  function ApplyOffer(w: World): World
    requires w.pump.Offering?
  {
    w.(pump := Reading, sent := w.sent + [w.pump.ev])
  }

  function ApplyDrop(w: World): World
    requires w.pump.Offering?
  {
    w.(pump := Reading, lost := w.lost + [w.pump.ev],
       pending := if w.pump.ev.id == "" then w.pending else w.pending - {w.pump.ev.id})
  }

  function ApplyRespond(w: World, g: nat, id: string, resp: string): World {
    if w.closed then w.(answers := w.answers + [Answer(id, Closed)])
    else w.(calls := w.calls[g := Checked(id, resp)])
  }

  function ApplyClaim(w: World, g: nat): World
    requires g in w.calls && w.calls[g].Checked?
  {
    var c := w.calls[g];
    if c.id in w.pending then
      w.(pending := w.pending - {c.id}, claimed := w.claimed + {c.id}, calls := w.calls[g := Claimed(c.id, c.resp)])
    else w.(calls := Without(w.calls, g), answers := w.answers + [Answer(c.id, Unknown)])
  }

  function ApplyRecheck(w: World, g: nat): World
    requires g in w.calls && w.calls[g].Claimed?
  {
    var c := w.calls[g];
    if w.closed then w.(calls := Without(w.calls, g), answers := w.answers + [Answer(c.id, Closed)])
    else w.(calls := w.calls[g := Cleared(c.id, c.resp)])
  }

  function ApplyFetch(w: World, g: nat): World
    requires g in w.calls && w.calls[g].Cleared?
  {
    var c := w.calls[g];
    w.(inputs := w.inputs - {c.id},
       calls := w.calls[g := Routing(c.id, c.resp, if c.id in w.inputs then Some(w.inputs[c.id]) else None)])
  }

  function ApplyEncode(w: World, g: nat, ok: bool): World
    requires g in w.calls && w.calls[g].Routing?
  {
    var c := w.calls[g];
    w.(calls := Without(w.calls, g), wire := if ok then w.wire + [Wire(c.id, c.resp, c.input)] else w.wire,
       answers := w.answers + [Answer(c.id, if ok then Forwarded else Failed)])
  }

  function Apply(w: World, l: Step): World
    requires Enabled(w, l)
  {
    match l
    case Decode(ev) => ApplyDecode(w, ev)
    case Register => ApplyRegister(w)
    case Offer => ApplyOffer(w)
    case Drop => ApplyDrop(w)
    case CloseStream => w.(pump := Stopped, closed := true)
    case Cancel => w.(cancelled := true)
    case Respond(g, id, resp) => ApplyRespond(w, g, id, resp)
    case Claim(g) => ApplyClaim(w, g)
    case Recheck(g) => ApplyRecheck(w, g)
    case Fetch(g) => ApplyFetch(w, g)
    case Encode(g, ok) => ApplyEncode(w, g, ok)
  }

  ghost predicate IsRun(ws: seq<World>, ls: seq<Step>) {
    && |ws| == |ls| + 1
    && ws[0] == START
    && forall i {:trigger ls[i]} :: 0 <= i < |ls| ==> Enabled(ws[i], ls[i]) && ws[i + 1] == Apply(ws[i], ls[i])
  }

  // ----- what every step keeps ----------------------------------------------

  predicate Answering(c: Call) {
    c.Claimed? || c.Cleared? || c.Routing?
  }

  predicate Offered(shown: seq<Shown>, id: string) {
    exists k :: 0 <= k < |shown| && shown[k].id == id
  }

  predicate OnWire(wire: seq<Wire>, id: string) {
    exists k :: 0 <= k < |wire| && wire[k].id == id
  }

  predicate EndedWith(answers: seq<Answer>, id: string, outcome: Outcome) {
    exists k :: 0 <= k < |answers| && answers[k] == Answer(id, outcome)
  }

  predicate InFlight(calls: map<nat, Call>, id: string) {
    exists g :: g in calls && Answering(calls[g]) && calls[g].id == id
  }

  /** The pump's own request is not shown yet, and registered exactly from Register on. */
  ghost predicate Ahead(w: World) {
    match w.pump
    case Stashed(ev) =>
      && ev.id != "" && ev.id in w.asked
      && ev.id !in w.pending && ev.id !in w.claimed && !Offered(w.sent, ev.id) && !Offered(w.lost, ev.id)
    case Offering(ev) =>
      ev.id != "" ==>
        ev.id in w.asked && (ev.id in w.pending || ev.id in w.claimed) && !Offered(w.sent, ev.id) && !Offered(w.lost, ev.id)
    case _ => true
  }

  /** A shown request is still registered or has been claimed, never both. */
  ghost predicate Answerable(w: World) {
    && (forall id :: id in w.pending ==> id != "" && id in w.asked && id !in w.claimed)
    && (forall id :: id in w.claimed ==> id != "" && id in w.asked)
    && (forall k :: 0 <= k < |w.sent| && w.sent[k].id != "" ==>
          w.sent[k].id in w.asked && (w.sent[k].id in w.pending || w.sent[k].id in w.claimed))
    && (forall k :: 0 <= k < |w.lost| && w.lost[k].id != "" ==> w.lost[k].id in w.asked && w.lost[k].id !in w.pending)
  }

  /** The input is kept until the one claimant fetches it. */
  ghost predicate Kept(w: World) {
    && (forall id :: id in w.inputs ==> id in w.asked && w.inputs[id] == w.asked[id])
    && (forall id :: id in w.pending ==> id in w.inputs)
    && (w.pump.Stashed? ==> w.pump.ev.id in w.inputs)
    && (forall g :: g in w.calls && (w.calls[g].Claimed? || w.calls[g].Cleared?) ==> w.calls[g].id in w.inputs)
    && (forall g :: g in w.calls && w.calls[g].Routing? ==>
          w.calls[g].id in w.asked && w.calls[g].input == Some(w.asked[w.calls[g].id]))
    && (forall k :: 0 <= k < |w.wire| ==> w.wire[k].id in w.asked && w.wire[k].input == Some(w.asked[w.wire[k].id]))
  }

  /** One claim, one fate: in some goroutine's hands, on the wire, cut off by the close, or failed. */
  ghost predicate OneEach(w: World) {
    && (forall g :: g in w.calls && Answering(w.calls[g]) ==> w.calls[g].id in w.claimed && !OnWire(w.wire, w.calls[g].id))
    && (forall g, h :: g in w.calls && h in w.calls && g != h && Answering(w.calls[g]) && Answering(w.calls[h]) ==>
          w.calls[g].id != w.calls[h].id)
    && (forall k :: 0 <= k < |w.wire| ==> w.wire[k].id in w.claimed)
    && (forall j, k :: 0 <= j < k < |w.wire| ==> w.wire[j].id != w.wire[k].id)
    && (forall id :: id in w.claimed ==> Accounted(w.calls, w.wire, w.answers, id))
  }

  /** Only a closed stream turns a reply away as closed, and closing stops the pump for good. */
  ghost predicate Shutting(w: World) {
    && (w.closed <==> w.pump.Stopped?)
    && (forall k :: 0 <= k < |w.answers| && w.answers[k].outcome.Closed? ==> w.closed)
  }

  ghost predicate Inv(w: World) {
    Ahead(w) && Answerable(w) && Kept(w) && OneEach(w) && Shutting(w)
  }

  lemma AheadStep(w: World, l: Step)
    requires Inv(w) && Enabled(w, l)
    ensures Ahead(Apply(w, l))
  {
    hide Kept, OneEach, Shutting;
    match l
    case _ =>
  }

  predicate ByPump(l: Step) {
    l.Decode? || l.Register? || l.Offer? || l.Drop? || l.CloseStream? || l.Cancel?
  }

  lemma AnswerableByPump(w: World, l: Step)
    requires Inv(w) && Enabled(w, l) && ByPump(l)
    ensures Answerable(Apply(w, l))
  {
    hide Kept, OneEach, Shutting;
    match l
    case _ =>
  }

  lemma AnswerableByCall(w: World, l: Step)
    requires Inv(w) && Enabled(w, l) && !ByPump(l)
    ensures Answerable(Apply(w, l))
  {
    hide Kept, OneEach, Shutting, Ahead, Without;
    match l
    case _ =>
  }

  lemma AnswerableStep(w: World, l: Step)
    requires Inv(w) && Enabled(w, l)
    ensures Answerable(Apply(w, l))
  {
    hide Apply, Enabled, Inv, Answerable;
    if ByPump(l) {
      AnswerableByPump(w, l);
    } else {
      AnswerableByCall(w, l);
    }
  }

  lemma KeptByDecode(w: World, ev: Shown)
    requires Inv(w) && Enabled(w, Decode(ev))
    ensures Kept(Apply(w, Decode(ev)))
  {
    hide Shutting, OneEach, Offered, Ahead;
  }

  lemma KeptByRegister(w: World)
    requires Inv(w) && Enabled(w, Register)
    ensures Kept(Apply(w, Register))
  {
    hide Shutting, OneEach, Offered;
  }

  lemma KeptByPump(w: World, l: Step)
    requires Inv(w) && Enabled(w, l) && ByPump(l)
    ensures Kept(Apply(w, l))
  {
    hide Shutting, OneEach, Offered, Ahead, Answerable, Fresh;
    match l
    case Decode(ev) => KeptByDecode(w, ev);
    case Register => KeptByRegister(w);
    case _ =>
  }

  lemma KeptByClaim(w: World, l: Step)
    requires Inv(w) && Enabled(w, l) && (l.Respond? || l.Claim? || l.Recheck?)
    ensures Kept(Apply(w, l))
  {
    hide Shutting, OneEach, Offered, Ahead;
    match l
    case _ =>
  }

  lemma KeptByFetch(w: World, g: nat)
    requires Inv(w) && Enabled(w, Fetch(g))
    ensures Kept(Apply(w, Fetch(g)))
  {
    hide Shutting, Offered, Ahead, OnWire, InFlight, EndedWith;
    var id := w.calls[g].id;
    StashedIsUnclaimed(w, id);
  }

  lemma StashedIsUnclaimed(w: World, id: string)
    requires Ahead(w) && id in w.claimed
    ensures w.pump.Stashed? ==> w.pump.ev.id != id
  {}

  lemma KeptByEncode(w: World, g: nat, ok: bool)
    requires Inv(w) && Enabled(w, Encode(g, ok))
    ensures Kept(Apply(w, Encode(g, ok)))
  {
    hide Shutting, OneEach, Offered, Ahead;
  }

  lemma KeptStep(w: World, l: Step)
    requires Inv(w) && Enabled(w, l)
    ensures Kept(Apply(w, l))
  {
    hide Apply, Kept, Inv;
    match l
    case Fetch(g) => KeptByFetch(w, g);
    case Encode(g, ok) => KeptByEncode(w, g, ok);
    case Respond(_, _, _) => KeptByClaim(w, l);
    case Claim(_) => KeptByClaim(w, l);
    case Recheck(_) => KeptByClaim(w, l);
    case _ => KeptByPump(w, l);
  }

  // One claim, one fate.

  ghost predicate Accounted(calls: map<nat, Call>, wire: seq<Wire>, answers: seq<Answer>, id: string) {
    InFlight(calls, id) || OnWire(wire, id) || EndedWith(answers, id, Closed) || EndedWith(answers, id, Failed)
  }

  /** A call that does not let go of its claim, and logs that only grow, keep every account. */
  lemma AccountKept(w: World, v: World, id: string)
    requires Accounted(w.calls, w.wire, w.answers, id)
    requires forall g :: g in w.calls && Answering(w.calls[g]) && w.calls[g].id == id ==>
               g in v.calls && Answering(v.calls[g]) && v.calls[g].id == id
    requires |w.wire| <= |v.wire| && v.wire[..|w.wire|] == w.wire
    requires |w.answers| <= |v.answers| && v.answers[..|w.answers|] == w.answers
    ensures Accounted(v.calls, v.wire, v.answers, id)
  {
    if InFlight(w.calls, id) {
      var g :| g in w.calls && Answering(w.calls[g]) && w.calls[g].id == id;
      assert g in v.calls && Answering(v.calls[g]) && v.calls[g].id == id;
    } else if OnWire(w.wire, id) {
      var k :| 0 <= k < |w.wire| && w.wire[k].id == id;
      assert v.wire[k] == v.wire[..|w.wire|][k];
    } else {
      var outcome := if EndedWith(w.answers, id, Closed) then Closed else Failed;
      var k :| 0 <= k < |w.answers| && w.answers[k] == Answer(id, outcome);
      assert v.answers[k] == v.answers[..|w.answers|][k];
    }
  }

  lemma OneEachByPump(w: World, l: Step)
    requires Inv(w) && Enabled(w, l) && ByPump(l)
    ensures OneEach(Apply(w, l))
  {
    hide Shutting, Kept, Ahead, Answerable, Answering, OnWire, InFlight, EndedWith, Fresh;
    match l
    case _ =>
  }

  lemma OneEachByRespond(w: World, g: nat, id: string, resp: string)
    requires Inv(w) && Enabled(w, Respond(g, id, resp))
    ensures OneEach(Apply(w, Respond(g, id, resp)))
  {
    hide Shutting, Kept, Ahead, Answerable, OnWire, InFlight, EndedWith, Accounted;
    var v := ApplyRespond(w, g, id, resp);
    forall x | x in w.claimed ensures Accounted(v.calls, v.wire, v.answers, x) {
      AccountKept(w, v, x);
    }
  }

  lemma OneEachByWin(w: World, g: nat)
    requires Inv(w) && Enabled(w, Claim(g)) && w.calls[g].id in w.pending
    ensures OneEach(Apply(w, Claim(g)))
  {
    var v, id := ApplyClaim(w, g), w.calls[g].id;
    assert id !in w.claimed;
    hide Shutting, Kept, Ahead, Answerable, OnWire, InFlight, EndedWith;
    forall x | x in w.claimed ensures Accounted(v.calls, v.wire, v.answers, x) {
      AccountKept(w, v, x);
    }
    HolderIsInFlight(v, g);
    UnclaimedIsOffWire(w, id);
    NobodyHolds(w, id);
  }

  lemma OneEachByMiss(w: World, g: nat)
    requires Inv(w) && Enabled(w, Claim(g)) && w.calls[g].id !in w.pending
    ensures OneEach(Apply(w, Claim(g)))
  {
    hide Shutting, Kept, Ahead, Answerable, OnWire, InFlight, EndedWith;
    var v := ApplyClaim(w, g);
    forall x | x in w.claimed ensures Accounted(v.calls, v.wire, v.answers, x) {
      AccountKept(w, v, x);
    }
  }

  lemma NobodyHolds(w: World, id: string)
    requires OneEach(w) && id !in w.claimed
    ensures forall g :: g in w.calls && Answering(w.calls[g]) ==> w.calls[g].id != id
  {}

  lemma HolderIsInFlight(w: World, g: nat)
    requires g in w.calls && Answering(w.calls[g])
    ensures InFlight(w.calls, w.calls[g].id)
  {}

  lemma UnclaimedIsOffWire(w: World, id: string)
    requires OneEach(w) && id !in w.claimed
    ensures !OnWire(w.wire, id)
  {}

  lemma OneEachByRecheck(w: World, g: nat)
    requires Inv(w) && Enabled(w, Recheck(g))
    ensures OneEach(Apply(w, Recheck(g)))
  {
    hide Shutting, Kept, Ahead, Answerable, OnWire, InFlight, EndedWith;
    var v, id := ApplyRecheck(w, g), w.calls[g].id;
    forall x | x in w.claimed ensures Accounted(v.calls, v.wire, v.answers, x) {
      if x == id {
        if w.closed {
          LastAnswer(w.answers, id, Closed);
        } else {
          HolderIsInFlight(v, g);
        }
      } else {
        AccountKept(w, v, x);
      }
    }
  }

  lemma LastAnswer(answers: seq<Answer>, id: string, outcome: Outcome)
    ensures EndedWith(answers + [Answer(id, outcome)], id, outcome)
  {
    var longer := answers + [Answer(id, outcome)];
    assert longer[|answers|] == Answer(id, outcome);
  }

  lemma LastWire(wire: seq<Wire>, m: Wire, id: string)
    ensures OnWire(wire + [m], id) <==> OnWire(wire, id) || m.id == id
  {
    var longer := wire + [m];
    assert longer[|wire|] == m;
    if OnWire(wire, id) {
      var k :| 0 <= k < |wire| && wire[k].id == id;
      assert longer[k].id == id;
    }
  }

  lemma OneEachByFetch(w: World, g: nat)
    requires Inv(w) && Enabled(w, Fetch(g))
    ensures OneEach(Apply(w, Fetch(g)))
  {
    hide Shutting, Kept, Ahead, Answerable, OnWire, InFlight, EndedWith;
    var v := ApplyFetch(w, g);
    forall x | x in w.claimed ensures Accounted(v.calls, v.wire, v.answers, x) {
      AccountKept(w, v, x);
    }
  }

  lemma OneEachByEncode(w: World, g: nat, ok: bool)
    requires Inv(w) && Enabled(w, Encode(g, ok))
    ensures OneEach(Apply(w, Encode(g, ok)))
  {
    hide Shutting, Kept, Ahead, Answerable, OnWire, InFlight, EndedWith;
    var v, c := ApplyEncode(w, g, ok), w.calls[g];
    var m := Wire(c.id, c.resp, c.input);
    forall x ensures OnWire(w.wire + [m], x) <==> OnWire(w.wire, x) || c.id == x {
      LastWire(w.wire, m, x);
    }
    LastAnswer(w.answers, c.id, Failed);
    forall x | x in w.claimed ensures Accounted(v.calls, v.wire, v.answers, x) {
      if x != c.id {
        AccountKept(w, v, x);
      }
    }
    forall k | 0 <= k < |w.wire| ensures w.wire[k].id != c.id {
      SentIsOnWire(w.wire, k);
    }
  }

  lemma SentIsOnWire(wire: seq<Wire>, k: nat)
    requires k < |wire|
    ensures OnWire(wire, wire[k].id)
  {}

  lemma OneEachStep(w: World, l: Step)
    requires Inv(w) && Enabled(w, l)
    ensures OneEach(Apply(w, l))
  {
    hide Apply, OneEach, Inv;
    match l
    case Respond(g, id, resp) => OneEachByRespond(w, g, id, resp);
    case Claim(g) => if w.calls[g].id in w.pending { OneEachByWin(w, g); } else { OneEachByMiss(w, g); }
    case Recheck(g) => OneEachByRecheck(w, g);
    case Fetch(g) => OneEachByFetch(w, g);
    case Encode(g, ok) => OneEachByEncode(w, g, ok);
    case _ => OneEachByPump(w, l);
  }

  lemma ShuttingStep(w: World, l: Step)
    requires Inv(w) && Enabled(w, l)
    ensures Shutting(Apply(w, l))
  {
    hide OneEach, Kept, Ahead, Answerable;
    match l
    case _ =>
  }

  lemma StepKeepsInv(w: World, l: Step)
    requires Inv(w) && Enabled(w, l)
    ensures Inv(Apply(w, l))
  {
    hide Apply, Enabled, Ahead, Answerable, Kept, OneEach, Shutting;
    AheadStep(w, l);
    AnswerableStep(w, l);
    KeptStep(w, l);
    OneEachStep(w, l);
    ShuttingStep(w, l);
  }
}
