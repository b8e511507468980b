/** What every interleaving guarantees about requests. */
module HandleSafety {
  import opened Prelude
  import opened HandleMachine

  lemma {:induction false} InvHolds(ws: seq<World>, ls: seq<Step>, n: nat)
    requires IsRun(ws, ls) && n <= |ls|
    ensures Inv(ws[n])
  {
    if n > 0 {
      hide Inv, Apply, Enabled;
      InvHolds(ws, ls, n - 1);
      assert ws[n] == Apply(ws[n - 1], ls[n - 1]) && Enabled(ws[n - 1], ls[n - 1]);
      StepKeepsInv(ws[n - 1], ls[n - 1]);
    }
  }

  /** The i-th step removes the registration of `id`. */
  ghost predicate Claims(ws: seq<World>, ls: seq<Step>, i: nat, id: string)
    requires i < |ls| && i < |ws|
  {
    && ls[i].Claim? && ls[i].g in ws[i].calls && ws[i].calls[ls[i].g].Checked?
    && ws[i].calls[ls[i].g].id == id && id in ws[i].pending
  }

  lemma {:induction false} ClaimedEarlier(ws: seq<World>, ls: seq<Step>, n: nat, id: string) returns (i: nat)
    requires IsRun(ws, ls) && n <= |ls| && id in ws[n].claimed
    ensures i < n && Claims(ws, ls, i, id)
  {
    assert ws[n] == Apply(ws[n - 1], ls[n - 1]) && Enabled(ws[n - 1], ls[n - 1]);
    if id in ws[n - 1].claimed {
      i := ClaimedEarlier(ws, ls, n - 1, id);
    } else {
      i := n - 1;
      match ls[n - 1]
      case _ =>
    }
  }

  lemma {:induction false} AskedEarlier(ws: seq<World>, ls: seq<Step>, n: nat, id: string) returns (i: nat)
    requires IsRun(ws, ls) && n <= |ls| && id in ws[n].asked
    ensures i < n && ls[i] == Decode(Shown(id, ws[n].asked[id]))
  {
    assert ws[n] == Apply(ws[n - 1], ls[n - 1]) && Enabled(ws[n - 1], ls[n - 1]);
    if id in ws[n - 1].asked && ws[n - 1].asked[id] == ws[n].asked[id] {
      i := AskedEarlier(ws, ls, n - 1, id);
    } else {
      i := n - 1;
      match ls[n - 1]
      case _ =>
    }
  }

  /**
   A consumer shown a request is told it is unknown only when some earlier call has already
   claimed that very request.
   */
  lemma ShownIsUnknownOnlyOnceClaimed(ws: seq<World>, ls: seq<Step>, n: nat, g: nat, id: string) returns (i: nat)
    requires IsRun(ws, ls) && n < |ls| && ls[n] == Claim(g)
    requires g in ws[n].calls && ws[n].calls[g].Checked? && ws[n].calls[g].id == id
    requires id != "" && Offered(ws[n].sent, id)
    requires |ws[n + 1].answers| > |ws[n].answers|
    ensures i < n && Claims(ws, ls, i, id)
    ensures ws[n + 1].answers == ws[n].answers + [Answer(id, Unknown)]
  {
    InvHolds(ws, ls, n);
    assert ws[n + 1] == Apply(ws[n], ls[n]);
    assert id in ws[n].claimed by {
      ShownIsPendingOrClaimed(ws[n], id);
    }
    i := ClaimedEarlier(ws, ls, n, id);
  }

  lemma ShownIsPendingOrClaimed(w: World, id: string)
    requires Inv(w) && id != "" && Offered(w.sent, id)
    ensures id in w.pending || id in w.claimed
  {}

  /** A request is claimed at most once. */
  lemma ClaimedOnce(ws: seq<World>, ls: seq<Step>, i: nat, j: nat, id: string)
    requires IsRun(ws, ls) && i < j < |ls| && Claims(ws, ls, i, id)
    ensures !Claims(ws, ls, j, id)
  {
    assert ws[i + 1] == Apply(ws[i], ls[i]);
    ClaimsLast(ws, ls, i + 1, j, id);
    InvHolds(ws, ls, j);
  }

  lemma {:induction false} ClaimsLast(ws: seq<World>, ls: seq<Step>, m: nat, n: nat, id: string)
    requires IsRun(ws, ls) && m <= n <= |ls| && id in ws[m].claimed
    ensures id in ws[n].claimed
  {
    if m < n {
      ClaimsLast(ws, ls, m, n - 1, id);
      assert ws[n] == Apply(ws[n - 1], ls[n - 1]) && Enabled(ws[n - 1], ls[n - 1]);
      match ls[n - 1]
      case _ =>
    }
  }

  /** Each request is forwarded at most once, with the input it was decoded with. */
  lemma ForwardedOnceWithItsInput(ws: seq<World>, ls: seq<Step>, n: nat, k: nat) returns (i: nat)
    requires IsRun(ws, ls) && n <= |ls| && k < |ws[n].wire|
    ensures forall j :: 0 <= j < |ws[n].wire| && j != k ==> ws[n].wire[j].id != ws[n].wire[k].id
    ensures i < n && ws[n].wire[k].input.Some? && ls[i] == Decode(Shown(ws[n].wire[k].id, ws[n].wire[k].input.value))
  {
    InvHolds(ws, ls, n);
    i := AskedEarlier(ws, ls, n, ws[n].wire[k].id);
  }

  /** While the stream is open an accepted reply is on its way or on the wire, unless its writing failed. */
  lemma OpenStreamLosesNoReply(ws: seq<World>, ls: seq<Step>, n: nat, id: string)
    requires IsRun(ws, ls) && n <= |ls| && id in ws[n].claimed && !ws[n].closed
    ensures InFlight(ws[n].calls, id) || OnWire(ws[n].wire, id) || EndedWith(ws[n].answers, id, Failed)
  {
    InvHolds(ws, ls, n);
  }

  /** Once every call has returned, a claimed request is on the wire unless the close cut its reply off or its writing failed. */
  lemma AtRestEveryClaimIsSettled(ws: seq<World>, ls: seq<Step>, n: nat, id: string)
    requires IsRun(ws, ls) && n <= |ls| && id in ws[n].claimed && ws[n].calls == map[]
    ensures OnWire(ws[n].wire, id) || (ws[n].closed && EndedWith(ws[n].answers, id, Closed)) || EndedWith(ws[n].answers, id, Failed)
  {
    InvHolds(ws, ls, n);
  }

  /** A request lost to cancellation leaves no registration behind. */
  lemma LostIsForgotten(ws: seq<World>, ls: seq<Step>, n: nat, k: nat)
    requires IsRun(ws, ls) && n <= |ls| && k < |ws[n].lost| && ws[n].lost[k].id != ""
    ensures ws[n].lost[k].id !in ws[n].pending
  {
    InvHolds(ws, ls, n);
  }

  /** Nothing is lost while the context is live. */
  lemma {:induction false} LosingNeedsCancel(ws: seq<World>, ls: seq<Step>, n: nat)
    requires IsRun(ws, ls) && n <= |ls| && !ws[n].cancelled
    ensures ws[n].lost == []
  {
    if n > 0 {
      assert ws[n] == Apply(ws[n - 1], ls[n - 1]) && Enabled(ws[n - 1], ls[n - 1]);
      match ls[n - 1]
      case _ => LosingNeedsCancel(ws, ls, n - 1);
    }
  }

  /** Every event decoded is shown, lost or in the pump's hands, in the order it was decoded. */
  ghost function DecodedBy(ls: seq<Step>): seq<Shown> {
    if ls == [] then []
    else
      var rest := DecodedBy(ls[..|ls| - 1]);
      if ls[|ls| - 1].Decode? then rest + [ls[|ls| - 1].ev] else rest
  }

  function InHand(p: Pump): seq<Shown> {
    match p
    case Stashed(ev) => [ev]
    case Offering(ev) => [ev]
    case _ => []
  }

  lemma {:induction false} UndisturbedConsumerSeesAll(ws: seq<World>, ls: seq<Step>, n: nat)
    requires IsRun(ws, ls) && n <= |ls| && !ws[n].cancelled
    ensures ws[n].sent + InHand(ws[n].pump) == DecodedBy(ls[..n])
  {
    if n > 0 {
      assert ls[..n][..n - 1] == ls[..n - 1];
      assert ws[n] == Apply(ws[n - 1], ls[n - 1]) && Enabled(ws[n - 1], ls[n - 1]);
      match ls[n - 1]
      case _ => UndisturbedConsumerSeesAll(ws, ls, n - 1);
    }
  }

  // ----- every event and every reply, step by step --------------------------------

  /** What the consumer was given, by the steps that gave it. */
  function SentBy(ws: seq<World>, ls: seq<Step>, n: nat): seq<Shown>
    requires n <= |ls| && n <= |ws|
  {
    if n == 0 then [] else SentBy(ws, ls, n - 1) + if ls[n - 1].Offer? then InHand(ws[n - 1].pump) else []
  }

  function LostBy(ws: seq<World>, ls: seq<Step>, n: nat): seq<Shown>
    requires n <= |ls| && n <= |ws|
  {
    if n == 0 then [] else LostBy(ws, ls, n - 1) + if ls[n - 1].Drop? then InHand(ws[n - 1].pump) else []
  }

  /** Both together, in order. */
  function PassedBy(ws: seq<World>, ls: seq<Step>, n: nat): seq<Shown>
    requires n <= |ls| && n <= |ws|
  {
    if n == 0 then [] else PassedBy(ws, ls, n - 1) + if ls[n - 1].Offer? || ls[n - 1].Drop? then InHand(ws[n - 1].pump) else []
  }

  /** Every event decoded is shown or lost in its turn, or still in the pump's hands, and only dropping loses any. */
  lemma {:induction false} ShownOrLost(ws: seq<World>, ls: seq<Step>, n: nat)
    requires IsRun(ws, ls) && n <= |ls|
    ensures PassedBy(ws, ls, n) + InHand(ws[n].pump) == DecodedBy(ls[..n])
    ensures ws[n].sent == SentBy(ws, ls, n) && ws[n].lost == LostBy(ws, ls, n)
  {
    hide Apply, Enabled, InHand;
    if n > 0 {
      ShownOrLost(ws, ls, n - 1);
      assert ls[..n][..n - 1] == ls[..n - 1];
      var w, l := ws[n - 1], ls[n - 1];
      assert ws[n] == Apply(w, l) && Enabled(w, l);
      PassesOn(w, l);
      var passed := if l.Offer? || l.Drop? then InHand(w.pump) else [];
      assert PassedBy(ws, ls, n - 1) + passed + InHand(ws[n].pump) == PassedBy(ws, ls, n - 1) + (passed + InHand(ws[n].pump));
      assert PassedBy(ws, ls, n - 1) + (InHand(w.pump) + if l.Decode? then [l.ev] else [])
          == PassedBy(ws, ls, n - 1) + InHand(w.pump) + if l.Decode? then [l.ev] else [];
    } else {
      NothingInHand();
    }
  }

  lemma NothingInHand()
    ensures InHand(START.pump) == [] && START.sent == [] && START.lost == []
  {}

  lemma PassesOn(w: World, l: Step)
    requires Enabled(w, l)
    ensures var v := Apply(w, l);
            && v.sent == w.sent + (if l.Offer? then InHand(w.pump) else [])
            && v.lost == w.lost + (if l.Drop? then InHand(w.pump) else [])
            && (if l.Offer? || l.Drop? then InHand(w.pump) else []) + InHand(v.pump) == InHand(w.pump) + if l.Decode? then [l.ev] else []
  {
    if ByPump(l) {
      hide ApplyRespond, ApplyClaim, ApplyRecheck, ApplyFetch, ApplyEncode;
      match l
      case _ =>
    } else {
      CallsLeaveThePump(w, l);
      hide Apply, Enabled;
    }
  }

  lemma CallsLeaveThePump(w: World, l: Step)
    requires Enabled(w, l) && !ByPump(l)
    ensures Apply(w, l).pump == w.pump && Apply(w, l).sent == w.sent && Apply(w, l).lost == w.lost
  {
    match l
    case _ =>
  }

  lemma PumpLeavesTheCalls(w: World, l: Step)
    requires Enabled(w, l) && ByPump(l)
    ensures Apply(w, l).calls == w.calls && Apply(w, l).wire == w.wire
  {
    match l
    case _ =>
  }

  /** The reply in a call's hands is the one it was called with. */
  ghost predicate SaidBy(ls: seq<Step>, n: nat, id: string, resp: string)
    requires n <= |ls|
  {
    exists i :: 0 <= i < n && ls[i].Respond? && ls[i].id == id && ls[i].resp == resp
  }

  ghost predicate Quotes(w: World, ls: seq<Step>, n: nat)
    requires n <= |ls|
  {
    && (forall g :: g in w.calls ==> SaidBy(ls, n, w.calls[g].id, w.calls[g].resp))
    && (forall k :: 0 <= k < |w.wire| ==> SaidBy(ls, n, w.wire[k].id, w.wire[k].resp))
  }

  lemma CallsStep(w: World, l: Step, g: nat)
    requires Enabled(w, l) && g in Apply(w, l).calls
    ensures var c := Apply(w, l).calls[g];
            || (g in w.calls && w.calls[g].id == c.id && w.calls[g].resp == c.resp)
            || (l.Respond? && l.id == c.id && l.resp == c.resp)
  {
    if ByPump(l) {
      PumpLeavesTheCalls(w, l);
      hide Apply;
    } else {
      match l
      case _ =>
    }
  }

  lemma WireStep(w: World, l: Step)
    requires Enabled(w, l)
    ensures || Apply(w, l).wire == w.wire
            || (l.Encode? && l.g in w.calls && |Apply(w, l).wire| == |w.wire| + 1 && Apply(w, l).wire[..|w.wire|] == w.wire
                && Apply(w, l).wire[|w.wire|].id == w.calls[l.g].id && Apply(w, l).wire[|w.wire|].resp == w.calls[l.g].resp)
  {
    match l
    case _ =>
  }

  lemma SaidStays(ls: seq<Step>, n: nat, id: string, resp: string)
    requires n < |ls| && (SaidBy(ls, n, id, resp) || (ls[n].Respond? && ls[n].id == id && ls[n].resp == resp))
    ensures SaidBy(ls, n + 1, id, resp)
  {}

  lemma QuotesStep(w: World, ls: seq<Step>, n: nat)
    requires n < |ls| && Enabled(w, ls[n]) && Quotes(w, ls, n)
    ensures Quotes(Apply(w, ls[n]), ls, n + 1)
  {
    hide SaidBy, Apply, Enabled;
    var v, m := Apply(w, ls[n]), n + 1;
    forall g | g in v.calls ensures SaidBy(ls, m, v.calls[g].id, v.calls[g].resp) {
      CallsStep(w, ls[n], g);
      SaidStays(ls, n, v.calls[g].id, v.calls[g].resp);
    }
    WireStep(w, ls[n]);
    forall k | 0 <= k < |v.wire| ensures SaidBy(ls, m, v.wire[k].id, v.wire[k].resp) {
      assert k < |w.wire| ==> v.wire[k] == w.wire[k];
      SaidStays(ls, n, v.wire[k].id, v.wire[k].resp);
    }
  }

  /** What is written is what a caller said, to that request. */
  lemma {:induction false} ForwardsWhatWasSaid(ws: seq<World>, ls: seq<Step>, n: nat)
    requires IsRun(ws, ls) && n <= |ls|
    ensures Quotes(ws[n], ls, n)
  {
    if n > 0 {
      hide Quotes, Apply, Enabled;
      ForwardsWhatWasSaid(ws, ls, n - 1);
      assert ws[n] == Apply(ws[n - 1], ls[n - 1]) && Enabled(ws[n - 1], ls[n - 1]);
      QuotesStep(ws[n - 1], ls, n - 1);
    }
  }

  // ----- instances -------------------------------------------------------------------

  lemma Go(ws: seq<World>, ls: seq<Step>, l: Step) returns (vs: seq<World>, ms: seq<Step>)
    requires IsRun(ws, ls) && |ws| == |ls| + 1 && Enabled(ws[|ls|], l)
    ensures IsRun(vs, ms) && ms == ls + [l] && |vs| == |ms| + 1
    ensures vs[|ms|] == Apply(ws[|ls|], l) && forall i :: 0 <= i < |ws| ==> vs[i] == ws[i]
  {
    hide Apply, Enabled;
    vs, ms := ws + [Apply(ws[|ls|], l)], ls + [l];
    assert forall i {:trigger ms[i]} :: 0 <= i < |ls| ==> ms[i] == ls[i] && vs[i] == ws[i] && vs[i + 1] == ws[i + 1];
  }

  /** A request is shown, and someone has said something to it. */
  lemma ShownAndTaken(id: string, input: string, resp: string) returns (ws: seq<World>, ls: seq<Step>)
    requires id != ""
    ensures IsRun(ws, ls) && |ls| == 5 && |ws| == 6
    ensures ws[3].sent == [Shown(id, input)] && ws[3].pump.Reading?
    ensures ws[5] == START.(inputs := map[id := input], asked := map[id := input], sent := [Shown(id, input)],
                            claimed := {id}, calls := map[0 := Claimed(id, resp)])
  {
    ws, ls := [START], [];
    assert IsRun(ws, ls);
    hide IsRun;
    ws, ls := Go(ws, ls, Decode(Shown(id, input)));
    ws, ls := Go(ws, ls, Register);
    ws, ls := Go(ws, ls, Offer);
    ws, ls := Go(ws, ls, Respond(0, id, resp));
    ws, ls := Go(ws, ls, Claim(0));
    assert {} + {id} - {id} == {};
  }

  /** An instance: asked, shown and answered. */
  lemma RequestIsAnswered(id: string, input: string, resp: string) returns (ws: seq<World>, ls: seq<Step>)
    requires id != ""
    ensures IsRun(ws, ls) && |ls| == 8 && |ws| == 9
    ensures ws[8].wire == [Wire(id, resp, Some(input))] && ws[8].answers == [Answer(id, Forwarded)] && ws[8].calls == map[]
  {
    hide IsRun;
    ws, ls := ShownAndTaken(id, input, resp);
    ws, ls := Go(ws, ls, Recheck(0));
    ws, ls := Go(ws, ls, Fetch(0));
    ws, ls := Go(ws, ls, Encode(0, true));
  }

  /** An instance: taken, but the stream is closed before the reply is on its way. */
  lemma CloseCutsAReplyOff(id: string, input: string, resp: string) returns (ws: seq<World>, ls: seq<Step>)
    requires id != ""
    ensures IsRun(ws, ls) && |ls| == 7 && |ws| == 8
    ensures ws[7].closed && ws[7].wire == [] && ws[7].answers == [Answer(id, Closed)] && ws[7].calls == map[]
  {
    hide IsRun;
    ws, ls := ShownAndTaken(id, input, resp);
    ws, ls := Go(ws, ls, CloseStream);
    ws, ls := Go(ws, ls, Recheck(0));
  }

  /** An instance: lost to cancellation, and unknown to whoever answers. */
  lemma LostRequestIsUnknown(id: string, input: string, resp: string) returns (ws: seq<World>, ls: seq<Step>)
    requires id != ""
    ensures IsRun(ws, ls) && |ls| == 6 && |ws| == 7
    ensures ws[4].lost == [Shown(id, input)] && ws[4].sent == []
    ensures ws[6].answers == [Answer(id, Unknown)] && ws[6].calls == map[]
  {
    ws, ls := [START], [];
    assert IsRun(ws, ls);
    hide IsRun;
    ws, ls := Go(ws, ls, Decode(Shown(id, input)));
    ws, ls := Go(ws, ls, Register);
    ws, ls := Go(ws, ls, Cancel);
    ws, ls := Go(ws, ls, Drop);
    ws, ls := Go(ws, ls, Respond(0, id, resp));
    ws, ls := Go(ws, ls, Claim(0));
  }
}
