/**
 The execution handle as the object it is. Each method is a run of HandleMachine's steps
 with nobody in between, on the very fields it holds.
 */
module Handles {
  import opened Prelude
  import opened HandleMachine

  /** Respond from start to return, undisturbed. */
  function RespondAlone(w: World, g: nat, id: string, resp: string, ok: bool): World
    requires g !in w.calls
  {
    if w.closed then ApplyRespond(w, g, id, resp)
    else if id !in w.pending then ApplyClaim(ApplyRespond(w, g, id, resp), g)
    else ApplyEncode(ApplyFetch(ApplyRecheck(ApplyClaim(ApplyRespond(w, g, id, resp), g), g), g), g, ok)
  }

  /** `ok` is whether the reply could be encoded and written. */
  function OutcomeAlone(w: World, id: string, ok: bool): Outcome {
    if w.closed then Closed else if id !in w.pending then Unknown else if ok then Forwarded else Failed
  }

  /** An undisturbed reply consumes the request it answers and touches no other. */
  lemma RespondAloneIs(w: World, g: nat, id: string, resp: string, ok: bool)
    requires Inv(w) && g !in w.calls
    ensures var v, outcome := RespondAlone(w, g, id, resp, ok), OutcomeAlone(w, id, ok);
            && v.calls == w.calls && v.answers == w.answers + [Answer(id, outcome)]
            && (if outcome.Forwarded? || outcome.Failed?
                then v.pending == w.pending - {id} && v.inputs == w.inputs - {id}
                else v.pending == w.pending && v.inputs == w.inputs)
            && v.wire == if outcome.Forwarded? then w.wire + [Wire(id, resp, Some(w.asked[id]))] else w.wire
  {
    hide Inv;
    if OutcomeAlone(w, id, ok).Forwarded? || OutcomeAlone(w, id, ok).Failed? {
      PendingHasInput(w, id);
      AnsweredAlone(w, g, id, resp, ok);
    } else if w.closed {
    } else {
      UnknownAlone(w, g, id, resp, ok);
    }
  }

  lemma PendingHasInput(w: World, id: string)
    requires Inv(w) && id in w.pending
    ensures id in w.inputs && id in w.asked && w.inputs[id] == w.asked[id]
  {}

  lemma RefusedAlone(w: World, g: nat, id: string, resp: string, ok: bool)
    requires g !in w.calls && w.closed
    ensures RespondAlone(w, g, id, resp, ok) == w.(answers := w.answers + [Answer(id, Closed)])
  {}

  lemma UnknownAlone(w: World, g: nat, id: string, resp: string, ok: bool)
    requires g !in w.calls && !w.closed && id !in w.pending
    ensures RespondAlone(w, g, id, resp, ok) == w.(answers := w.answers + [Answer(id, Unknown)])
  {
    assert Without(w.calls[g := Checked(id, resp)], g) == w.calls;
  }

  lemma AnsweredAlone(w: World, g: nat, id: string, resp: string, ok: bool)
    requires g !in w.calls && !w.closed && id in w.pending
    ensures var input := if id in w.inputs then Some(w.inputs[id]) else None;
            RespondAlone(w, g, id, resp, ok) ==
            w.(pending := w.pending - {id}, claimed := w.claimed + {id}, inputs := w.inputs - {id},
               wire := if ok then w.wire + [Wire(id, resp, input)] else w.wire,
               answers := w.answers + [Answer(id, if ok then Forwarded else Failed)])
  {
    var v := ApplyFetch(ApplyRecheck(ApplyClaim(ApplyRespond(w, g, id, resp), g), g), g);
    assert v.calls.Keys == w.calls.Keys + {g};
    assert Without(v.calls, g) == w.calls;
  }

  /** emit, whose select takes the context's branch when `gone`. */
  function EmitAlone(w: World, ev: Shown, gone: bool): World
    requires w.pump == if ev.id == "" then Offering(ev) else Stashed(ev)
  {
    var ready := if ev.id == "" then w else ApplyRegister(w);
    if gone then ApplyDrop(ready) else ApplyOffer(ready)
  }

  class RunnerHandle {
    var pending: set<string>
    var pendingInput: map<string, string>
    var closed: bool
    var cancelled: bool
    var events: seq<Shown>
    var written: seq<Wire>
    ghost var model: World

    ghost predicate Valid()
      reads this
    {
      && model.pending == pending && model.inputs == pendingInput
      && model.closed == closed && model.cancelled == cancelled
      && model.sent == events && model.wire == written
    }

    constructor ()
      ensures Valid() && model == START
    {
      pending, pendingInput, closed, cancelled, events, written := {}, map[], false, false, [], [];
      model := START;
    }

    /** What the pump does with a parsed request before offering it. */
    method Stash(ev: Shown)
      requires Valid() && Enabled(model, Decode(ev))
      modifies this
      ensures Valid() && model == Apply(old(model), Decode(ev))
      ensures pendingInput == if ev.id == "" then old(pendingInput) else old(pendingInput)[ev.id := ev.input]
    {
      model := Apply(model, Decode(ev));
      if ev.id != "" {
        pendingInput := pendingInput[ev.id := ev.input];
      }
    }

    method Emit(ev: Shown, gone: bool)
      requires Valid() && model.pump == if ev.id == "" then Offering(ev) else Stashed(ev)
      requires gone ==> cancelled
      modifies this
      ensures Valid() && model == EmitAlone(old(model), ev, gone)
      ensures events == if gone then old(events) else old(events) + [ev]
      ensures pending == if ev.id == "" then old(pending) else if gone then old(pending) - {ev.id} else old(pending) + {ev.id}
    {
      model := EmitAlone(model, ev, gone);
      if ev.id != "" {
        pending := pending + {ev.id};
      }
      if gone {
        if ev.id != "" {
          pending := pending - {ev.id};
        }
      } else {
        events := events + [ev];
      }
    }

    method CloseStream()
      requires Valid() && Enabled(model, HandleMachine.CloseStream)
      modifies this
      ensures Valid() && model == Apply(old(model), HandleMachine.CloseStream) && closed
    {
      model := Apply(model, HandleMachine.CloseStream);
      closed := true;
    }

    method Cancel()
      requires Valid()
      modifies this
      ensures Valid() && model == Apply(old(model), HandleMachine.Cancel) && cancelled
    {
      model := Apply(model, HandleMachine.Cancel);
      cancelled := true;
    }

    method Respond(ghost g: nat, id: string, resp: string, ok: bool) returns (outcome: Outcome)
      requires Valid() && g !in model.calls
      modifies this
      ensures Valid() && model == RespondAlone(old(model), g, id, resp, ok)
      ensures outcome == OutcomeAlone(old(model), id, ok)
      ensures outcome.Closed? <==> old(closed)
      ensures outcome.Unknown? <==> !old(closed) && id !in old(pending)
      ensures outcome.Closed? || outcome.Unknown? ==>
                pending == old(pending) && pendingInput == old(pendingInput) && written == old(written)
      ensures outcome.Forwarded? || outcome.Failed? ==>
                && (outcome.Forwarded? <==> ok) && pending == old(pending) - {id} && pendingInput == old(pendingInput) - {id}
                && written == if ok then old(written) + [Wire(id, resp, if id in old(pendingInput) then Some(old(pendingInput)[id]) else None)]
                              else old(written)
    {
      hide RespondAlone;
      if closed {
        RefusedAlone(model, g, id, resp, ok);
        model := RespondAlone(model, g, id, resp, ok);
        return Closed;
      }
      if id !in pending {
        UnknownAlone(model, g, id, resp, ok);
        model := RespondAlone(model, g, id, resp, ok);
        return Unknown;
      }
      AnsweredAlone(model, g, id, resp, ok);
      model := RespondAlone(model, g, id, resp, ok);
      pending := pending - {id};
      if closed {
        return Closed;
      }
      ResponseFn(id, resp, ok);
      return if ok then Forwarded else Failed;
    }

    /** Takes the stored input out and writes the reply it completes, if that can be done. */
    method ResponseFn(id: string, resp: string, ok: bool)
      modifies this`pendingInput, this`written
      ensures pendingInput == old(pendingInput) - {id}
      ensures written == if ok then old(written) + [Wire(id, resp, if id in old(pendingInput) then Some(old(pendingInput)[id]) else None)]
                         else old(written)
    {
      var input := if id in pendingInput then Some(pendingInput[id]) else None;
      if id in pendingInput {
        pendingInput := pendingInput - {id};
      }
      if ok {
        written := written + [Wire(id, resp, input)];
      }
    }
  }
}
