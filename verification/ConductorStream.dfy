/**
 How the stream of a conducted session grows.

 Three things are followed from the moment a Send has been accepted, through every move of the
 caller, the reader and the session. First, as long as the turn is open nothing the session
 produces can start another, so the first boundary from there on starts none. Second, if no
 completion was owed at the Send, what had been decoded before it stands for the same part of the
 stream for ever, so whatever bounds the turn later comes of an event decoded since. Third, if one
 was owed, it is made first, and it belongs to an event decoded before. Whatever was owed, what
 had been decoded before the Send never comes to stand for less of the stream than it did then.
 */
module ConductorStream {
  import opened Prelude
  import opened SessionMachine
  import opened SessionInvariant
  import opened SessionSafety
  import opened ConductorMachine
  import opened ConductorSafety
  import opened ConductorDelivery

  /** The first boundary from a position on. */
  ghost predicate FirstFrom(evs: seq<StreamEvent>, from: int, q: int) {
    && 0 <= from <= q < |evs| && Boundary(evs[q]) && NoBoundary(evs, from, q)
  }

  // ----- a move is a step of the session, or none ---------------------------

  lemma MoveIsStep(c: Sys, m: Move) returns (l: Option<Step>)
    requires CanMove(c, m)
    ensures l.None? ==> Moved(c, m).w == c.w
    ensures l.Some? ==> Enabled(c.w, l.value) && Moved(c, m).w == Apply(c.w, l.value)
    ensures l.Some? && l.value.Decode? ==> m == OnSession(l.value)
  {
    match m
    case OnSession(step) => l := Some(step);
    case CallSend => l := Some(Send);
    case Pop => l := Some(Take);
    case Answer => l := Some(Respond(c.hand.req.id));
    case Handle => l := None;
    case _ => l := None;
  }

  lemma FirstStays(a: seq<StreamEvent>, b: seq<StreamEvent>, from: int, q: int)
    requires a <= b && FirstFrom(a, from, q)
    ensures FirstFrom(b, from, q) && b[q] == a[q]
  {}

  lemma FirstIsUnique(evs: seq<StreamEvent>, from: int, p: int, q: int)
    requires FirstFrom(evs, from, p) && FirstFrom(evs, from, q)
    ensures p == q
  {
    assert !(p < q) && !(q < p);
  }

  // ----- what comes first after a Send --------------------------------------

  /** From p on nothing bounds a turn yet and none can start, or the first boundary starts none. */
  ghost predicate NoStartFirst(w: World, p: nat) {
    || (NoBoundary(Produced(w), p, |Produced(w)|) && !w.s.life.Idle?)
    || (exists q :: FirstFrom(Produced(w), p, q) && !Produced(w)[q].TurnStart?)
  }

  lemma QuietDecode(w: World, ev: Event, p: nat)
    requires Inv(w) && Enabled(w, Decode(ev)) && !w.s.life.Idle? && p <= |Produced(w)|
    requires NoBoundary(Produced(w), p, |Produced(w)|)
    ensures var v := Apply(w, Decode(ev)); NoBoundary(Produced(v), p, |Produced(v)|) && !v.s.life.Idle?
  {
    ProducedByDecode(w, ev);
    OutputsBoundNothing(ev);
    hide Work, Produced, Outputs, Faithful, Blocks, Accounted;
  }

  lemma QuietFinish(w: World, p: nat)
    requires Inv(w) && w.todo != [] && w.todo[0].Finish? && p <= |Produced(w)|
    requires NoBoundary(Produced(w), p, |Produced(w)|)
    ensures var v := Apply(w, Pump); FirstFrom(Produced(v), p, |Produced(w)|) && Produced(v)[|Produced(w)|].TurnComplete?
  {
    ProducedByPump(w);
    hide Produced, Faithful, Blocks, Accounted;
  }

  lemma QuietEnd(w: World, reason: string, p: nat)
    requires Inv(w) && Enabled(w, DecoderClosed(reason)) && p <= |Produced(w)|
    requires NoBoundary(Produced(w), p, |Produced(w)|)
    ensures var v := Apply(w, DecoderClosed(reason)); FirstFrom(Produced(v), p, |Produced(w)|) && Produced(v)[|Produced(w)|].Ended?
  {
    EndFaithful(w, reason);
    var v := Apply(w, DecoderClosed(reason));
    assert Produced(v) == Produced(w) + [Ended(reason)];
  }

  lemma QuietElsewhere(w: World, l: Step)
    requires Inv(w) && Enabled(w, l) && !w.s.life.Idle?
    requires !l.Decode? && !l.DecoderClosed? && !Finishes(w, l)
    ensures Produced(Apply(w, l)) == Produced(w) && !Apply(w, l).s.life.Idle?
  {
    StillBusy(w, l);
    SameProduced(w, l);
  }

  lemma SameProduced(w: World, l: Step)
    requires Inv(w) && Enabled(w, l)
    requires !l.Decode? && !l.DecoderClosed? && !Finishes(w, l)
    ensures Produced(Apply(w, l)) == Produced(w)
  {
    hide Faithful, Tracking, Blocks, Accounted;
    if l.Pump? {
      ProducedByPump(w);
    } else {
      ProducedStep(w, l);
    }
  }

  lemma NoStartStep(w: World, l: Step, p: nat)
    requires Inv(w) && Enabled(w, l) && p <= |Produced(w)| && NoStartFirst(w, p)
    ensures p <= |Produced(Apply(w, l))| && NoStartFirst(Apply(w, l), p)
  {
    hide Produced, Inv, Apply, Enabled;
    ProducedStep(w, l);
    var v := Apply(w, l);
    if q :| FirstFrom(Produced(w), p, q) && !Produced(w)[q].TurnStart? {
      FirstStays(Produced(w), Produced(v), p, q);
    } else if l.Decode? {
      QuietDecode(w, l.ev, p);
    } else if l.DecoderClosed? {
      QuietEnd(w, l.reason, p);
    } else if Finishes(w, l) {
      QuietFinish(w, p);
    } else {
      QuietElsewhere(w, l);
    }
  }

  lemma {:induction false} NoStartAlong(cs: seq<Sys>, ms: seq<Move>, i: int, j: int, p: nat)
    requires IsConducted(cs, ms) && 0 <= i <= j < |cs|
    requires p <= |Produced(cs[i].w)| && NoStartFirst(cs[i].w, p)
    ensures p <= |Produced(cs[j].w)| && NoStartFirst(cs[j].w, p)
  {
    hide Produced, NoStartFirst, IsConducted;
    SameLength(cs, ms);
    if i < j {
      NoStartAlong(cs, ms, i, j - 1, p);
      NoStartNext(cs, ms, j - 1, p);
    }
  }

  lemma NoStartNext(cs: seq<Sys>, ms: seq<Move>, k: nat, p: nat)
    requires IsConducted(cs, ms) && k < |ms|
    requires p <= |Produced(cs[k].w)| && NoStartFirst(cs[k].w, p)
    ensures p <= |Produced(cs[k + 1].w)| && NoStartFirst(cs[k + 1].w, p)
  {
    hide Produced, NoStartFirst, SysInv, Inv, HandInv, Moved, CanMove, Apply, Enabled;
    InvAt(cs, ms, k);
    var l := MoveIsStep(cs[k], ms[k]);
    if l.Some? {
      NoStartStep(cs[k].w, l.value, p);
    }
  }

  lemma InvAt(cs: seq<Sys>, ms: seq<Move>, k: nat)
    requires IsConducted(cs, ms) && k < |cs|
    ensures Inv(cs[k].w) && HandInv(cs[k]) && SysInv(cs[k])
    ensures k < |ms| ==> CanMove(cs[k], ms[k])
  {
    hide Inv, HandInv, SlotInv;
    ConductedReachable(cs, ms, k);
  }

  /** How much of the stream the first n decoded events stand for. */
  function Extent(w: World, n: nat): nat
    requires n <= |w.log|
  {
    |Render(w.log[..n])|
  }

  // With nothing owed at the Send, what was decoded before it stays as it is.

  ghost predicate SettledUpTo(w: World, log: seq<Entry>) {
    |log| <= |w.log| && w.log[..|log|] == log && (|log| < |w.log| || !Awaiting(w))
  }

  lemma SettledStays(w: World, l: Step, log: seq<Entry>)
    requires Inv(w) && Enabled(w, l) && SettledUpTo(w, log)
    ensures SettledUpTo(Apply(w, l), log)
  {
    hide Work, Faithful, Tracking, Blocks, Accounted;
    if Finishes(w, l) {
      FinishIsLast(w);
    } else if !l.Decode? {
      LogFrame(w, l);
      AwaitingFrame(w, l);
    }
  }

  // With a completion owed, that completion comes first and is of an event decoded before.

  ghost predicate StrayFirst(w: World, p: nat, n: nat) {
    || (Awaiting(w) && |w.log| == n && |Produced(w)| == p)
    || (n <= |w.log| && Extent(w, n) > p && p < |Produced(w)| && Produced(w)[p].TurnComplete? && (n < |w.log| || !Awaiting(w)))
  }

  lemma StrayStays(w: World, l: Step, p: nat, n: nat)
    requires Inv(w) && Enabled(w, l) && StrayFirst(w, p, n)
    ensures StrayFirst(Apply(w, l), p, n)
  {
    hide Produced, Extent, Inv, Apply, Enabled;
    ProducedStep(w, l);
    if Awaiting(w) && |w.log| == n && |Produced(w)| == p {
      if Finishes(w, l) {
        StrayIsMade(w, p, n);
      } else {
        StrayWaits(w, l);
      }
    } else {
      ExtentStays(w, l, n);
    }
  }

  lemma StrayIsMade(w: World, p: nat, n: nat)
    requires Inv(w) && w.todo != [] && w.todo[0].Finish? && |w.log| == n && |Produced(w)| == p
    ensures StrayFirst(Apply(w, Pump), p, n)
  {
    FinishIsLast(w);
    ProducedByPump(w);
    StepKeepsInv(w, Pump);
    var v := Apply(w, Pump);
    assert v.log[..n] == v.log;
    assert !Awaiting(v);
    hide Tracking, Blocks, Accounted, Completing;
  }

  lemma StrayWaits(w: World, l: Step)
    requires Inv(w) && Enabled(w, l) && Awaiting(w) && !Finishes(w, l)
    ensures Awaiting(Apply(w, l)) && Apply(w, l).log == w.log && Produced(Apply(w, l)) == Produced(w)
  {
    hide Produced, Faithful, Tracking, Blocks, Accounted, Completing;
    assert w.todo != [] && !l.Decode? && !l.DecoderClosed?;
    LogFrame(w, l);
    AwaitingFrame(w, l);
    SameProduced(w, l);
  }

  lemma ExtentStays(w: World, l: Step, n: nat)
    requires Inv(w) && Enabled(w, l) && n <= |w.log| && (n < |w.log| || !Awaiting(w))
    ensures var v := Apply(w, l); n <= |v.log| && (n < |v.log| || !Awaiting(v)) && Extent(v, n) == Extent(w, n)
  {
    hide Inv, Apply, Enabled, Render;
    SettledStays(w, l, w.log[..n]);
    assert w.log[..n] == Apply(w, l).log[..n];
  }

  lemma {:induction false} SettledAlongFrom(cs: seq<Sys>, ms: seq<Move>, i: int, j: int, log: seq<Entry>)
    requires IsConducted(cs, ms) && 0 <= i <= j < |cs| && SettledUpTo(cs[i].w, log)
    ensures SettledUpTo(cs[j].w, log)
  {
    hide SettledUpTo, IsConducted;
    SameLength(cs, ms);
    if i < j {
      SettledAlongFrom(cs, ms, i, j - 1, log);
      SettledUpToNext(cs, ms, j - 1, log);
    }
  }

  lemma SettledUpToNext(cs: seq<Sys>, ms: seq<Move>, k: nat, log: seq<Entry>)
    requires IsConducted(cs, ms) && k < |ms| && SettledUpTo(cs[k].w, log)
    ensures SettledUpTo(cs[k + 1].w, log)
  {
    hide SettledUpTo, SysInv, Inv, HandInv, Moved, CanMove, Apply, Enabled;
    InvAt(cs, ms, k);
    var l := MoveIsStep(cs[k], ms[k]);
    if l.Some? {
      SettledStays(cs[k].w, l.value, log);
    }
  }

  lemma {:induction false} StrayAlong(cs: seq<Sys>, ms: seq<Move>, i: int, j: int, p: nat, n: nat)
    requires IsConducted(cs, ms) && 0 <= i <= j < |cs| && StrayFirst(cs[i].w, p, n)
    ensures StrayFirst(cs[j].w, p, n)
  {
    hide StrayFirst, IsConducted;
    SameLength(cs, ms);
    if i < j {
      StrayAlong(cs, ms, i, j - 1, p, n);
      StrayNext(cs, ms, j - 1, p, n);
    }
  }

  lemma StrayNext(cs: seq<Sys>, ms: seq<Move>, k: nat, p: nat, n: nat)
    requires IsConducted(cs, ms) && k < |ms| && StrayFirst(cs[k].w, p, n)
    ensures StrayFirst(cs[k + 1].w, p, n)
  {
    hide StrayFirst, SysInv, Inv, HandInv, Moved, CanMove, Apply, Enabled;
    InvAt(cs, ms, k);
    var l := MoveIsStep(cs[k], ms[k]);
    if l.Some? {
      StrayStays(cs[k].w, l.value, p, n);
    }
  }

  // What was decoded before the Send never comes to stand for less.

  ghost predicate AtLeast(w: World, n: nat, size: nat) {
    n <= |w.log| && Extent(w, n) >= size
  }

  lemma AtLeastStays(w: World, l: Step, n: nat, size: nat)
    requires Inv(w) && Enabled(w, l) && AtLeast(w, n, size)
    ensures AtLeast(Apply(w, l), n, size)
  {
    hide Inv, Enabled;
    if n < |w.log| || !Awaiting(w) {
      hide Apply, Extent;
      ExtentStays(w, l, n);
    } else {
      OwedStays(w, l, n, size);
    }
  }

  lemma OwedStays(w: World, l: Step, n: nat, size: nat)
    requires Inv(w) && Enabled(w, l) && AtLeast(w, n, size) && Awaiting(w) && n == |w.log|
    ensures AtLeast(Apply(w, l), n, size)
  {
    if Finishes(w, l) {
      OwedIsLogged(w);
      FinishGrows(w, n);
    } else {
      hide Inv, Apply, Enabled, Produced;
      StrayWaits(w, l);
    }
  }

  lemma OwedIsLogged(w: World)
    requires Inv(w) && Awaiting(w)
    ensures |w.log| > 0
  {}

  lemma FinishGrows(w: World, n: nat)
    requires Inv(w) && w.todo != [] && w.todo[0].Finish? && n == |w.log| && n > 0
    ensures n <= |ApplyPump(w).log| && Extent(ApplyPump(w), n) >= Extent(w, n)
  {
    FinishIsLast(w);
    FinishFaithful(w);
    ProducedByPump(w);
    assert w.log[..n] == w.log && ApplyPump(w).log[..n] == ApplyPump(w).log;
    hide Produced, Tracking, Blocks, Accounted, Completing, Render;
  }

  lemma {:induction false} AtLeastAlong(cs: seq<Sys>, ms: seq<Move>, i: int, j: int, n: nat, size: nat)
    requires IsConducted(cs, ms) && 0 <= i <= j < |cs| && AtLeast(cs[i].w, n, size)
    ensures AtLeast(cs[j].w, n, size)
  {
    hide AtLeast, IsConducted;
    SameLength(cs, ms);
    if i < j {
      AtLeastAlong(cs, ms, i, j - 1, n, size);
      AtLeastNext(cs, ms, j - 1, n, size);
    }
  }

  lemma AtLeastNext(cs: seq<Sys>, ms: seq<Move>, k: nat, n: nat, size: nat)
    requires IsConducted(cs, ms) && k < |ms| && AtLeast(cs[k].w, n, size)
    ensures AtLeast(cs[k + 1].w, n, size)
  {
    hide AtLeast, SysInv, Inv, HandInv, Moved, CanMove, Apply, Enabled;
    InvAt(cs, ms, k);
    var l := MoveIsStep(cs[k], ms[k]);
    if l.Some? {
      AtLeastStays(cs[k].w, l.value, n, size);
    }
  }

  /** Before the Send the stream was what had been decoded, save for the end of the session. */
  lemma ProducedIsRendered(w: World)
    requires Inv(w)
    ensures Extent(w, |w.log|) <= |Produced(w)|
    ensures forall q :: Extent(w, |w.log|) <= q < |Produced(w)| ==> Produced(w)[q].Ended?
    ensures !w.ended ==> |Produced(w)| == Extent(w, |w.log|)
  {
    assert w.log[..|w.log|] == w.log;
  }
}
