/**
 Refreshing every provider with a few workers: a feeder hands out providers over an
 unbuffered channel, workers fetch and put results in a buffered one, a closer closes it
 when the last worker has gone, and the caller collects. Every channel operation is a step.

 The invariant accounts for everything: the providers handed out are those no longer to be
 handed out; results buffered, collected and still in a worker's hands are no more than the
 providers handed out, so there is always room for one more; and together they are exactly the
 usages that were fetched. The results are closed only when every worker has gone, and a worker
 goes only when there is nothing left to be handed out.
 */
module RefreshMachine {
  import opened Prelude

  type Provider = string

  type Usage = string

  datatype Outcome = Fetched(usage: Usage) | Unsupported | Failed

  datatype Worker = Waiting | Busy(provider: Provider) | Holding(usage: Usage) | Gone

  /** `fetched` and `good` are history: providers handed out, usages successfully fetched. */
  datatype World = World(
    enabled: seq<Provider>, todo: seq<Provider>, fed: bool, cancelled: bool,
    workers: seq<Worker>, results: seq<Usage>, closed: bool, collected: seq<Usage>, returned: bool,
    fetched: seq<Provider>, good: seq<Usage>)

  const MAX_CONCURRENT := 5

  function Start(enabled: seq<Provider>): World {
    var n := if |enabled| < MAX_CONCURRENT then |enabled| else MAX_CONCURRENT;
    World(enabled, enabled, false, false, seq(n, _ => Waiting), [], false, [], enabled == [], [], [])
  }

  datatype Step =
    | Feed(i: nat)
    | StopFeeding
    | Finish(i: nat, outcome: Outcome)
    | Send(i: nat)
    | Leave(i: nat)
    | CloseResults
    | Collect
    | Return
    | Cancel

  predicate AllGone(workers: seq<Worker>) {
    forall i :: 0 <= i < |workers| ==> workers[i].Gone?
  }

  predicate Enabled(w: World, l: Step) {
    !w.returned &&
    match l
    case Feed(i) => !w.fed && w.todo != [] && i < |w.workers| && w.workers[i].Waiting?
    case StopFeeding => !w.fed && (w.todo == [] || w.cancelled)
    case Finish(i, _) => i < |w.workers| && w.workers[i].Busy?
    case Send(i) => i < |w.workers| && w.workers[i].Holding? && |w.results| < |w.enabled|
    case Leave(i) => w.fed && i < |w.workers| && w.workers[i].Waiting?
    case CloseResults => !w.closed && AllGone(w.workers)
    case Collect => w.results != []
    case Return => w.closed && w.results == []
    case Cancel => !w.cancelled
  }

  function AfterFetch(outcome: Outcome): Worker {
    match outcome
    case Fetched(usage) => Holding(usage)
    case _ => Waiting
  }

  function Apply(w: World, l: Step): World
    requires Enabled(w, l)
  {
    match l
    case Feed(i) =>
      w.(todo := w.todo[1..], workers := w.workers[i := Busy(w.todo[0])], fetched := w.fetched + [w.todo[0]])
    case StopFeeding => w.(fed := true)
    case Finish(i, outcome) =>
      w.(workers := w.workers[i := AfterFetch(outcome)],
         good := if outcome.Fetched? then w.good + [outcome.usage] else w.good)
    case Send(i) => w.(workers := w.workers[i := Waiting], results := w.results + [w.workers[i].usage])
    case Leave(i) => w.(workers := w.workers[i := Gone])
    case CloseResults => w.(closed := true)
    case Collect => w.(results := w.results[1..], collected := w.collected + [w.results[0]])
    case Return => w.(returned := true)
    case Cancel => w.(cancelled := true)
  }

  ghost predicate IsRun(ws: seq<World>, ls: seq<Step>, enabled: seq<Provider>) {
    && |ws| == |ls| + 1
    && ws[0] == Start(enabled)
    && forall i {:trigger ls[i]} :: 0 <= i < |ls| ==> Enabled(ws[i], ls[i]) && ws[i + 1] == Apply(ws[i], ls[i])
  }

  // ----- sums over the workers ----------------------------------------------

  function Held(workers: seq<Worker>): multiset<Usage> {
    if workers == [] then multiset{} else HeldBy(workers[0]) + Held(workers[1..])
  }

  function HeldBy(w: Worker): multiset<Usage> {
    if w.Holding? then multiset{w.usage} else multiset{}
  }

  /** Workers that have a provider not yet accounted for by a result. */
  function Engaged(workers: seq<Worker>): nat {
    if workers == [] then 0 else (if workers[0].Busy? || workers[0].Holding? then 1 else 0) + Engaged(workers[1..])
  }

  function Weight(w: Worker): nat {
    match w
    case Busy(_) => 4
    case Holding(_) => 3
    case Waiting => 1
    case Gone => 0
  }

  function Load(workers: seq<Worker>): nat {
    if workers == [] then 0 else Weight(workers[0]) + Load(workers[1..])
  }

  lemma UpdatedTail(workers: seq<Worker>, i: nat, w: Worker)
    requires i < |workers|
    ensures workers[i := w] != [] && workers[i := w][0] == (if i == 0 then w else workers[0])
    ensures workers[i := w][1..] == if i == 0 then workers[1..] else workers[1..][i - 1 := w]
  {}

  lemma Beside(a: multiset<Usage>, b: multiset<Usage>, c: multiset<Usage>, d: multiset<Usage>, e: multiset<Usage>)
    requires b + c == d + e
    ensures a + b + c == a + d + e
  {
    assert a + b + c == a + (b + c) && a + d + e == a + (d + e);
  }

  lemma Swapped(a: multiset<Usage>, b: multiset<Usage>, c: multiset<Usage>)
    ensures a + b + c == c + b + a
  {}

  lemma HeldFront(workers: seq<Worker>)
    requires workers != []
    ensures Held(workers) == HeldBy(workers[0]) + Held(workers[1..])
  {}

  lemma {:induction false} HeldReplaced(workers: seq<Worker>, i: nat, w: Worker)
    requires i < |workers|
    ensures Held(workers[i := w]) + HeldBy(workers[i]) == Held(workers) + HeldBy(w)
  {
    hide HeldBy, Held;
    UpdatedTail(workers, i, w);
    var rest := workers[1..];
    HeldFront(workers);
    HeldFront(workers[i := w]);
    if i > 0 {
      HeldReplaced(rest, i - 1, w);
      Beside(HeldBy(workers[0]), Held(rest[i - 1 := w]), HeldBy(workers[i]), Held(rest), HeldBy(w));
    } else {
      Swapped(HeldBy(w), Held(rest), HeldBy(workers[0]));
    }
  }

  lemma {:induction false} EngagedReplaced(workers: seq<Worker>, i: nat, w: Worker)
    requires i < |workers|
    ensures Engaged(workers[i := w]) + (if workers[i].Busy? || workers[i].Holding? then 1 else 0)
         == Engaged(workers) + (if w.Busy? || w.Holding? then 1 else 0)
  {
    UpdatedTail(workers, i, w);
    if i > 0 {
      EngagedReplaced(workers[1..], i - 1, w);
    }
  }

  lemma {:induction false} LoadReplaced(workers: seq<Worker>, i: nat, w: Worker)
    requires i < |workers|
    ensures Load(workers[i := w]) + Weight(workers[i]) == Load(workers) + Weight(w)
  {
    UpdatedTail(workers, i, w);
    hide Weight;
    if i > 0 {
      LoadReplaced(workers[1..], i - 1, w);
    }
  }

  lemma {:induction false} OneIsEngaged(workers: seq<Worker>, i: nat)
    requires i < |workers| && workers[i].Holding?
    ensures Engaged(workers) >= 1
  {
    if i > 0 {
      OneIsEngaged(workers[1..], i - 1);
    }
  }

  lemma {:induction false} GoneHoldNothing(workers: seq<Worker>)
    requires AllGone(workers)
    ensures Held(workers) == multiset{}
  {
    if workers != [] {
      GoneHoldNothing(workers[1..]);
    }
  }

  lemma {:induction false} FreshWorkers(workers: seq<Worker>)
    requires forall i :: 0 <= i < |workers| ==> workers[i].Waiting?
    ensures Held(workers) == multiset{} && Engaged(workers) == 0 && Load(workers) == |workers|
  {
    if workers != [] {
      FreshWorkers(workers[1..]);
    }
  }

  // ----- what every step keeps ----------------------------------------------

  ghost predicate Handed(w: World) {
    && w.fetched + w.todo == w.enabled
    && |w.results| + |w.collected| + Engaged(w.workers) <= |w.fetched|
  }

  ghost predicate Conserved(w: World) {
    multiset(w.collected) + multiset(w.results) + Held(w.workers) == multiset(w.good)
  }

  ghost predicate Ordered(w: World) {
    && (w.closed ==> AllGone(w.workers) && (w.fed || w.workers == []))
    && (w.returned ==> w.results == [] && (w.closed || w.enabled == []))
    && (forall i :: 0 <= i < |w.workers| && w.workers[i].Gone? ==> w.fed)
    && (w.fed ==> w.todo == [] || w.cancelled)
    && |w.workers| == (if |w.enabled| < MAX_CONCURRENT then |w.enabled| else MAX_CONCURRENT)
  }

  ghost predicate Inv(w: World) {
    Handed(w) && Conserved(w) && Ordered(w)
  }

  lemma HandedStep(w: World, l: Step)
    requires Inv(w) && Enabled(w, l)
    ensures Handed(Apply(w, l))
  {
    hide Conserved, Ordered, Held, Load;
    match l
    case Feed(i) =>
      EngagedReplaced(w.workers, i, Busy(w.todo[0]));
      assert w.fetched + [w.todo[0]] + w.todo[1..] == w.fetched + w.todo;
    case Finish(i, outcome) => EngagedReplaced(w.workers, i, AfterFetch(outcome));
    case Send(i) => EngagedReplaced(w.workers, i, Waiting);
    case Leave(i) => EngagedReplaced(w.workers, i, Gone);
    case _ =>
  }

  /** Moving a usage between the three places, or adding a fresh one to both sides. */
  lemma Moves(collected: seq<Usage>, results: seq<Usage>, u: Usage)
    ensures multiset(results + [u]) == multiset(results) + multiset{u}
    ensures results != [] ==> multiset(collected + [results[0]]) + multiset(results[1..]) == multiset(collected) + multiset(results)
  {
    if results != [] {
      assert results == [results[0]] + results[1..];
    }
  }

  lemma Traded(c: multiset<Usage>, r: multiset<Usage>, h: multiset<Usage>, h': multiset<Usage>, u: multiset<Usage>)
    requires h' + u == h + multiset{}
    ensures c + (r + u) + h' == c + r + h
  {
    assert c + (r + u) + h' == c + r + (h' + u);
  }

  lemma ConservedBySend(w: World, i: nat)
    requires Conserved(w) && Enabled(w, Send(i))
    ensures Conserved(Apply(w, Send(i)))
  {
    var u := w.workers[i].usage;
    HeldReplaced(w.workers, i, Waiting);
    Moves(w.collected, w.results, u);
    assert HeldBy(w.workers[i]) == multiset{u} && HeldBy(Waiting) == multiset{};
    hide Held, HeldBy;
    Traded(multiset(w.collected), multiset(w.results), Held(w.workers), Held(w.workers[i := Waiting]), multiset{u});
  }

  lemma Gained(c: multiset<Usage>, r: multiset<Usage>, h: multiset<Usage>, h': multiset<Usage>, u: multiset<Usage>)
    requires h' + multiset{} == h + u
    ensures c + r + h' == c + r + h + u
  {
    assert h' == h + u;
  }

  lemma ConservedByFinish(w: World, i: nat, outcome: Outcome)
    requires Conserved(w) && Enabled(w, Finish(i, outcome))
    ensures Conserved(Apply(w, Finish(i, outcome)))
  {
    hide Held, Conserved;
    var v, now := Apply(w, Finish(i, outcome)), AfterFetch(outcome);
    if outcome.Fetched? {
      Moves([], w.good, outcome.usage);
      assert multiset(v.good) == multiset(w.good) + HeldBy(now);
    } else {
      assert multiset(v.good) == multiset(w.good) + HeldBy(now);
    }
    GainsWhatItHolds(w, v, i, now);
  }

  lemma GainsWhatItHolds(w: World, v: World, i: nat, now: Worker)
    requires Conserved(w) && i < |w.workers| && w.workers[i].Busy?
    requires v.workers == w.workers[i := now] && v.results == w.results && v.collected == w.collected
    requires multiset(v.good) == multiset(w.good) + HeldBy(now)
    ensures Conserved(v)
  {
    HeldReplaced(w.workers, i, now);
    assert HeldBy(w.workers[i]) == multiset{};
    Gained(multiset(w.collected), multiset(w.results), Held(w.workers), Held(w.workers[i := now]), HeldBy(now));
  }

  lemma ConservedStep(w: World, l: Step)
    requires Inv(w) && Enabled(w, l)
    ensures Conserved(Apply(w, l))
  {
    hide Conserved, Handed, Ordered, Apply;
    match l
    case Finish(i, outcome) => ConservedByFinish(w, i, outcome);
    case Send(i) => ConservedBySend(w, i);
    case _ => ConservedElsewhere(w, l);
  }

  lemma ConservedElsewhere(w: World, l: Step)
    requires Conserved(w) && Enabled(w, l) && !l.Finish? && !l.Send?
    ensures Conserved(Apply(w, l))
  {
    hide Held;
    match l
    case Feed(i) =>
      SameHeld(w, i, Busy(w.todo[0]));
    case Leave(i) => SameHeld(w, i, Gone);
    case Collect => Moves(w.collected, w.results, "");
    case _ =>
  }

  lemma SameHeld(w: World, i: nat, now: Worker)
    requires i < |w.workers| && !w.workers[i].Holding? && !now.Holding?
    ensures Held(w.workers[i := now]) == Held(w.workers)
  {
    HeldReplaced(w.workers, i, now);
    assert HeldBy(now) == multiset{} == HeldBy(w.workers[i]);
    hide Held, HeldBy;
    assert Held(w.workers[i := now]) + multiset{} == Held(w.workers[i := now]);
    assert Held(w.workers) + multiset{} == Held(w.workers);
  }

  lemma OrderedStep(w: World, l: Step)
    requires Inv(w) && Enabled(w, l)
    ensures Ordered(Apply(w, l))
  {
    hide Handed, Conserved;
    match l
    case CloseResults => assert w.workers != [] ==> w.workers[0].Gone?;
    case _ =>
  }

  lemma StepKeepsInv(w: World, l: Step)
    requires Inv(w) && Enabled(w, l)
    ensures Inv(Apply(w, l))
  {
    hide Handed, Conserved, Ordered, Apply, Enabled;
    HandedStep(w, l);
    ConservedStep(w, l);
    OrderedStep(w, l);
  }

  lemma StartIsFine(enabled: seq<Provider>)
    ensures Inv(Start(enabled))
  {
    FreshWorkers(Start(enabled).workers);
    assert [] + enabled == enabled;
  }

  lemma {:induction false} InvHolds(ws: seq<World>, ls: seq<Step>, enabled: seq<Provider>, n: nat)
    requires IsRun(ws, ls, enabled) && n <= |ls|
    ensures Inv(ws[n]) && ws[n].enabled == enabled
  {
    hide Inv, Enabled, Apply, Start;
    if n > 0 {
      InvHolds(ws, ls, enabled, n - 1);
      assert ws[n] == Apply(ws[n - 1], ls[n - 1]) && Enabled(ws[n - 1], ls[n - 1]);
      StepKeepsInv(ws[n - 1], ls[n - 1]);
      SameProviders(ws[n - 1], ls[n - 1]);
    } else {
      StartIsFine(enabled);
      StartHas(enabled);
    }
  }

  lemma StartHas(enabled: seq<Provider>)
    ensures Start(enabled).enabled == enabled
  {}

  lemma SameProviders(w: World, l: Step)
    requires Enabled(w, l)
    ensures Apply(w, l).enabled == w.enabled
  {
    match l
    case _ =>
  }
}
