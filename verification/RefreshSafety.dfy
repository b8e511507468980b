/** What a refresh promises in every schedule, and that every schedule ends. */
module RefreshSafety {
  import opened Prelude
  import opened RefreshMachine

  // ----- what a refresh promises --------------------------------------------

  /** Providers are fetched in order, each at most once, by at most five workers at a time. */
  lemma EachIsFetchedAtMostOnce(ws: seq<World>, ls: seq<Step>, enabled: seq<Provider>, n: nat)
    requires IsRun(ws, ls, enabled) && n <= |ls|
    ensures |ws[n].fetched| <= |enabled| && ws[n].fetched == enabled[..|ws[n].fetched|]
    ensures |ws[n].workers| == if |enabled| < 5 then |enabled| else 5
  {
    InvHolds(ws, ls, enabled, n);
  }

  /** A worker with a result never waits for room, and never finds the channel closed. */
  lemma SendingNeverBlocks(ws: seq<World>, ls: seq<Step>, enabled: seq<Provider>, n: nat, i: nat)
    requires IsRun(ws, ls, enabled) && n <= |ls| && i < |ws[n].workers| && ws[n].workers[i].Holding?
    ensures Enabled(ws[n], Send(i)) && !ws[n].closed
  {
    InvHolds(ws, ls, enabled, n);
    OneIsEngaged(ws[n].workers, i);
  }

  /** What Refresh returns is what was successfully fetched, no more and no less. */
  lemma ReturnsWhatWasFetched(ws: seq<World>, ls: seq<Step>, enabled: seq<Provider>, n: nat)
    requires IsRun(ws, ls, enabled) && n <= |ls| && ws[n].returned
    ensures multiset(ws[n].collected) == multiset(ws[n].good)
    ensures (forall k :: 0 <= k < n ==> !ls[k].Cancel?) ==> ws[n].fetched == enabled
  {
    if forall k :: 0 <= k < n ==> !ls[k].Cancel? {
      OnlyCancelCancels(ws, ls, enabled, n);
    }
    InvHolds(ws, ls, enabled, n);
    var w := ws[n];
    if enabled == [] {
      assert AllGone(w.workers);
    }
    GoneHoldNothing(w.workers);
    assert w.fetched + [] == w.fetched;
    if w.enabled != [] {
      assert w.workers[0].Gone?;
    }
  }

  lemma {:induction false} OnlyCancelCancels(ws: seq<World>, ls: seq<Step>, enabled: seq<Provider>, n: nat)
    requires IsRun(ws, ls, enabled) && n <= |ls| && forall k :: 0 <= k < n ==> !ls[k].Cancel?
    ensures !ws[n].cancelled
  {
    if n > 0 {
      OnlyCancelCancels(ws, ls, enabled, n - 1);
      assert ws[n] == Apply(ws[n - 1], ls[n - 1]) && Enabled(ws[n - 1], ls[n - 1]);
      match ls[n - 1]
      case _ =>
    }
  }

  // ----- every provider handed out is fetched to an end ---------------------------

  function WorkOf(w: Worker): multiset<Provider> {
    if w.Busy? then multiset{w.provider} else multiset{}
  }

  /** Whose fetch is under way. */
  function AtWork(workers: seq<Worker>): multiset<Provider> {
    if workers == [] then multiset{} else WorkOf(workers[0]) + AtWork(workers[1..])
  }

  /** Whose fetch has come to an end, well or not. */
  function FinishedBy(ws: seq<World>, ls: seq<Step>, n: nat): multiset<Provider>
    requires n <= |ls| && n <= |ws|
  {
    if n == 0 then multiset{}
    else
      FinishedBy(ws, ls, n - 1)
      + if ls[n - 1].Finish? && ls[n - 1].i < |ws[n - 1].workers| then WorkOf(ws[n - 1].workers[ls[n - 1].i]) else multiset{}
  }

  lemma {:induction false} AtWorkReplaced(workers: seq<Worker>, i: nat, w: Worker)
    requires i < |workers|
    ensures AtWork(workers[i := w]) + WorkOf(workers[i]) == AtWork(workers) + WorkOf(w)
  {
    hide WorkOf, AtWork;
    UpdatedTail(workers, i, w);
    var rest := workers[1..];
    AtWorkFront(workers);
    AtWorkFront(workers[i := w]);
    if i > 0 {
      AtWorkReplaced(rest, i - 1, w);
      Beside(WorkOf(workers[0]), AtWork(rest[i - 1 := w]), WorkOf(workers[i]), AtWork(rest), WorkOf(w));
    } else {
      Swapped(WorkOf(w), AtWork(rest), WorkOf(workers[0]));
    }
  }

  lemma AtWorkFront(workers: seq<Worker>)
    requires workers != []
    ensures AtWork(workers) == WorkOf(workers[0]) + AtWork(workers[1..])
  {}

  lemma IdleReplaced(workers: seq<Worker>, i: nat, w: Worker)
    requires i < |workers| && !w.Busy?
    ensures AtWork(workers[i := w]) + WorkOf(workers[i]) == AtWork(workers)
    ensures !workers[i].Busy? ==> AtWork(workers[i := w]) == AtWork(workers)
  {
    hide AtWork;
    AtWorkReplaced(workers, i, w);
    assert AtWork(workers) + multiset{} == AtWork(workers);
    assert AtWork(workers[i := w]) + multiset{} == AtWork(workers[i := w]);
  }

  lemma {:induction false} NoneAtWork(workers: seq<Worker>)
    requires forall i :: 0 <= i < |workers| ==> !workers[i].Busy?
    ensures AtWork(workers) == multiset{}
  {
    if workers != [] {
      NoneAtWork(workers[1..]);
    }
  }

  lemma WorkMoves(w: World, l: Step)
    requires Enabled(w, l)
    ensures l.Feed? ==> Apply(w, l).fetched == w.fetched + [w.todo[0]] && AtWork(Apply(w, l).workers) == AtWork(w.workers) + multiset{w.todo[0]}
    ensures l.Finish? ==> Apply(w, l).fetched == w.fetched && l.i < |w.workers|
                          && AtWork(Apply(w, l).workers) + WorkOf(w.workers[l.i]) == AtWork(w.workers)
    ensures !l.Feed? && !l.Finish? ==> Apply(w, l).fetched == w.fetched && AtWork(Apply(w, l).workers) == AtWork(w.workers)
  {
    hide AtWork;
    match l
    case Feed(i) =>
      AtWorkReplaced(w.workers, i, Busy(w.todo[0]));
      assert AtWork(w.workers[i := Busy(w.todo[0])]) + multiset{} == AtWork(w.workers[i := Busy(w.todo[0])]);
    case Finish(i, outcome) => IdleReplaced(w.workers, i, AfterFetch(outcome));
    case Send(i) => IdleReplaced(w.workers, i, Waiting);
    case Leave(i) => IdleReplaced(w.workers, i, Gone);
    case _ =>
  }

  /** Whoever was handed out is being fetched or has been. */
  lemma {:induction false} HandedOutIsFetched(ws: seq<World>, ls: seq<Step>, enabled: seq<Provider>, n: nat)
    requires IsRun(ws, ls, enabled) && n <= |ls|
    ensures multiset(ws[n].fetched) == FinishedBy(ws, ls, n) + AtWork(ws[n].workers)
  {
    hide AtWork, WorkOf, Apply, Enabled, Start;
    if n > 0 {
      HandedOutIsFetched(ws, ls, enabled, n - 1);
      assert ws[n] == Apply(ws[n - 1], ls[n - 1]) && Enabled(ws[n - 1], ls[n - 1]);
      WorkMoves(ws[n - 1], ls[n - 1]);
    } else {
      NothingAtWork(enabled);
    }
  }

  lemma NothingAtWork(enabled: seq<Provider>)
    ensures Start(enabled).fetched == [] && AtWork(Start(enabled).workers) == multiset{}
  {
    NoneAtWork(Start(enabled).workers);
  }

  /** When Refresh returns, the fetches that came to an end are one for every provider handed out. */
  lemma EveryFetchHasEnded(ws: seq<World>, ls: seq<Step>, enabled: seq<Provider>, n: nat)
    requires IsRun(ws, ls, enabled) && n <= |ls| && ws[n].returned
    ensures FinishedBy(ws, ls, n) == multiset(ws[n].fetched)
    ensures (forall k :: 0 <= k < n ==> !ls[k].Cancel?) ==> FinishedBy(ws, ls, n) == multiset(enabled)
  {
    HandedOutIsFetched(ws, ls, enabled, n);
    ReturnsWhatWasFetched(ws, ls, enabled, n);
    InvHolds(ws, ls, enabled, n);
    NoneAtWork(ws[n].workers);
  }

  /** Each usage in the account was fetched for a provider some worker had been handed. */
  lemma {:induction false} GoodAreFinishes(ws: seq<World>, ls: seq<Step>, enabled: seq<Provider>, n: nat)
    requires IsRun(ws, ls, enabled) && n <= |ls|
    ensures ws[n].good == UsagesOf(ls[..n])
  {
    if n > 0 {
      GoodAreFinishes(ws, ls, enabled, n - 1);
      assert ls[..n][..n - 1] == ls[..n - 1];
      assert ws[n] == Apply(ws[n - 1], ls[n - 1]) && Enabled(ws[n - 1], ls[n - 1]);
      match ls[n - 1]
      case _ =>
    }
  }

  /** The usages the fetches of a schedule returned, in the order they finished. */
  function UsagesOf(ls: seq<Step>): seq<Usage> {
    if ls == [] then []
    else
      var l := ls[|ls| - 1];
      UsagesOf(ls[..|ls| - 1]) + if l.Finish? && l.outcome.Fetched? then [l.outcome.usage] else []
  }

  // ----- and it ends --------------------------------------------------------

  /** Steps still possible, at most. */
  function Measure(w: World): nat {
    5 * |w.todo| + Load(w.workers) + |w.results|
    + (if w.fed then 0 else 1) + (if w.closed then 0 else 1)
    + (if w.returned then 0 else 1) + (if w.cancelled then 0 else 1)
  }

  lemma EveryStepShrinks(w: World, l: Step)
    requires Enabled(w, l)
    ensures Measure(Apply(w, l)) < Measure(w)
  {
    match l
    case Feed(i) => LoadReplaced(w.workers, i, Busy(w.todo[0]));
    case Finish(i, outcome) => LoadReplaced(w.workers, i, AfterFetch(outcome));
    case Send(i) => LoadReplaced(w.workers, i, Waiting);
    case Leave(i) => LoadReplaced(w.workers, i, Gone);
    case _ =>
  }

  /** Until it returns something can always go on, whatever the fetches come to and without any cancelling. */
  lemma NeverStuck(w: World, outcome: Outcome) returns (l: Step)
    requires Inv(w) && !w.returned
    ensures Enabled(w, l) && !l.Cancel? && (l.Finish? ==> l.outcome == outcome)
  {
    hide Conserved, Ordered, Held, Load;
    if i :| 0 <= i < |w.workers| && w.workers[i].Holding? {
      OneIsEngaged(w.workers, i);
      l := Send(i);
    } else if i :| 0 <= i < |w.workers| && w.workers[i].Busy? {
      l := Finish(i, outcome);
    } else if i :| 0 <= i < |w.workers| && w.workers[i].Waiting? {
      l := if w.fed then Leave(i) else if w.todo == [] then StopFeeding else Feed(i);
    } else {
      l := if !w.closed then CloseResults else if w.results != [] then Collect else Return;
    }
  }

  /** Every schedule ends, and one that cannot go on has returned. */
  lemma {:induction false} EveryScheduleEnds(ws: seq<World>, ls: seq<Step>, enabled: seq<Provider>, n: nat)
    requires IsRun(ws, ls, enabled) && n <= |ls|
    ensures n + Measure(ws[n]) <= 6 * |enabled| + 4
    ensures (forall l :: !Enabled(ws[n], l)) ==> ws[n].returned
  {
    hide Inv, Measure, Apply, Start, Enabled;
    InvHolds(ws, ls, enabled, n);
    if n > 0 {
      EveryScheduleEnds(ws, ls, enabled, n - 1);
      assert ws[n] == Apply(ws[n - 1], ls[n - 1]) && Enabled(ws[n - 1], ls[n - 1]);
      EveryStepShrinks(ws[n - 1], ls[n - 1]);
    } else {
      StartMeasure(enabled);
    }
    if !ws[n].returned {
      var l := NeverStuck(ws[n], Failed);
    }
  }

  lemma StartMeasure(enabled: seq<Provider>)
    ensures Measure(Start(enabled)) <= 6 * |enabled| + 4
  {
    FreshWorkers(Start(enabled).workers);
  }
}
