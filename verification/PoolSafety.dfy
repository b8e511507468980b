/** What a session pool promises in every run. */
module PoolSafety {
  import opened Prelude
  import opened PoolMachine
  import SM = SessionMachine

  // ----- what the pool promises ---------------------------------------------

  /** A bounded pool never holds more than its bound. */
  lemma NeverOverCapacity(ws: seq<World>, ls: seq<Step>, cap: int, n: nat)
    requires IsRun(ws, ls, cap) && n <= |ls| && cap > 0
    ensures |ws[n].entries| <= cap
  {
    InvHolds(ws, ls, cap, n);
  }

  /**
   Every admission of a session is resident, on its way to be closed, closed, or dropped,
   exactly one of these, and is closed at most once; nothing else is anywhere.
   */
  lemma EverySessionIsInOnePlace(ws: seq<World>, ls: seq<Step>, cap: int, n: nat, s: nat)
    requires IsRun(ws, ls, cap) && n <= |ls|
    ensures s in ws[n].registered <==> InOnePlace(ws[n], s)
    ensures Once(ws[n].closed)
  {
    InvHolds(ws, ls, cap, n);
    var w := ws[n];
    var places := [s in Residents(w.entries), s in w.closing, s in w.closed, s in w.dropped];
    if s in w.registered {
      hide Residents;
      var i := if places[0] then 0 else if places[1] then 1 else if places[2] then 2 else 3;
      assert places[i] && forall j :: 0 <= j < 4 && j != i ==> !places[j];
    }
  }

  // ----- what a scan has seen, and who it takes out ---------------------------

  /** At step m the session of k had the status a scan that is still on its way has seen. */
  ghost predicate SeenAt(ws: seq<World>, ls: seq<Step>, m: int, n: int, k: string) {
    && 0 <= m < n < |ws| && |ws| == |ls| + 1 && ls[m] == Look(k)
    && ws[n].scan.Some? && k in ws[n].scan.value.seen && k in ws[n].entries && ws[m].entries == ws[n].entries
    && ws[n].scan.value.seen[k] == ws[m].status(ws[n].entries[k].session)
  }

  /** What was seen is what was, at some moment since the lock was taken. */
  lemma {:induction false} SeenIsTrue(ws: seq<World>, ls: seq<Step>, cap: int, n: nat, k: string) returns (m: nat)
    requires IsRun(ws, ls, cap) && n <= |ls| && ws[n].scan.Some? && k in ws[n].scan.value.seen
    ensures SeenAt(ws, ls, m, n, k)
  {
    var w, l := ws[n - 1], ls[n - 1];
    assert ws[n] == Apply(w, l) && Enabled(w, l);
    ScanFrame(w, l);
    if l == Look(k) && w.scan.Some? && k !in w.scan.value.seen {
      m := n - 1;
    } else {
      m := SeenIsTrue(ws, ls, cap, n - 1, k);
    }
  }

  lemma ScanFrame(w: World, l: Step)
    requires Enabled(w, l) && Apply(w, l).scan.Some?
    ensures Apply(w, l).scan.value.seen != map[] ==> w.scan.Some? && Apply(w, l).entries == w.entries
    ensures l.Look? ==> Apply(w, l).scan.value.seen == w.scan.value.seen[l.key := w.status(w.entries[l.key].session)]
    ensures !l.Look? && w.scan.Some? ==> Apply(w, l).scan == w.scan
  {
    match l
    case _ =>
  }

  /** At step i the session of `key` is taken out to be closed. */
  ghost predicate TakenOut(ws: seq<World>, ls: seq<Step>, i: int, k: string) {
    && 0 <= i < |ls| && |ws| == |ls| + 1 && k in ws[i].entries
    && ws[i].entries[k].session !in ws[i].closing && ws[i].entries[k].session in ws[i + 1].closing
  }

  /** Whoever an Open or a sweep takes out had been seen Idle. */
  lemma TakenOutWasSeenIdle(ws: seq<World>, ls: seq<Step>, cap: int, i: nat, k: string) returns (m: nat)
    requires IsRun(ws, ls, cap) && TakenOut(ws, ls, i, k) && (ls[i].Open? || ls[i].Sweep?)
    ensures SeenAt(ws, ls, m, i, k) && ws[m].status(ws[i].entries[k].session).Idle?
  {
    InvHolds(ws, ls, cap, i);
    assert ws[i + 1] == Apply(ws[i], ls[i]) && Enabled(ws[i], ls[i]);
    TakesOutOnlyIdle(ws[i], ls[i], k);
    m := SeenIsTrue(ws, ls, cap, i, k);
  }

  lemma TakesOutOnlyIdle(w: World, l: Step, k: string)
    requires Inv(w) && Enabled(w, l) && (l.Open? || l.Sweep?) && k in w.entries
    requires w.entries[k].session !in w.closing && w.entries[k].session in Apply(w, l).closing
    ensures w.scan.Some? && k in w.scan.value.seen && w.scan.value.seen[k].Idle?
    ensures l.Open? ==> l.victim == Some(k) && AtCapacity(w.entries, w.cap) && w.scan.value.purpose.key != k
    ensures l.Sweep? ==> w.entries[k].lastActivity < w.scan.value.purpose.cutoff
  {
    hide Looked, Once, Apart, Everyone;
    if l.Open? && l.victim.Some? {
      assert w.entries[k].session in SessionsOf(w.entries, {l.victim.value});
    }
  }

  // ----- least recently touched -----------------------------------------------

  /** When `key` was last opened or touched before step n. */
  ghost function LastTouch(ws: seq<World>, ls: seq<Step>, n: nat, key: string): Option<int>
    requires |ws| == |ls| + 1 && n <= |ls|
  {
    if n == 0 then None
    else
      var w, l := ws[n - 1], ls[n - 1];
      if l == Touch(key) && key in w.entries then Some(w.now)
      else if l.Open? && w.scan.Some? && w.scan.value.purpose.ForOpen? && w.scan.value.purpose.key == key
           && OpenVerdict(w.entries, w.scan.value.seen, w.cap, key).Opened? then Some(w.now)
      else LastTouch(ws, ls, n - 1, key)
  }

  lemma {:induction false} ActivityIsLastTouch(ws: seq<World>, ls: seq<Step>, cap: int, n: nat, key: string)
    requires IsRun(ws, ls, cap) && n <= |ls| && key in ws[n].entries
    ensures LastTouch(ws, ls, n, key) == Some(ws[n].entries[key].lastActivity)
  {
    if n > 0 {
      var w, l := ws[n - 1], ls[n - 1];
      assert ws[n] == Apply(w, l) && Enabled(w, l);
      EntryFrame(w, l, key);
      if key in w.entries {
        ActivityIsLastTouch(ws, ls, cap, n - 1, key);
      }
    }
  }

  /** Only touching or opening a key changes its entry, other than by taking it away. */
  lemma EntryFrame(w: World, l: Step, key: string)
    requires Enabled(w, l) && key in Apply(w, l).entries
    ensures var admitted := l.Open? && w.scan.value.purpose.key == key
                          && OpenVerdict(w.entries, w.scan.value.seen, w.cap, key).Opened?;
            if l == Touch(key) then key in w.entries && Apply(w, l).entries[key].lastActivity == w.now
            else if admitted then Apply(w, l).entries[key].lastActivity == w.now
            else key in w.entries && Apply(w, l).entries[key] == w.entries[key]
  {
    hide OpenVerdict, Looked, MayOpen;
    match l
    case _ =>
  }

  /**
   In every run, whom an Open evicts: an entry other than the opened key's, seen Idle while the
   pool was full, and touched no later than any other entry that was seen Idle.
   */
  lemma VictimIsOldestIdle(ws: seq<World>, ls: seq<Step>, cap: int, i: nat, k: string, j: string) returns (m: nat, p: nat)
    requires IsRun(ws, ls, cap) && TakenOut(ws, ls, i, k) && ls[i].Open?
    requires j in ws[i].entries
    ensures |ws[i].entries| == cap && ws[i].scan.Some? && ws[i].scan.value.purpose.key != k
    ensures SeenAt(ws, ls, m, i, k) && ws[m].status(ws[i].entries[k].session).Idle?
    ensures j != ws[i].scan.value.purpose.key ==> SeenAt(ws, ls, p, i, j)
    ensures j != ws[i].scan.value.purpose.key && ws[p].status(ws[i].entries[j].session).Idle? ==>
              && LastTouch(ws, ls, i, k).Some? && LastTouch(ws, ls, i, j).Some?
              && LastTouch(ws, ls, i, k).value <= LastTouch(ws, ls, i, j).value
  {
    hide Inv, SeenAt, Oldest, LastTouch, Looked, OpenVerdict;
    m := TakenOutWasSeenIdle(ws, ls, cap, i, k);
    InvHolds(ws, ls, cap, i);
    WithinCap(ws[i]);
    assert ws[i + 1] == Apply(ws[i], ls[i]) && Enabled(ws[i], ls[i]);
    TakesOutOnlyIdle(ws[i], ls[i], k);
    VictimIsOldest(ws[i], k, j);
    ActivityIsLastTouch(ws, ls, cap, i, k);
    ActivityIsLastTouch(ws, ls, cap, i, j);
    p := SeenIsTrue(ws, ls, cap, i, j);
    SeenAtIs(ws, ls, p, i, j);
  }

  lemma SeenAtIs(ws: seq<World>, ls: seq<Step>, m: nat, n: nat, k: string)
    requires SeenAt(ws, ls, m, n, k)
    ensures m < |ws| && n < |ws| && ws[n].scan.Some? && k in ws[n].scan.value.seen && k in ws[n].entries
    ensures ws[n].scan.value.seen[k] == ws[m].status(ws[n].entries[k].session)
  {}

  lemma VictimIsOldest(w: World, k: string, j: string)
    requires Enabled(w, Open(Some(k))) && j in w.entries
    ensures k in w.entries && j in w.scan.value.seen
    ensures j != w.scan.value.purpose.key && w.scan.value.seen[j].Idle? ==>
              w.entries[k].lastActivity <= w.entries[j].lastActivity
  {
    var key, seen := w.scan.value.purpose.key, w.scan.value.seen;
    if j != key && j in seen && seen[j].Idle? {
      assert Evictable(w.entries, seen, key, j);
    }
  }

  // ----- whom a sweep takes out -------------------------------------------------

  /** The sweep at step n took its lock at step i. */
  ghost predicate SweepsSince(ws: seq<World>, ls: seq<Step>, i: int, n: int) {
    && 0 <= i < n < |ws| && |ws| == |ls| + 1 && ls[i].LockSweep? && ls[i].asked <= ws[i].now
    && ws[n].scan.Some? && ws[n].scan.value.purpose == ForSweep(ls[i].asked - ls[i].timeout)
    && forall m :: i < m < n ==> !ls[m].LockSweep? && !ls[m].Sweep?
  }

  lemma {:induction false} SweepBegan(ws: seq<World>, ls: seq<Step>, cap: int, n: nat) returns (i: nat)
    requires IsRun(ws, ls, cap) && n <= |ls| && ws[n].scan.Some? && ws[n].scan.value.purpose.ForSweep?
    ensures SweepsSince(ws, ls, i, n)
  {
    var w, l := ws[n - 1], ls[n - 1];
    assert ws[n] == Apply(w, l) && Enabled(w, l);
    PurposeFrame(w, l);
    if l.LockSweep? {
      i := n - 1;
    } else {
      i := SweepBegan(ws, ls, cap, n - 1);
    }
  }

  lemma PurposeFrame(w: World, l: Step)
    requires Enabled(w, l) && Apply(w, l).scan.Some?
    ensures !l.LockSweep? && Apply(w, l).scan.value.purpose.ForSweep? ==>
              w.scan.Some? && Apply(w, l).scan.value.purpose == w.scan.value.purpose && !l.Sweep?
    ensures l.LockSweep? ==> Apply(w, l).scan.value.purpose == ForSweep(l.asked - l.timeout)
  {
    match l
    case _ =>
  }

  /**
   In every run, a sweep takes out exactly the sessions that were Idle when it came to them and had
   last been opened or touched longer ago than the timeout when it asked for the time.
   */
  lemma SweptExactlyWhen(ws: seq<World>, ls: seq<Step>, cap: int, n: nat, k: string) returns (i: nat)
    requires IsRun(ws, ls, cap) && n < |ls| && ls[n].Sweep? && k in ws[n].entries
    ensures SweepsSince(ws, ls, i, n) && LastTouch(ws, ls, n, k).Some?
    ensures TakenOut(ws, ls, n, k) <==>
              WasIdle(ws, ls, n, k) && ls[i].asked - LastTouch(ws, ls, n, k).value > ls[i].timeout
    ensures !TakenOut(ws, ls, n, k) ==> k in ws[n + 1].entries && ws[n + 1].entries[k] == ws[n].entries[k]
  {
    var w := ws[n];
    assert ws[n + 1] == Apply(w, ls[n]) && Enabled(w, ls[n]);
    i := SweepBegan(ws, ls, cap, n);
    ActivityIsLastTouch(ws, ls, cap, n, k);
    InvHolds(ws, ls, cap, n);
    var m := SeenIsTrue(ws, ls, cap, n, k);
    WasIdleIs(ws, ls, m, n, k);
    hide WasIdle, SeenAt, LastTouch, IsRun;
    SweepTakesExactly(w, k);
  }

  lemma WasIdleIs(ws: seq<World>, ls: seq<Step>, m: nat, n: nat, k: string)
    requires SeenAt(ws, ls, m, n, k)
    ensures WasIdle(ws, ls, n, k) <==> ws[n].scan.value.seen[k].Idle?
  {}

  lemma SweepTakesExactly(w: World, k: string)
    requires Inv(w) && Enabled(w, Sweep) && k in w.entries
    ensures var v, s := Apply(w, Sweep), w.entries[k].session;
            && s !in w.closing
            && (s in v.closing <==> w.scan.value.seen[k].Idle? && w.entries[k].lastActivity < w.scan.value.purpose.cutoff)
            && (s !in v.closing ==> k in v.entries && v.entries[k] == w.entries[k])
  {
    hide Once, Everyone;
    var s := w.entries[k].session;
    assert s in Residents(w.entries);
    var gone := Expired(w.entries, w.scan.value.seen, w.scan.value.purpose.cutoff);
    if s in SessionsOf(w.entries, gone) {
      var j :| j in gone && j in w.entries && w.entries[j].session == s;
      assert j == k;
    }
  }

  // ----- when an Open is refused for room --------------------------------------

  /** The entry's session was Idle when the scan came to it. */
  ghost predicate WasIdle(ws: seq<World>, ls: seq<Step>, n: int, k: string) {
    exists m :: SeenAt(ws, ls, m, n, k) && ws[m].status(ws[n].entries[k].session).Idle?
  }

  /**
   In every run, an Open whose key is not live is turned away exactly when the pool is full and
   no other session was Idle when it was looked at: those that are closing or have ended fill
   the pool just as well as those that are running.
   */
  lemma RefusedExactlyWhenNoneIdle(ws: seq<World>, ls: seq<Step>, cap: int, n: nat)
    requires IsRun(ws, ls, cap) && n < |ls| && ls[n].Open?
    ensures ws[n].scan.Some? && ws[n].scan.value.purpose.ForOpen?
    ensures var w, key := ws[n], ws[n].scan.value.purpose.key;
            !Live(w.entries, w.scan.value.seen, key) ==>
              (w.scan.value.purpose.session !in ws[n + 1].registered <==>
                 cap > 0 && |w.entries| == cap && forall k :: k in w.entries && k != key ==> !WasIdle(ws, ls, n, k))
  {
    var w := ws[n];
    assert ws[n + 1] == Apply(w, ls[n]) && Enabled(w, ls[n]);
    InvHolds(ws, ls, cap, n);
    var key, seen := w.scan.value.purpose.key, w.scan.value.seen;
    forall k | k in w.entries && k in seen ensures WasIdle(ws, ls, n, k) <==> seen[k].Idle? {
      var m := SeenIsTrue(ws, ls, cap, n, k);
    }
    hide WasIdle, Residents, TakeOut, Forget, Once, Apart, Everyone, Injective;
    AdmittedExactly(w, key, w.scan.value.purpose.session, seen, ls[n].victim);
    if !Live(w.entries, seen, key) && AtCapacity(w.entries, w.cap) {
      forall k | k in w.entries && k != key ensures Evictable(w.entries, seen, key, k) <==> WasIdle(ws, ls, n, k) {}
    }
  }

  lemma AdmittedExactly(w: World, key: string, session: nat, seen: Seen, victim: Option<string>)
    requires session !in w.registered
    ensures session in ApplyOpen(w, key, session, seen, victim).registered <==> OpenVerdict(w.entries, seen, w.cap, key).Opened?
  {}

  /** Reopening a key whose session ended, in a full pool, still evicts another: the pool shrinks. */
  lemma ReopeningShrinksAFullPool(w: World, victim: Option<string>)
    requires Inv(w) && Enabled(w, Open(victim))
    requires var key, seen := w.scan.value.purpose.key, w.scan.value.seen;
             && key in w.entries && !Live(w.entries, seen, key) && AtCapacity(w.entries, w.cap)
             && OpenVerdict(w.entries, seen, w.cap, key).Opened?
    ensures |Apply(w, Open(victim)).entries| == w.cap - 1
  {
    hide Inv, Residents, Oldest, Admit;
    var key, session := w.scan.value.purpose.key, w.scan.value.purpose.session;
    WithinCap(w);
    assert victim.value in w.entries && victim.value != key by {
      OldestIsThere(w.entries, w.scan.value.seen, key, victim.value);
    }
    TakingOneMakesRoom(w.entries, victim.value);
    var roomy := TakeOut(w, {victim.value});
    assert Forget(roomy, key).entries[key := Entry(session, w.now)] == roomy.entries[key := Entry(session, w.now)];
    assert roomy.entries[key := Entry(session, w.now)].Keys == roomy.entries.Keys;
    assert |roomy.entries.Keys| == |roomy.entries|;
    AdmitIs(Forget(roomy, key), key, session);
  }

  lemma AdmitIs(w: World, key: string, session: nat)
    ensures Admit(w, key, session).entries == w.entries[key := Entry(session, w.now)]
  {}

  // ----- whether a session is idle when it is closed ---------------------------

  /** What the last step of the session's own from m to n left it at. */
  function LastTurn(ls: seq<Step>, m: nat, n: nat, s: nat): Option<SM.Life>
    requires n <= |ls|
    decreases n
  {
    if n <= m then None
    else if ls[n - 1].Turns? && ls[n - 1].session == s then Some(ls[n - 1].status)
    else LastTurn(ls, m, n - 1, s)
  }

  lemma {:induction false} StatusIsLastTurn(ws: seq<World>, ls: seq<Step>, cap: int, m: nat, n: nat, s: nat)
    requires IsRun(ws, ls, cap) && m <= n <= |ls|
    ensures ws[n].status(s) == if LastTurn(ls, m, n, s).Some? then LastTurn(ls, m, n, s).value else ws[m].status(s)
  {
    if m < n {
      StatusIsLastTurn(ws, ls, cap, m, n - 1, s);
      assert ws[n] == Apply(ws[n - 1], ls[n - 1]) && Enabled(ws[n - 1], ls[n - 1]);
      hide ApplyOpen, TakeOut, Forget, Expired, MayOpen;
      StatusFrame(ws[n - 1], ls[n - 1]);
    }
  }

  lemma StatusFrame(w: World, l: Step)
    requires Enabled(w, l)
    ensures !l.Turns? ==> Apply(w, l).status == w.status
    ensures l.Turns? ==> forall s :: Apply(w, l).status(s) == if s == l.session then l.status else w.status(s)
  {
    match l
    case _ =>
  }

  /**
   In every run, a session that an Open or a sweep took out is Idle when it comes to be closed
   exactly when it has done nothing since it was looked at, or the last thing it did left it Idle.
   */
  lemma ClosedIdleExactlyWhen(ws: seq<World>, ls: seq<Step>, cap: int, i: nat, n: nat, k: string) returns (m: nat)
    requires IsRun(ws, ls, cap) && TakenOut(ws, ls, i, k) && (ls[i].Open? || ls[i].Sweep?)
    requires i < n < |ls| && ls[n] == CloseNext(ws[i].entries[k].session)
    ensures SeenAt(ws, ls, m, i, k) && m < |ls|
    ensures var s := ws[i].entries[k].session;
            ws[n].status(s).Idle? <==> (LastTurn(ls, m, n, s).Some? ==> LastTurn(ls, m, n, s).value.Idle?)
  {
    hide SeenAt, LastTurn;
    m := TakenOutWasSeenIdle(ws, ls, cap, i, k);
    SeenEarlier(ws, ls, m, i, k);
    StatusIsLastTurn(ws, ls, cap, m, n, ws[i].entries[k].session);
  }

  lemma SeenEarlier(ws: seq<World>, ls: seq<Step>, m: nat, n: nat, k: string)
    requires SeenAt(ws, ls, m, n, k)
    ensures m < n < |ws| && |ws| == |ls| + 1
  {}

  /** An instance: evicted while Idle, closed in the middle of a turn. */
  lemma VictimMayBeRunning(status: Statuses, k: string, key: string) returns (ws: seq<World>, ls: seq<Step>)
    requires k != key && status(0).Idle?
    ensures IsRun(ws, ls, 1) && |ls| == 7 && |ws| == 8
    ensures TakenOut(ws, ls, 4, k) && ws[4].entries[k].session == 0
    ensures ls[6] == CloseNext(0) && ws[6].status(0).Running?
  {
    hide IsRun, Apply, Enabled, Start;
    ws, ls := Begin(1, status);
    ws, ls := AdmitsFirst(ws, ls, status, k);
    ws, ls := EvictsOther(ws, ls, k, key);
    StartsATurn(ws[5], 0);
    ws, ls := Go(ws, ls, Turns(0, SM.Running), 1);
    ws, ls := Go(ws, ls, CloseNext(0), 1);
  }

  /** An instance: the one session there is has ended, and another key is refused for room. */
  lemma EndedSessionsFillThePool(status: Statuses, k: string, key: string) returns (ws: seq<World>, ls: seq<Step>)
    requires k != key && status(0).Terminated?
    ensures IsRun(ws, ls, 1) && |ls| == 5 && |ws| == 6 && ls[4].Open?
    ensures ws[4].scan == Some(Scan(ForOpen(key, 1), map[k := SM.Terminated]))
    ensures OpenVerdict(ws[4].entries, map[k := SM.Terminated], 1, key).Full? && 1 !in ws[5].registered
  {
    hide IsRun;
    ws, ls := Begin(1, status);
    ws, ls := AdmitsFirst(ws, ls, status, k);
    ws, ls := Go(ws, ls, LockOpen(key, 1), 1);
    ws, ls := Go(ws, ls, Look(k), 1);
    assert ws[4].entries == map[k := Entry(0, 0)] && ws[4].scan.value.seen == map[k := SM.Terminated];
    ws, ls := Go(ws, ls, Open(None), 1);
  }

  /** An instance: left Idle for longer than the timeout, a session is swept and closed. */
  lemma IdleSessionIsSwept(status: Statuses, k: string, timeout: nat) returns (ws: seq<World>, ls: seq<Step>)
    requires status(0).Idle?
    ensures IsRun(ws, ls, 1) && |ls| == 7 && |ws| == 8 && ls[5].Sweep? && ls[3] == LockSweep(timeout, timeout + 1)
    ensures ws[2].entries == map[k := Entry(0, 0)] && ws[3].now == timeout + 1
    ensures ws[6].entries == map[] && ws[7].closed == [0]
  {
    hide IsRun;
    ws, ls := Begin(1, status);
    ws, ls := AdmitsFirst(ws, ls, status, k);
    ws, ls := Go(ws, ls, Tick(timeout + 1), 1);
    ws, ls := Go(ws, ls, LockSweep(timeout, timeout + 1), 1);
    ws, ls := Go(ws, ls, Look(k), 1);
    SweepsTheOnlyOne(ws[5], k);
    ws, ls := Go(ws, ls, Sweep, 1);
    ws, ls := Go(ws, ls, CloseNext(0), 1);
  }

  lemma SweepsTheOnlyOne(w: World, k: string)
    requires w.entries == map[k := Entry(0, 0)] && w.closing == {} && w.scan.Some? && w.scan.value.purpose.ForSweep?
    requires w.scan.value.seen == map[k := SM.Idle] && w.scan.value.purpose.cutoff > 0
    ensures Enabled(w, Sweep) && Apply(w, Sweep).entries == map[] && Apply(w, Sweep).closing == {0}
  {
    var gone := Expired(w.entries, w.scan.value.seen, w.scan.value.purpose.cutoff);
    assert k in gone;
    assert w.entries[k].session in SessionsOf(w.entries, gone);
  }

  lemma Begin(cap: int, status: Statuses) returns (ws: seq<World>, ls: seq<Step>)
    ensures ws == [Start(cap, status)] && ls == [] && IsRun(ws, ls, cap)
  {
    ws, ls := [Start(cap, status)], [];
    assert ws[0] == Start(cap, status);
  }

  lemma AdmitsFirst(ws: seq<World>, ls: seq<Step>, status: Statuses, k: string) returns (vs: seq<World>, ms: seq<Step>)
    requires IsRun(ws, ls, 1) && ws == [Start(1, status)] && ls == []
    ensures IsRun(vs, ms, 1) && |ms| == 2 && |vs| == 3
    ensures vs[2] == Start(1, status).(entries := map[k := Entry(0, 0)], registered := {0})
  {
    hide IsRun;
    vs, ms := Go(ws, ls, LockOpen(k, 0), 1);
    vs, ms := Go(vs, ms, Open(None), 1);
  }

  lemma EvictsOther(ws: seq<World>, ls: seq<Step>, k: string, key: string) returns (vs: seq<World>, ms: seq<Step>)
    requires IsRun(ws, ls, 1) && |ls| == 2 && |ws| == 3 && k != key
    requires exists status: Statuses :: status(0).Idle? && ws[2] == Start(1, status).(entries := map[k := Entry(0, 0)], registered := {0})
    ensures IsRun(vs, ms, 1) && |ms| == 5 && |vs| == 6 && TakenOut(vs, ms, 4, k) && vs[4].entries[k].session == 0
    ensures 0 in vs[5].closing && vs[5].status(0).Idle?
  {
    hide IsRun;
    vs, ms := Go(ws, ls, LockOpen(key, 1), 1);
    vs, ms := Go(vs, ms, Look(k), 1);
    assert Evictable(vs[4].entries, vs[4].scan.value.seen, key, k);
    EvictsTheOnlyOne(vs[4], k);
    vs, ms := Go(vs, ms, Open(Some(k)), 1);
  }

  lemma EvictsTheOnlyOne(w: World, k: string)
    requires w.entries == map[k := Entry(0, 0)] && w.cap == 1 && w.scan.Some? && w.scan.value.purpose.ForOpen?
    requires w.scan.value.purpose.key != k && w.scan.value.seen == map[k := SM.Idle]
    ensures Enabled(w, Open(Some(k)))
    ensures 0 in Apply(w, Open(Some(k))).closing && Apply(w, Open(Some(k))).status == w.status
  {
    assert Evictable(w.entries, w.scan.value.seen, w.scan.value.purpose.key, k);
    assert k in {k} && w.entries[k].session == 0;
  }

  lemma StartsATurn(w: World, s: nat)
    requires s in w.closing && w.status(s).Idle?
    ensures Enabled(w, Turns(s, SM.Running))
    ensures var v := Apply(w, Turns(s, SM.Running)); v.status(s).Running? && Enabled(v, CloseNext(s))
  {}

  lemma Go(ws: seq<World>, ls: seq<Step>, l: Step, cap: int) returns (vs: seq<World>, ms: seq<Step>)
    requires IsRun(ws, ls, cap) && |ws| == |ls| + 1 && Enabled(ws[|ls|], l)
    ensures IsRun(vs, ms, cap) && ms == ls + [l] && |vs| == |ms| + 1
    ensures vs[|ms|] == Apply(ws[|ls|], l) && forall i :: 0 <= i < |ws| ==> vs[i] == ws[i]
  {
    hide Apply, Enabled;
    vs, ms := ws + [Apply(ws[|ls|], l)], ls + [l];
    assert forall i {:trigger ms[i]} :: 0 <= i < |ls| ==> ms[i] == ls[i] && vs[i] == ws[i] && vs[i + 1] == ws[i + 1];
  }
}
