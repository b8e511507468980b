/**
 A pool of sessions under every interleaving of its callers, its sweep and the sessions' own
 lives.

 Each operation's critical section is one step, but for those that scan the entries: they take
 the lock, read one session's status after another while the sessions go on, and then act on
 what they have seen. The Close calls an operation makes after unlocking are steps of their own.

 The invariant places every session as often as it was admitted: each admission is resident
 under one key, on its way to be closed, closed, or dropped, and only one of these; no two entries
 hold the same admission and none is closed twice; and a bounded pool holds no more than its bound.
 */
module PoolMachine {
  import opened Prelude
  import SM = SessionMachine

  /**
   What an entry holds is an admission: the session an Open was given, counted anew each time. A
   session opened twice, after its removal or under two keys, is two admissions whose statuses
   move together, and each admission is closed or dropped for itself.
   */
  datatype Entry = Entry(session: nat, lastActivity: int)

  type Entries = map<string, Entry>

  type Statuses = nat -> SM.Life

  /** What a scan's Status calls returned, by key. */
  type Seen = map<string, SM.Life>

  datatype OpenReply = Opened | KeyAlreadyOpen | Full

  /** An entry the pool may evict to make room for `key`. */
  predicate Evictable(entries: Entries, seen: Seen, key: string, k: string) {
    k in entries && k != key && k in seen && seen[k].Idle?
  }

  /** The least recently touched of them. */
  ghost predicate Oldest(entries: Entries, seen: Seen, key: string, k: string) {
    && Evictable(entries, seen, key, k)
    && forall j :: Evictable(entries, seen, key, j) ==> entries[k].lastActivity <= entries[j].lastActivity
  }

  predicate Live(entries: Entries, seen: Seen, key: string) {
    key in entries && !(key in seen && seen[key].Terminated?)
  }

  predicate AtCapacity(entries: Entries, cap: int) {
    cap > 0 && |entries| >= cap
  }

  function OpenVerdict(entries: Entries, seen: Seen, cap: int, key: string): OpenReply {
    if Live(entries, seen, key) then KeyAlreadyOpen
    else if AtCapacity(entries, cap) && !(exists k :: k in entries && Evictable(entries, seen, key, k)) then Full
    else Opened
  }

  /** The statuses an Open has to read before it can act. */
  predicate Looked(entries: Entries, seen: Seen, cap: int, key: string) {
    && (key in entries ==> key in seen)
    && (!Live(entries, seen, key) && AtCapacity(entries, cap) ==> forall k :: k in entries ==> k in seen)
  }

  // ----- the machine --------------------------------------------------------

  datatype Purpose = ForOpen(key: string, session: nat) | ForSweep(cutoff: int)

  /** The lock is held by a scan, which has seen this much. */
  datatype Scan = Scan(purpose: Purpose, seen: Seen)

  /**
   `closing` are the sessions taken out to be closed, `closed` those Close was called on, in
   order; `dropped` were forgotten without a Close; `registered` is every admission so far.
   */
  datatype World = World(
    cap: int, entries: Entries, now: int, status: Statuses, scan: Option<Scan>,
    registered: set<nat>, closing: set<nat>, closed: seq<nat>, dropped: set<nat>)

  /** A sweep asks for the time before it waits for the lock. */
  datatype Step =
    | LockOpen(key: string, session: nat)
    | LockSweep(timeout: int, asked: int)
    | Look(key: string)
    | Open(victim: Option<string>)
    | Sweep
    | Acquire(key: string)
    | Touch(key: string)
    | CloseAndRemove(key: string)
    | Remove(key: string)
    | CloseWhere(keys: set<string>)
    | CloseNext(session: nat)
    | Tick(now: int)
    | Turns(session: nat, status: SM.Life)

  function Start(cap: int, status: Statuses): World {
    World(cap, map[], 0, status, None, {}, {}, [], {})
  }

  function SessionsOf(entries: Entries, keys: set<string>): set<nat> {
    set k | k in keys && k in entries :: entries[k].session
  }

  function Residents(entries: Entries): set<nat> {
    SessionsOf(entries, entries.Keys)
  }

  /** Seen Idle, and untouched since before the cutoff. */
  function Expired(entries: Entries, seen: Seen, cutoff: int): set<string> {
    set k | k in entries && k in seen && seen[k].Idle? && entries[k].lastActivity < cutoff
  }

  predicate Free(w: World) {
    w.scan.None?
  }

  ghost predicate Enabled(w: World, l: Step) {
    match l
    case LockOpen(_, session) => Free(w) && session !in w.registered
    case LockSweep(_, asked) => Free(w) && asked <= w.now
    case Look(key) => w.scan.Some? && key in w.entries && key !in w.scan.value.seen
    case Open(victim) =>
      && w.scan.Some? && w.scan.value.purpose.ForOpen?
      && MayOpen(w.entries, w.scan.value.seen, w.cap, w.scan.value.purpose.key, victim)
    case Sweep =>
      w.scan.Some? && w.scan.value.purpose.ForSweep? && forall k :: k in w.entries ==> k in w.scan.value.seen
    case CloseNext(session) => session in w.closing
    case Tick(now) => now >= w.now
    case Turns(_, _) => true
    case _ => Free(w)
  }

  ghost predicate MayOpen(entries: Entries, seen: Seen, cap: int, key: string, victim: Option<string>) {
    && Looked(entries, seen, cap, key)
    && if OpenVerdict(entries, seen, cap, key).Opened? && AtCapacity(entries, cap)
       then victim.Some? && Oldest(entries, seen, key, victim.value)
       else victim.None?
  }

  /** Takes the keys' sessions out to be closed. */
  function TakeOut(w: World, keys: set<string>): World {
    w.(entries := w.entries - keys, closing := w.closing + SessionsOf(w.entries, keys))
  }

  /** Forgets the key's session. */
  function Forget(w: World, key: string): World {
    w.(entries := w.entries - {key}, dropped := w.dropped + SessionsOf(w.entries, {key}))
  }

  function Admit(w: World, key: string, session: nat): World {
    w.(entries := w.entries[key := Entry(session, w.now)], registered := w.registered + {session})
  }

  function ApplyOpen(w: World, key: string, session: nat, seen: Seen, victim: Option<string>): World {
    if !OpenVerdict(w.entries, seen, w.cap, key).Opened? then w
    else
      var roomy := if AtCapacity(w.entries, w.cap) && victim.Some? then TakeOut(w, {victim.value}) else w;
      Admit(Forget(roomy, key), key, session)
  }

  function Apply(w: World, l: Step): World
    requires Enabled(w, l)
  {
    match l
    case LockOpen(key, session) => w.(scan := Some(Scan(ForOpen(key, session), map[])))
    case LockSweep(timeout, asked) => w.(scan := Some(Scan(ForSweep(asked - timeout), map[])))
    case Look(key) =>
      w.(scan := Some(w.scan.value.(seen := w.scan.value.seen[key := w.status(w.entries[key].session)])))
    case Open(victim) =>
      ApplyOpen(w, w.scan.value.purpose.key, w.scan.value.purpose.session, w.scan.value.seen, victim).(scan := None)
    case Sweep => TakeOut(w, Expired(w.entries, w.scan.value.seen, w.scan.value.purpose.cutoff)).(scan := None)
    case Acquire(key) =>
      if key in w.entries && w.status(w.entries[key].session).Terminated? then Forget(w, key) else w
    case Touch(key) => if key in w.entries then w.(entries := w.entries[key := w.entries[key].(lastActivity := w.now)]) else w
    case CloseAndRemove(key) => TakeOut(w, {key})
    case Remove(key) => Forget(w, key)
    case CloseWhere(keys) => TakeOut(w, keys)
    case CloseNext(session) => w.(closing := w.closing - {session}, closed := w.closed + [session])
    case Tick(now) => w.(now := now)
    case Turns(session, status) => w.(status := (s: nat) => if s == session then status else w.status(s))
  }

  ghost predicate IsRun(ws: seq<World>, ls: seq<Step>, cap: int) {
    && |ws| == |ls| + 1
    && (exists status :: ws[0] == Start(cap, status))
    && forall i {:trigger ls[i]} :: 0 <= i < |ls| ==> Enabled(ws[i], ls[i]) && ws[i + 1] == Apply(ws[i], ls[i])
  }

  // ----- what every step keeps ----------------------------------------------

  ghost predicate Injective(entries: Entries) {
    forall j, k :: j in entries && k in entries && j != k ==> entries[j].session != entries[k].session
  }

  ghost predicate Once(closed: seq<nat>) {
    forall i, j :: 0 <= i < j < |closed| ==> closed[i] != closed[j]
  }

  /** The session is in exactly one place. */
  predicate InOnePlace(w: World, s: nat) {
    var places := [s in Residents(w.entries), s in w.closing, s in w.closed, s in w.dropped];
    exists i :: 0 <= i < 4 && places[i] && forall j :: 0 <= j < 4 && j != i ==> !places[j]
  }

  ghost predicate Apart(w: World) {
    && Residents(w.entries) !! w.closing && Residents(w.entries) !! w.dropped && w.closing !! w.dropped
    && (forall s :: s in w.closed ==> s !in Residents(w.entries) && s !in w.closing && s !in w.dropped)
  }

  ghost predicate Everyone(w: World) {
    forall s :: s in w.registered <==> s in Residents(w.entries) || s in w.closing || s in w.closed || s in w.dropped
  }

  ghost predicate Inv(w: World) {
    && Injective(w.entries) && Once(w.closed) && Apart(w) && Everyone(w)
    && (w.cap > 0 ==> |w.entries| <= w.cap)
    && (forall k :: k in w.entries ==> w.entries[k].lastActivity <= w.now)
    && (w.scan.Some? && w.scan.value.purpose.ForOpen? ==> w.scan.value.purpose.session !in w.registered)
  }

  /** Taking entries out splits the residents. */
  lemma ResidentsSplit(entries: Entries, keys: set<string>)
    requires Injective(entries)
    ensures Residents(entries - keys) == Residents(entries) - SessionsOf(entries, keys)
    ensures SessionsOf(entries, keys) <= Residents(entries)
    ensures |entries - keys| <= |entries|
    ensures Injective(entries - keys)
  {
    assert (entries - keys).Keys <= entries.Keys;
    Fewer((entries - keys).Keys, entries.Keys);
    assert |(entries - keys).Keys| == |entries - keys|;
    forall s | s in Residents(entries - keys) ensures s in Residents(entries) && s !in SessionsOf(entries, keys) {
      var k :| k in entries - keys && (entries - keys)[k].session == s;
      assert entries[k].session == s;
    }
    forall s | s in Residents(entries) && s !in SessionsOf(entries, keys) ensures s in Residents(entries - keys) {
      var k :| k in entries && entries[k].session == s;
      assert k in entries - keys && (entries - keys)[k].session == s;
    }
  }

  lemma {:induction false} Fewer<T>(a: set<T>, b: set<T>)
    requires a <= b
    ensures |a| <= |b|
  {
    assert b == a + (b - a);
  }

  lemma TakeOutKeeps(w: World, keys: set<string>)
    requires Inv(w)
    ensures Inv(TakeOut(w, keys)) && Inv(TakeOut(w, keys).(scan := None))
  {
    hide Residents, SessionsOf, Injective, Once, Apart, Everyone;
    ResidentsSplit(w.entries, keys);
    TakeOutPlaces(w, keys);
    NotFewer(w.entries, keys);
  }

  lemma TakeOutPlaces(w: World, keys: set<string>)
    requires Injective(w.entries) && Apart(w) && Everyone(w)
    ensures var v := TakeOut(w, keys);
            && Apart(v) && Everyone(v) && Apart(v.(scan := None)) && Everyone(v.(scan := None))
  {
    hide SessionsOf, Injective;
    ResidentsSplit(w.entries, keys);
    hide Residents;
  }

  lemma ForgetKeeps(w: World, key: string)
    requires Inv(w)
    ensures Inv(Forget(w, key))
  {
    hide Residents, SessionsOf;
    ResidentsSplit(w.entries, {key});
  }

  lemma ResidentsGrow(entries: Entries, key: string, e: Entry)
    requires key !in entries
    ensures Residents(entries[key := e]) == Residents(entries) + {e.session}
    ensures |entries[key := e]| == |entries| + 1
  {
    var more := entries[key := e];
    assert more.Keys == entries.Keys + {key};
    assert |more.Keys| == |entries.Keys| + 1;
    forall s | s in Residents(entries) + {e.session} ensures s in Residents(more) {
      if s in Residents(entries) {
        var k :| k in entries && entries[k].session == s;
        assert k in more && more[k].session == s;
      } else {
        assert key in more && more[key].session == s;
      }
    }
  }

  lemma AdmitKeeps(w: World, key: string, session: nat)
    requires Inv(w) && key !in w.entries && session !in w.registered
    requires w.cap > 0 ==> |w.entries| < w.cap
    ensures Inv(Admit(w, key, session).(scan := None))
  {
    ResidentsGrow(w.entries, key, Entry(session, w.now));
    forall k | k in w.entries ensures w.entries[k].session != session {
      assert w.entries[k].session in Residents(w.entries);
    }
    hide Residents, SessionsOf;
  }

  lemma TakingOneMakesRoom(entries: Entries, k: string)
    requires k in entries
    ensures |entries - {k}| == |entries| - 1
  {
    assert (entries - {k}).Keys == entries.Keys - {k};
    assert |(entries - {k}).Keys| == |entries.Keys| - 1;
  }

  lemma NotFewer(entries: Entries, keys: set<string>)
    ensures |entries - keys| <= |entries|
  {
    assert (entries - keys).Keys <= entries.Keys;
    Fewer((entries - keys).Keys, entries.Keys);
    assert |(entries - keys).Keys| == |entries - keys|;
  }

  lemma OpenKeeps(w: World, key: string, session: nat, seen: Seen, victim: Option<string>)
    requires Inv(w) && session !in w.registered && MayOpen(w.entries, seen, w.cap, key, victim)
    ensures Inv(ApplyOpen(w, key, session, seen, victim).(scan := None))
  {
    hide Inv, Residents;
    if OpenVerdict(w.entries, seen, w.cap, key).Opened? {
      var full := AtCapacity(w.entries, w.cap);
      var roomy := if full && victim.Some? then TakeOut(w, {victim.value}) else w;
      if full {
        TakeOutKeeps(w, {victim.value});
        TakingOneMakesRoom(w.entries, victim.value);
      }
      WithinCap(w);
      ForgetKeeps(roomy, key);
      NotFewer(roomy.entries, {key});
      AdmitKeeps(Forget(roomy, key), key, session);
    } else {
      Unlocked(w);
    }
  }

  lemma Unlocked(w: World)
    requires Inv(w)
    ensures Inv(w.(scan := None))
  {}

  lemma WithinCap(w: World)
    requires Inv(w)
    ensures w.cap > 0 ==> |w.entries| <= w.cap
  {}

  lemma TouchKeeps(w: World, key: string)
    requires Inv(w) && Free(w)
    ensures Inv(Apply(w, Touch(key)))
  {
    if key in w.entries {
      var v := Apply(w, Touch(key));
      assert v.entries.Keys == w.entries.Keys;
      assert |v.entries.Keys| == |w.entries.Keys|;
      forall k | k in w.entries ensures v.entries[k].session == w.entries[k].session {}
      assert Residents(v.entries) == Residents(w.entries);
    }
  }

  lemma StepKeepsInv(w: World, l: Step)
    requires Inv(w) && Enabled(w, l)
    ensures Inv(Apply(w, l))
  {
    hide TakeOut, Forget, Residents, Oldest, OpenVerdict, Looked, ApplyOpen, MayOpen;
    match l
    case Open(victim) =>
      OpenKeeps(w, w.scan.value.purpose.key, w.scan.value.purpose.session, w.scan.value.seen, victim);
    case Sweep => TakeOutKeeps(w, Expired(w.entries, w.scan.value.seen, w.scan.value.purpose.cutoff));
    case Acquire(key) => ForgetKeeps(w, key);
    case Touch(key) => TouchKeeps(w, key);
    case CloseAndRemove(key) => TakeOutKeeps(w, {key});
    case Remove(key) => ForgetKeeps(w, key);
    case CloseWhere(keys) => TakeOutKeeps(w, keys);
    case _ =>
  }

  lemma {:induction false} InvHolds(ws: seq<World>, ls: seq<Step>, cap: int, n: nat)
    requires IsRun(ws, ls, cap) && n <= |ls|
    ensures Inv(ws[n]) && ws[n].cap == cap
  {
    hide Inv, Enabled, Apply, Start;
    if n > 0 {
      InvHolds(ws, ls, cap, n - 1);
      assert ws[n] == Apply(ws[n - 1], ls[n - 1]) && Enabled(ws[n - 1], ls[n - 1]);
      StepKeepsInv(ws[n - 1], ls[n - 1]);
      CapStays(ws[n - 1], ls[n - 1]);
    } else {
      var status :| ws[0] == Start(cap, status);
      StartIsFine(cap, status);
    }
  }

  lemma StartIsFine(cap: int, status: Statuses)
    ensures Inv(Start(cap, status)) && Start(cap, status).cap == cap
  {}

  lemma CapStays(w: World, l: Step)
    requires Enabled(w, l)
    ensures Apply(w, l).cap == w.cap
  {
    match l
    case _ =>
  }

  lemma OldestIsThere(entries: Entries, seen: Seen, key: string, k: string)
    requires Oldest(entries, seen, key, k)
    ensures k in entries && k != key
  {}
}
