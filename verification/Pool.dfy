/**
 The session pool as the object it is.

 Each operation is proved to be its step of PoolMachine, followed by the closes it makes once it
 has unlocked. An operation that scans the entries is given what the Status calls it makes under
 the lock return; the machine has those answers in its scan, read one by one while the sessions
 go on. Closing is proved on its own: whatever batch an operation has taken out is closed, each
 session once, and nothing else changes meanwhile, since nobody else has hold of them.
 */
module Pools {
  import opened Prelude
  import opened PoolMachine
  import SM = SessionMachine

  /** The batch has been closed as well, each of it once. */
  ghost predicate Gained(before: seq<nat>, after: seq<nat>, batch: set<nat>) {
    && |after| == |before| + |batch| && after[..|before|] == before
    && (forall s :: s in after[|before|..] <==> s in batch)
  }

  /** Every session in `batch` has been closed, and nothing else has changed. */
  ghost predicate ClosedAll(before: World, after: World, batch: set<nat>) {
    && after == before.(closing := before.closing - batch, closed := after.closed)
    && Gained(before.closed, after.closed, batch)
  }

  /**
   The key has the new entry, every other entry is as it was, and the one that may be gone was seen
   Idle and is closed.
   */
  ghost predicate Replaces(before: Entries, closed0: seq<nat>, key: string, e: Entry, seen: Seen, after: Entries, closed: seq<nat>) {
    && key in after && after[key] == e
    && (forall k :: k in after && k != key ==> k in before && after[k] == before[k])
    && ((closed == closed0 && forall k :: k in before ==> k in after)
        || exists victim :: (
             && victim in before && victim != key && victim in seen && seen[victim].Idle?
             && closed == closed0 + [before[victim].session] && victim !in after
             && forall k :: k in before && k != victim ==> k in after))
  }

  class Pool {
    const maxSessions: int
    var entries: Entries
    var closed: seq<nat>
    /** The sweep has been told to stop, which it is only once. */
    var stopped: bool
    /** The sweep's goroutine has not returned. */
    var sweeping: bool
    ghost var model: World

    ghost predicate Valid()
      reads this
    {
      model.cap == maxSessions && model.entries == entries && model.closed == closed && Inv(model)
    }

    constructor (maxSessions: int, idleTimeout: int, ghost status: Statuses)
      ensures Valid() && model == Start(maxSessions, status) && !stopped
      ensures sweeping <==> idleTimeout > 0
    {
      this.maxSessions := maxSessions;
      entries, closed, stopped := map[], [], false;
      sweeping := idleTimeout > 0;
      model := Start(maxSessions, status);
    }

    /** The live session of the key; an ended one is forgotten on the way. */
    method Acquire(key: string, status: Statuses) returns (session: Option<nat>)
      requires Valid() && PoolMachine.Free(model) && status == model.status
      modifies this`entries, this`closed, this`model
      ensures Valid() && model == Apply(old(model), PoolMachine.Acquire(key))
      ensures session == if key in old(entries) && !status(old(entries)[key].session).Terminated?
                         then Some(old(entries)[key].session) else None
      ensures entries == if key in old(entries) && status(old(entries)[key].session).Terminated?
                         then old(entries) - {key} else old(entries)
      ensures closed == old(closed)
    {
      StepKeepsInv(model, PoolMachine.Acquire(key));
      model := Apply(model, PoolMachine.Acquire(key));
      if key !in entries {
        return None;
      }
      if status(entries[key].session).Terminated? {
        entries := entries - {key};
        return None;
      }
      return Some(entries[key].session);
    }

    method Touch(key: string, now: int)
      requires Valid() && PoolMachine.Free(model) && now == model.now
      modifies this`entries, this`closed, this`model
      ensures Valid() && model == Apply(old(model), PoolMachine.Touch(key))
      ensures key !in old(entries) ==> entries == old(entries)
      ensures key in old(entries) ==> entries == old(entries)[key := Entry(old(entries)[key].session, now)]
      ensures closed == old(closed)
    {
      StepKeepsInv(model, PoolMachine.Touch(key));
      model := Apply(model, PoolMachine.Touch(key));
      if key in entries {
        entries := entries[key := entries[key].(lastActivity := now)];
      }
    }

    method LruIdle(excludeKey: string, seen: Seen) returns (oldest: Option<string>)
      requires forall k :: k in entries ==> k in seen
      ensures oldest.Some? ==> Oldest(entries, seen, excludeKey, oldest.value)
      ensures oldest.None? ==> forall k :: k in entries ==> !Evictable(entries, seen, excludeKey, k)
    {
      oldest := None;
      var todo := entries.Keys;
      while todo != {}
        invariant todo <= entries.Keys
        invariant oldest.Some? ==> Evictable(entries, seen, excludeKey, oldest.value)
        invariant forall k :: k in entries.Keys - todo && Evictable(entries, seen, excludeKey, k) ==>
                    oldest.Some? && entries[oldest.value].lastActivity <= entries[k].lastActivity
        decreases |todo|
      {
        var k :| k in todo;
        todo := todo - {k};
        if k == excludeKey || !seen[k].Idle? {
          continue;
        }
        if oldest.None? || entries[k].lastActivity < entries[oldest.value].lastActivity {
          oldest := Some(k);
        }
      }
      assert entries.Keys - todo == entries.Keys;
    }

    /**
     Registers a session, making room first; the evicted one is closed after unlocking. `seen`
     is what the Status calls made under the lock have returned.
     */
    method Open(key: string, session: nat, seen: Seen, now: int) returns (reply: OpenReply)
      requires Valid() && model.scan == Some(Scan(ForOpen(key, session), seen)) && now == model.now
      requires Looked(entries, seen, maxSessions, key)
      modifies this`entries, this`closed, this`model
      ensures Valid() && reply == OpenVerdict(old(entries), seen, maxSessions, key)
      ensures exists victim ::
                && Enabled(old(model), PoolMachine.Open(victim))
                && ClosedAll(Apply(old(model), PoolMachine.Open(victim)), model,
                             if victim.Some? then SessionsOf(old(entries), {victim.value}) else {})
      ensures !reply.Opened? ==> entries == old(entries) && closed == old(closed)
      ensures reply.Opened? ==> Replaces(old(entries), old(closed), key, Entry(session, now), seen, entries, closed)
    {
      hide Inv, Oldest, ApplyOpen, Apply, Enabled, Looked, ClosedAll, Replaces;
      LookedAt(entries, seen, maxSessions, key);
      if key in entries && !seen[key].Terminated? {
        OpenRefused(model);
        model := Apply(model, PoolMachine.Open(None));
        return KeyAlreadyOpen;
      }
      var victim: Option<string> := None;
      if maxSessions > 0 && |entries| >= maxSessions {
        victim := LruIdle(key, seen);
        if victim.None? {
          OpenRefused(model);
          model := Apply(model, PoolMachine.Open(None));
          return Full;
        }
        OldestIsThere(entries, seen, key, victim.value);
        OldestWasIdle(entries, seen, key, victim.value);
      }
      OpenGranted(model, victim);
      ghost var after := Apply(model, PoolMachine.Open(victim));
      ghost var before := entries;
      if victim.Some? {
        var evicted := entries[victim.value].session;
        entries := entries - {victim.value};
        entries := entries[key := Entry(session, now)];
        model := after;
        assert SessionsOf(before, {victim.value}) == {evicted};
        CloseAll({evicted});
        ClosedOne(after, model, evicted);
        Evicting(before, old(closed), key, Entry(session, now), seen, victim.value);
      } else {
        entries := entries[key := Entry(session, now)];
        model := after;
        CloseAll({});
        ClosedNone(after, model);
        Adding(before, closed, key, Entry(session, now), seen);
      }
      return Opened;
    }

    method CloseAndRemove(key: string)
      requires Valid() && PoolMachine.Free(model)
      modifies this`entries, this`closed, this`model
      ensures Valid()
      ensures ClosedAll(Apply(old(model), PoolMachine.CloseAndRemove(key)), model, SessionsOf(old(entries), {key}))
      ensures entries == old(entries) - {key}
      ensures closed == old(closed) + if key in old(entries) then [old(entries)[key].session] else []
    {
      hide Inv, ClosedAll, TakeOut;
      TakeNothing(model, key);
      ghost var taken := TakeOut(model, {key});
      TakesOne(model, key);
      if key in entries {
        ghost var s := entries[key].session;
        TakeThenClose({key});
        ClosedOne(taken, model, s);
      } else {
        assert model == taken;
        CloseAll({});
        ClosedNone(taken, model);
      }
    }

    method Remove(key: string)
      requires Valid() && PoolMachine.Free(model)
      modifies this`entries, this`closed, this`model
      ensures Valid() && model == Apply(old(model), PoolMachine.Remove(key))
      ensures entries == old(entries) - {key} && closed == old(closed)
    {
      ForgetKeeps(model, key);
      model := Forget(model, key);
      entries := entries - {key};
    }

    /** Takes every entry seen Idle and untouched since before the cutoff, then closes them. */
    method SweepIdle(cutoff: int, seen: Seen)
      requires Valid() && sweeping && model.scan == Some(Scan(ForSweep(cutoff), seen))
      requires forall k :: k in entries ==> k in seen
      modifies this`entries, this`closed, this`model
      ensures Valid()
      ensures ClosedAll(Apply(old(model), Sweep), model, SessionsOf(old(entries), Expired(old(entries), seen, cutoff)))
      ensures forall k :: k in entries <==> k in old(entries) && !(seen[k].Idle? && old(entries)[k].lastActivity < cutoff)
      ensures forall k :: k in entries ==> entries[k] == old(entries)[k]
    {
      hide Inv, ClosedAll, TakeOut;
      ghost var after := Apply(model, Sweep);
      StepKeepsInv(model, Sweep);
      var victims := FindExpired(seen, cutoff);
      var batch := SessionsOf(entries, victims);
      SweepIs(model, victims);
      model := after;
      entries := entries - victims;
      CloseAll(batch);
    }

    method FindExpired(seen: Seen, cutoff: int) returns (victims: set<string>)
      requires forall k :: k in entries ==> k in seen
      ensures victims == Expired(entries, seen, cutoff)
    {
      victims := {};
      var todo := entries.Keys;
      while todo != {}
        invariant todo <= entries.Keys
        invariant victims == Expired(entries, seen, cutoff) - todo
        decreases |todo|
      {
        var k :| k in todo;
        if seen[k].Idle? && entries[k].lastActivity < cutoff {
          victims := victims + {k};
        }
        todo := todo - {k};
      }
      assert victims == Expired(entries, seen, cutoff);
    }

    /** Closes every session whose key matches, and says how many. */
    method CloseAllWhere(matches: string -> bool) returns (count: nat)
      requires Valid() && PoolMachine.Free(model)
      modifies this`entries, this`closed, this`model
      ensures Valid()
      ensures var keys := set k | k in old(entries) && matches(k);
              count == |keys| && ClosedAll(Apply(old(model), CloseWhere(keys)), model, SessionsOf(old(entries), keys))
      ensures forall k :: k in entries <==> k in old(entries) && !matches(k)
      ensures forall k :: k in entries ==> entries[k] == old(entries)[k]
    {
      hide Inv, ClosedAll, TakeOut;
      var keys := FindMatching(matches);
      count := |keys|;
      TakeThenClose(keys);
    }

    method FindMatching(matches: string -> bool) returns (keys: set<string>)
      ensures keys == set k | k in entries && matches(k)
    {
      keys := {};
      var todo := entries.Keys;
      while todo != {}
        invariant todo <= entries.Keys
        invariant keys == set k | k in entries && matches(k) && k !in todo
        decreases |todo|
      {
        var k :| k in todo;
        if matches(k) {
          keys := keys + {k};
        }
        todo := todo - {k};
      }
      assert keys == set k | k in entries && matches(k);
    }

    /**
     Stops the sweeping for good and waits until it has ended, then closes every session. The
     goroutine may find more ticks before it finds that it is to stop, and sweeps at each.
     */
    method Shutdown(ticks: seq<int>, status: Statuses)
      requires Valid() && PoolMachine.Free(model) && status == model.status
      modifies this
      ensures Valid() && entries == map[] && stopped && !sweeping
      ensures ClosedAll(Apply(old(model), CloseWhere(old(entries).Keys)), model, Residents(old(entries)))
    {
      hide Inv, ClosedAll, Cleared, TakeOut, Residents;
      stopped := true;
      if sweeping {
        SweepLoop(ticks, status);
      } else {
        ClearedNothing(model);
      }
      ghost var swept := model;
      TakeThenClose(entries.Keys);
      TakenIsCleared(swept, model, swept.entries.Keys);
      ClearedInTurn(old(model), swept, model);
      AllCleared(old(model), model);
    }

    /** The sweep's loop once it has been told to stop, with the cutoffs of the ticks it still takes. */
    method SweepLoop(ticks: seq<int>, status: Statuses)
      requires Valid() && PoolMachine.Free(model) && sweeping && stopped && status == model.status
      modifies this`entries, this`closed, this`model, this`sweeping
      ensures Valid() && !sweeping && Cleared(old(model), model)
    {
      hide Inv, ClosedAll, Cleared, TakeOut, Expired, SessionsOf;
      ghost var before := model;
      ClearedNothing(before);
      for i := 0 to |ticks|
        invariant Valid() && sweeping && PoolMachine.Free(model) && model.status == status && Cleared(before, model)
      {
        var seen := map k | k in entries :: status(entries[k].session);
        ghost var now := model;
        ScanKeepsInv(now, ticks[i], seen);
        model := now.(scan := Some(Scan(ForSweep(ticks[i]), seen)));
        SweepIdle(ticks[i], seen);
        SweepTakes(now, ticks[i], seen);
        TakenIsCleared(now, model, Expired(now.entries, seen, ticks[i]));
        ClearedInTurn(before, now, model);
      }
      sweeping := false;
    }

    method TakeThenClose(keys: set<string>)
      requires Valid()
      modifies this`entries, this`closed, this`model
      ensures Valid() && ClosedAll(TakeOut(old(model), keys), model, SessionsOf(old(entries), keys))
      ensures entries == old(entries) - keys
    {
      hide Inv;
      TakeOutKeepsInv(model, keys);
      var batch := SessionsOf(entries, keys);
      model := TakeOut(model, keys);
      entries := entries - keys;
      CloseAll(batch);
    }

    method CloseAll(batch: set<nat>)
      requires Valid() && batch <= model.closing
      modifies this`entries, this`closed, this`model
      ensures Valid() && ClosedAll(old(model), model, batch) && entries == old(entries)
    {
      hide Inv, ClosedAll, Apply;
      var todo := batch;
      ClosesNone(model);
      assert batch - todo == {};
      while todo != {}
        invariant todo <= batch <= old(model).closing
        invariant Valid() && entries == old(entries) && ClosedAll(old(model), model, batch - todo)
        decreases |todo|
      {
        var s :| s in todo;
        ClosesOne(old(model), model, batch - todo, s);
        assert batch - (todo - {s}) == (batch - todo) + {s};
        ClosingIs(model, s);
        model := Apply(model, CloseNext(s));
        closed := closed + [s];
        todo := todo - {s};
      }
      assert batch - todo == batch;
    }
  }

  /** Entries have gone, their sessions closed once each, and nothing else has changed. */
  ghost predicate Cleared(before: World, after: World) {
    && after == before.(entries := after.entries, closed := after.closed)
    && Residents(after.entries) <= Residents(before.entries)
    && Gained(before.closed, after.closed, Residents(before.entries) - Residents(after.entries))
  }

  lemma TakenIsCleared(w: World, after: World, keys: set<string>)
    requires Inv(w) && ClosedAll(TakeOut(w, keys), after, SessionsOf(w.entries, keys))
    ensures Cleared(w, after) && after.scan == w.scan && after.status == w.status
  {
    ResidentsSplit(w.entries, keys);
    NothingElseTaken(w, keys);
    hide Inv, Residents, SessionsOf, Gained;
    assert Residents(w.entries) - Residents(w.entries - keys) == SessionsOf(w.entries, keys);
  }

  lemma NothingElseTaken(w: World, keys: set<string>)
    requires Inv(w)
    ensures w.closing + SessionsOf(w.entries, keys) - SessionsOf(w.entries, keys) == w.closing
  {
    hide Once, Everyone, Injective;
    ResidentsSplitsOff(w.entries, keys);
    hide Residents, SessionsOf;
  }

  lemma ResidentsSplitsOff(entries: Entries, keys: set<string>)
    ensures SessionsOf(entries, keys) <= Residents(entries)
  {}

  lemma SweepTakes(w: World, cutoff: int, seen: Seen)
    requires Free(w) && forall k :: k in w.entries ==> k in seen
    ensures var scanned := w.(scan := Some(Scan(ForSweep(cutoff), seen)));
            Enabled(scanned, Sweep) && Apply(scanned, Sweep) == TakeOut(w, Expired(w.entries, seen, cutoff))
  {}

  lemma AllCleared(w: World, after: World)
    requires Inv(w) && Cleared(w, after) && after.entries == map[]
    ensures ClosedAll(TakeOut(w, w.entries.Keys), after, Residents(w.entries))
  {
    hide Inv, Gained;
    NothingElseTaken(w, w.entries.Keys);
    assert Residents(w.entries) - Residents(after.entries) == Residents(w.entries);
    assert w.entries - w.entries.Keys == map[];
  }

  lemma ClearedNothing(w: World)
    ensures Cleared(w, w)
  {}

  lemma ClearedInTurn(a: World, b: World, c: World)
    requires Cleared(a, b) && Cleared(b, c)
    ensures Cleared(a, c)
  {
    hide Residents, Gained;
    var r, s, t := Residents(a.entries), Residents(b.entries), Residents(c.entries);
    GainedInTurn(a.closed, b.closed, c.closed, r - s, s - t);
    assert r - s + (s - t) == r - t;
  }

  lemma GainedInTurn(a: seq<nat>, b: seq<nat>, c: seq<nat>, first: set<nat>, second: set<nat>)
    requires Gained(a, b, first) && Gained(b, c, second) && first !! second
    ensures Gained(a, c, first + second)
  {
    assert c[|a|..] == b[|a|..] + c[|b|..];
    assert c[..|a|] == b[..|a|];
  }

  lemma ScanKeepsInv(w: World, cutoff: int, seen: Seen)
    requires Inv(w)
    ensures Inv(w.(scan := Some(Scan(ForSweep(cutoff), seen))))
  {}

  lemma OldestWasIdle(entries: Entries, seen: Seen, key: string, k: string)
    requires Oldest(entries, seen, key, k)
    ensures k in seen && seen[k].Idle?
  {}

  lemma Evicting(before: Entries, closed: seq<nat>, key: string, e: Entry, seen: Seen, victim: string)
    requires victim in before && victim != key && victim in seen && seen[victim].Idle?
    ensures Replaces(before, closed, key, e, seen, (before - {victim})[key := e], closed + [before[victim].session])
  {}

  lemma Adding(before: Entries, closed: seq<nat>, key: string, e: Entry, seen: Seen)
    ensures Replaces(before, closed, key, e, seen, before[key := e], closed)
  {}

  lemma ClosedNone(before: World, after: World)
    requires ClosedAll(before, after, {})
    ensures after.closed == before.closed
  {}

  lemma ClosedOne(before: World, after: World, s: nat)
    requires ClosedAll(before, after, {s})
    ensures after.closed == before.closed + [s]
  {
    var n := |before.closed|;
    assert after.closed[n..][0] in {s};
    assert after.closed == after.closed[..n] + after.closed[n..];
  }

  lemma ClosesOne(before: World, now: World, batch: set<nat>, s: nat)
    requires Inv(now) && ClosedAll(before, now, batch) && s in before.closing && s !in batch
    ensures Enabled(now, CloseNext(s)) && Inv(Apply(now, CloseNext(s)))
    ensures ClosedAll(before, Apply(now, CloseNext(s)), batch + {s})
  {
    hide Inv, Gained;
    StepKeepsInv(now, CloseNext(s));
    GainsOne(before.closed, now.closed, batch, s);
  }

  lemma GainsOne(before: seq<nat>, now: seq<nat>, batch: set<nat>, s: nat)
    requires Gained(before, now, batch) && s !in batch
    ensures Gained(before, now + [s], batch + {s})
  {
    assert (now + [s])[|before|..] == now[|before|..] + [s];
    assert (now + [s])[..|before|] == now[..|before|];
  }

  lemma ClosesNone(w: World)
    ensures ClosedAll(w, w, {})
  {
    assert w.closed[..|w.closed|] == w.closed;
    assert w.closing - {} == w.closing;
  }

  lemma ClosingIs(w: World, s: nat)
    requires s in w.closing
    ensures Apply(w, CloseNext(s)) == w.(closing := w.closing - {s}, closed := w.closed + [s])
  {}

  lemma TakeNothing(w: World, key: string)
    ensures key !in w.entries ==> TakeOut(w, {key}) == w && SessionsOf(w.entries, {key}) == {}
  {
    if key !in w.entries {
      assert w.entries - {key} == w.entries;
      assert SessionsOf(w.entries, {key}) == {};
    }
  }

  lemma TakesOne(w: World, key: string)
    ensures TakeOut(w, {key}).closed == w.closed
    ensures key in w.entries ==> SessionsOf(w.entries, {key}) == {w.entries[key].session}
    ensures key !in w.entries ==> w.entries - {key} == w.entries
  {}

  lemma TakeOutKeepsInv(w: World, keys: set<string>)
    requires Inv(w)
    ensures Inv(TakeOut(w, keys))
  {
    TakeOutKeeps(w, keys);
  }

  lemma SweepIs(w: World, victims: set<string>)
    requires Inv(w) && Enabled(w, Sweep) && victims == Expired(w.entries, w.scan.value.seen, w.scan.value.purpose.cutoff)
    ensures var v := Apply(w, Sweep);
            && v.entries == w.entries - victims && SessionsOf(w.entries, victims) <= v.closing
            && v.cap == w.cap && v.closed == w.closed
  {}

  lemma LookedAt(entries: Entries, seen: Seen, cap: int, key: string)
    requires Looked(entries, seen, cap, key)
    ensures key in entries ==> key in seen
    ensures !Live(entries, seen, key) && AtCapacity(entries, cap) ==> forall k :: k in entries ==> k in seen
  {}

  lemma OpenRefused(w: World)
    requires Inv(w) && w.scan.Some? && w.scan.value.purpose.ForOpen?
    requires var key, seen := w.scan.value.purpose.key, w.scan.value.seen;
             !OpenVerdict(w.entries, seen, w.cap, key).Opened? && Looked(w.entries, seen, w.cap, key)
    ensures Enabled(w, PoolMachine.Open(None))
    ensures var v := Apply(w, PoolMachine.Open(None));
            Inv(v) && v.cap == w.cap && v.entries == w.entries && v.closed == w.closed && ClosedAll(v, v, {})
  {
    StepKeepsInv(w, PoolMachine.Open(None));
    hide Inv;
    ClosesNone(Apply(w, PoolMachine.Open(None)));
  }

  lemma OpenGranted(w: World, victim: Option<string>)
    requires Inv(w) && w.scan.Some? && w.scan.value.purpose.ForOpen?
    requires var key, seen := w.scan.value.purpose.key, w.scan.value.seen;
             && !Live(w.entries, seen, key) && Looked(w.entries, seen, w.cap, key)
             && if AtCapacity(w.entries, w.cap) then victim.Some? && Oldest(w.entries, seen, key, victim.value) else victim.None?
    ensures OpenVerdict(w.entries, w.scan.value.seen, w.cap, w.scan.value.purpose.key).Opened?
    ensures Enabled(w, PoolMachine.Open(victim))
    ensures var v := Apply(w, PoolMachine.Open(victim));
            && Inv(v) && v.cap == w.cap && v.closed == w.closed
            && v.entries == (if victim.Some? then w.entries - {victim.value} else w.entries)
                              [w.scan.value.purpose.key := Entry(w.scan.value.purpose.session, w.now)]
            && (victim.Some? ==> victim.value in w.entries && w.entries[victim.value].session in v.closing)
  {
    var key, session, seen := w.scan.value.purpose.key, w.scan.value.purpose.session, w.scan.value.seen;
    MayOpenNow(w.entries, seen, w.cap, key, victim);
    StepKeepsInv(w, PoolMachine.Open(victim));
    hide Inv, Looked, OpenVerdict, Oldest;
    OpenIs(w, key, session, seen, victim);
  }

  lemma MayOpenNow(entries: Entries, seen: Seen, cap: int, key: string, victim: Option<string>)
    requires !Live(entries, seen, key) && Looked(entries, seen, cap, key)
    requires if AtCapacity(entries, cap) then victim.Some? && Oldest(entries, seen, key, victim.value) else victim.None?
    ensures OpenVerdict(entries, seen, cap, key).Opened? && MayOpen(entries, seen, cap, key, victim)
    ensures victim.Some? ==> victim.value in entries
  {}

  lemma OpenIs(w: World, key: string, session: nat, seen: Seen, victim: Option<string>)
    requires OpenVerdict(w.entries, seen, w.cap, key).Opened?
    requires if AtCapacity(w.entries, w.cap) then victim.Some? && victim.value in w.entries else victim.None?
    ensures var v := ApplyOpen(w, key, session, seen, victim);
            && v.cap == w.cap && v.closed == w.closed
            && v.entries == (if victim.Some? then w.entries - {victim.value} else w.entries)[key := Entry(session, w.now)]
            && (victim.Some? ==> w.entries[victim.value].session in v.closing)
  {
    hide OpenVerdict;
    if victim.Some? {
      var k := victim.value;
      assert w.entries[k].session in SessionsOf(w.entries, {k});
      assert (w.entries - {k} - {key})[key := Entry(session, w.now)] == (w.entries - {k})[key := Entry(session, w.now)];
    } else {
      assert (w.entries - {key})[key := Entry(session, w.now)] == w.entries[key := Entry(session, w.now)];
    }
  }
}
