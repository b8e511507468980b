/**
 The scan that picks the day's extremes, one pass over the records and their windows.

 The invariant relates the three tables to the part of the records already seen, the current
 record being cut after the windows looked at so far: the table of extremes holds exactly the
 keys seen, each with its lowest and highest value and the id of the first record to show it;
 the last record of every day is remembered; and the numeric days are those on which some
 window showed a number. What is collected from the tables is then what the rule keeps.
 */
module DailyExtremes {
  import opened Prelude
  import opened Compaction
  import opened QuotaCharts

  datatype Extreme = Extreme(minID: nat, maxID: nat, min: real, max: real)

  ghost function FirstId(rs: seq<Record>, k: Key, v: real): Option<nat> {
    match FirstWith(rs, k, v)
    case None => None
    case Some(r) => Some(r.id)
  }

  ghost predicate Seen(rs: seq<Record>, k: Key) {
    exists i, v :: 0 <= i < |rs| && Sees(rs[i], k, v)
  }

  ghost predicate Describes(rs: seq<Record>, k: Key, e: Extreme) {
    && AllAtLeast(rs, k, e.min) && FirstId(rs, k, e.min) == Some(e.minID)
    && AllAtMost(rs, k, e.max) && FirstId(rs, k, e.max) == Some(e.maxID)
  }

  /** The table holds exactly the keys seen, each with its extremes and who showed them first. */
  ghost predicate Tracks(rs: seq<Record>, extremes: map<Key, Extreme>) {
    && (forall k :: k in extremes <==> Seen(rs, k))
    && (forall k :: k in extremes ==> Describes(rs, k, extremes[k]))
  }

  ghost predicate TracksDays(rs: seq<Record>, lastByDay: map<Day, nat>, numericDay: set<Day>) {
    && (forall d :: d in lastByDay <==> LastOf(rs, d).Some?)
    && (forall d :: d in lastByDay ==> lastByDay[d] == LastOf(rs, d).value.id)
    && (forall d :: d in numericDay <==> !Quiet(rs, d))
  }

  // ----- looking at one more window -----------------------------------------

  /** r1 is r0 with one more window, which shows o. */
  ghost predicate Grows(r0: Record, r1: Record, o: Option<Obs>) {
    && r1.id == r0.id && DayOf(r1) == DayOf(r0)
    && (forall k, v :: Sees(r1, k, v) <==> Sees(r0, k, v) || o == Some(Obs(k, v)))
  }

  function Upto(r: Record, j: nat): Record
    requires j <= |r.windows|
  {
    r.(windows := r.windows[..j])
  }

  lemma OneMoreWindow(r: Record, j: nat)
    requires j < |r.windows|
    ensures Grows(Upto(r, j), Upto(r, j + 1), Observed(r, r.windows[j]))
  {
    var a, b := Upto(r, j), Upto(r, j + 1);
    forall k, v ensures Sees(b, k, v) <==> Sees(a, k, v) || Observed(r, r.windows[j]) == Some(Obs(k, v)) {
      if Sees(a, k, v) {
        var i :| 0 <= i < |a.windows| && Observed(a, a.windows[i]) == Some(Obs(k, v));
        assert Observed(b, b.windows[i]) == Some(Obs(k, v));
      }
      if Observed(r, r.windows[j]) == Some(Obs(k, v)) {
        assert Observed(b, b.windows[j]) == Some(Obs(k, v));
      }
      if Sees(b, k, v) {
        var i :| 0 <= i < |b.windows| && Observed(b, b.windows[i]) == Some(Obs(k, v));
        if i < j {
          assert Observed(a, a.windows[i]) == Some(Obs(k, v));
        }
      }
    }
  }

  lemma FirstIdSnoc(a: seq<Record>, r: Record, k: Key, v: real)
    ensures FirstId(a + [r], k, v) == if FirstId(a, k, v).Some? then FirstId(a, k, v)
                                      else if Sees(r, k, v) then Some(r.id) else None
  {
    FirstWithConcat(a, [r], k, v);
    assert [r][1..] == [];
  }

  lemma AllSnoc(a: seq<Record>, r: Record, k: Key, v: real)
    ensures AllAtLeast(a + [r], k, v) <==> AllAtLeast(a, k, v) && forall u :: Sees(r, k, u) ==> u >= v
    ensures AllAtMost(a + [r], k, v) <==> AllAtMost(a, k, v) && forall u :: Sees(r, k, u) ==> u <= v
    ensures Seen(a + [r], k) <==> Seen(a, k) || exists u :: Sees(r, k, u)
  {
    hide Sees;
    var b := a + [r];
    assert forall i :: 0 <= i < |a| ==> b[i] == a[i];
    assert b[|a|] == r;
    if !AllAtLeast(b, k, v) {
      var i, u :| 0 <= i < |b| && Sees(b[i], k, u) && u < v;
      assert i < |a| ==> Sees(a[i], k, u);
    }
    if !AllAtMost(b, k, v) {
      var i, u :| 0 <= i < |b| && Sees(b[i], k, u) && u > v;
      assert i < |a| ==> Sees(a[i], k, u);
    }
    if Seen(b, k) {
      var i, u :| 0 <= i < |b| && Sees(b[i], k, u);
      assert i < |a| ==> Sees(a[i], k, u);
    }
    if Seen(a, k) {
      var i, u :| 0 <= i < |a| && Sees(a[i], k, u);
      assert Sees(b[i], k, u);
    }
  }

  lemma NeverSeen(rs: seq<Record>, k: Key, v: real)
    requires !Seen(rs, k)
    ensures FirstId(rs, k, v) == None
  {
    FirstWithSees(rs, k, v);
  }

  lemma BeyondIsNew(rs: seq<Record>, k: Key, v: real, bound: real)
    requires (AllAtLeast(rs, k, bound) && v < bound) || (AllAtMost(rs, k, bound) && v > bound)
    ensures FirstId(rs, k, v) == None
  {
    FirstWithSees(rs, k, v);
  }

  /** The table's entry for a key after one more observation. */
  function Updated(was: Option<Extreme>, id: nat, v: real): Extreme {
    match was
    case None => Extreme(id, id, v, v)
    case Some(e) =>
      Extreme(if v < e.min then id else e.minID, if v > e.max then id else e.maxID,
              if v < e.min then v else e.min, if v > e.max then v else e.max)
  }

  lemma DescribesFirst(a: seq<Record>, r0: Record, r1: Record, k: Key, v: real)
    requires Grows(r0, r1, Some(Obs(k, v)))
    requires !Seen(a + [r0], k)
    ensures Describes(a + [r1], k, Updated(None, r1.id, v))
  {
    hide Sees;
    AllSnoc(a, r0, k, v);
    AllSnoc(a, r1, k, v);
    FirstIdSnoc(a, r1, k, v);
    FirstIdSnoc(a, r0, k, v);
    NeverSeen(a + [r0], k, v);
  }

  lemma DescribesNext(a: seq<Record>, r0: Record, r1: Record, k: Key, v: real, e: Extreme)
    requires Grows(r0, r1, Some(Obs(k, v)))
    requires Describes(a + [r0], k, e)
    ensures Describes(a + [r1], k, Updated(Some(e), r1.id, v))
  {
    hide Sees;
    var e' := Updated(Some(e), r1.id, v);
    AllSnoc(a, r0, k, e.min);
    AllSnoc(a, r0, k, e.max);
    AllSnoc(a, r1, k, e'.min);
    AllSnoc(a, r1, k, e'.max);
    FirstIdSnoc(a, r0, k, e'.min);
    FirstIdSnoc(a, r0, k, e'.max);
    FirstIdSnoc(a, r1, k, e'.min);
    FirstIdSnoc(a, r1, k, e'.max);
    if v < e.min {
      BeyondIsNew(a + [r0], k, v, e.min);
    }
    if v > e.max {
      BeyondIsNew(a + [r0], k, v, e.max);
    }
  }

  lemma DescribesElsewhere(a: seq<Record>, r0: Record, r1: Record, o: Option<Obs>, k: Key, e: Extreme)
    requires Grows(r0, r1, o) && (o.Some? ==> o.value.key != k)
    requires Describes(a + [r0], k, e)
    ensures Describes(a + [r1], k, e)
  {
    hide Sees;
    AllSnoc(a, r0, k, e.min);
    AllSnoc(a, r0, k, e.max);
    AllSnoc(a, r1, k, e.min);
    AllSnoc(a, r1, k, e.max);
    FirstIdSnoc(a, r0, k, e.min);
    FirstIdSnoc(a, r0, k, e.max);
    FirstIdSnoc(a, r1, k, e.min);
    FirstIdSnoc(a, r1, k, e.max);
  }

  lemma SeenGrows(a: seq<Record>, r0: Record, r1: Record, o: Option<Obs>, k: Key)
    requires Grows(r0, r1, o)
    ensures Seen(a + [r1], k) <==> Seen(a + [r0], k) || (o.Some? && o.value.key == k)
  {
    hide Sees;
    AllSnoc(a, r0, k, 0.0);
    AllSnoc(a, r1, k, 0.0);
    if o.Some? && o.value.key == k {
      assert Sees(r1, k, o.value.value);
    }
  }

  lemma TracksNothingNew(a: seq<Record>, r0: Record, r1: Record, extremes: map<Key, Extreme>)
    requires Grows(r0, r1, None) && Tracks(a + [r0], extremes)
    ensures Tracks(a + [r1], extremes)
  {
    hide Describes, Seen, Grows;
    forall k ensures k in extremes <==> Seen(a + [r1], k) {
      SeenGrows(a, r0, r1, None, k);
    }
    forall k | k in extremes ensures Describes(a + [r1], k, extremes[k]) {
      DescribesElsewhere(a, r0, r1, None, k, extremes[k]);
    }
  }

  function Entry(extremes: map<Key, Extreme>, k: Key): Option<Extreme> {
    if k in extremes then Some(extremes[k]) else None
  }

  lemma TracksNext(a: seq<Record>, r0: Record, r1: Record, o: Obs, extremes: map<Key, Extreme>)
    requires Grows(r0, r1, Some(o)) && Tracks(a + [r0], extremes)
    ensures Tracks(a + [r1], extremes[o.key := Updated(Entry(extremes, o.key), r1.id, o.value)])
  {
    hide Describes, Seen, Grows, Updated;
    var now := extremes[o.key := Updated(Entry(extremes, o.key), r1.id, o.value)];
    forall k ensures k in now <==> Seen(a + [r1], k) {
      SeenGrows(a, r0, r1, Some(o), k);
    }
    forall k | k in now ensures Describes(a + [r1], k, now[k]) {
      if k != o.key {
        DescribesElsewhere(a, r0, r1, Some(o), k, extremes[k]);
      } else if k in extremes {
        DescribesNext(a, r0, r1, k, o.value, extremes[k]);
      } else {
        DescribesFirst(a, r0, r1, k, o.value);
      }
    }
  }

  lemma DescribesBlank(a: seq<Record>, r: Record, k: Key, e: Extreme)
    requires r.windows == []
    ensures Seen(a + [r], k) <==> Seen(a, k)
    ensures Describes(a + [r], k, e) <==> Describes(a, k, e)
  {
    assert forall v :: !Sees(r, k, v);
    AllSnoc(a, r, k, e.min);
    AllSnoc(a, r, k, e.max);
    FirstIdSnoc(a, r, k, e.min);
    FirstIdSnoc(a, r, k, e.max);
  }

  lemma TracksBlank(a: seq<Record>, r: Record, extremes: map<Key, Extreme>)
    requires Tracks(a, extremes) && r.windows == []
    ensures Tracks(a + [r], extremes)
  {
    hide Describes, Seen;
    forall k ensures k in extremes <==> Seen(a + [r], k) {
      DescribesBlank(a, r, k, Extreme(0, 0, 0.0, 0.0));
    }
    forall k | k in extremes ensures Describes(a + [r], k, extremes[k]) {
      DescribesBlank(a, r, k, extremes[k]);
    }
  }

  // ----- days ---------------------------------------------------------------

  lemma QuietGrows(a: seq<Record>, r0: Record, r1: Record, o: Option<Obs>, d: Day)
    requires Grows(r0, r1, o)
    ensures Quiet(a + [r1], d) <==> Quiet(a + [r0], d) && (o.Some? ==> o.value.key.day != d)
  {
    hide Sees;
    var p, q := a + [r0], a + [r1];
    assert p[|a|] == r0 && q[|a|] == r1;
    assert forall i :: 0 <= i < |a| ==> p[i] == q[i];
    if !Quiet(q, d) {
      var i, k, u :| 0 <= i < |q| && Sees(q[i], k, u) && k.day == d;
      assert i < |a| ==> Sees(p[i], k, u);
      if i == |a| && Sees(r0, k, u) {
        assert Sees(p[i], k, u);
      }
    }
    if !Quiet(p, d) {
      var i, k, u :| 0 <= i < |p| && Sees(p[i], k, u) && k.day == d;
      assert i < |a| ==> Sees(q[i], k, u);
      assert Sees(q[i], k, u);
    }
    if o.Some? && o.value.key.day == d {
      assert Sees(q[|a|], o.value.key, o.value.value);
    }
  }

  lemma TracksDaysGrows(a: seq<Record>, r0: Record, r1: Record, o: Option<Obs>, lastByDay: map<Day, nat>, numericDay: set<Day>)
    requires Grows(r0, r1, o) && TracksDays(a + [r0], lastByDay, numericDay)
    ensures TracksDays(a + [r1], lastByDay, if o.Some? then numericDay + {o.value.key.day} else numericDay)
  {
    hide Quiet, Grows;
    assert r1.id == r0.id && DayOf(r1) == DayOf(r0) by {
      SameOwner(r0, r1, o);
    }
    forall d
      ensures Quiet(a + [r1], d) <==> Quiet(a + [r0], d) && (o.Some? ==> o.value.key.day != d)
      ensures LastOf(a + [r1], d) == if DayOf(r1) == d then Some(r1) else LastOf(a, d)
      ensures LastOf(a + [r0], d) == if DayOf(r0) == d then Some(r0) else LastOf(a, d)
    {
      QuietGrows(a, r0, r1, o, d);
      LastOfSnoc(a, r0, d);
      LastOfSnoc(a, r1, d);
    }
  }

  lemma SameOwner(r0: Record, r1: Record, o: Option<Obs>)
    requires Grows(r0, r1, o)
    ensures r1.id == r0.id && DayOf(r1) == DayOf(r0)
  {}

  lemma LastOfSnoc(a: seq<Record>, r: Record, d: Day)
    ensures LastOf(a + [r], d) == if DayOf(r) == d then Some(r) else LastOf(a, d)
  {
    LastOfConcat(a, [r], d);
    assert [r][..0] == [];
  }

  lemma TracksDaysBlank(a: seq<Record>, r: Record, lastByDay: map<Day, nat>, numericDay: set<Day>)
    requires TracksDays(a, lastByDay, numericDay) && r.windows == []
    ensures TracksDays(a + [r], lastByDay[DayOf(r) := r.id], numericDay)
  {
    var b := a + [r];
    forall d
      ensures Quiet(b, d) <==> Quiet(a, d)
      ensures LastOf(b, d) == if DayOf(r) == d then Some(r) else LastOf(a, d)
    {
      LastOfSnoc(a, r, d);
      if !Quiet(a, d) {
        var i, k, u :| 0 <= i < |a| && Sees(a[i], k, u) && k.day == d;
        assert Sees(b[i], k, u);
      }
      if !Quiet(b, d) {
        var i, k, u :| 0 <= i < |b| && Sees(b[i], k, u) && k.day == d;
        assert i < |a| && b[i] == a[i];
      }
    }
  }

  // ----- the scan -----------------------------------------------------------

  /** The ids the tables name. */
  ghost predicate Named(extremes: map<Key, Extreme>, keys: set<Key>, id: nat) {
    exists k :: k in keys && k in extremes && (id == extremes[k].minID || id == extremes[k].maxID)
  }

  ghost predicate NamedByDay(lastByDay: map<Day, nat>, numericDay: set<Day>, days: set<Day>, id: nat) {
    exists d :: d in days && d in lastByDay && d !in numericDay && id == lastByDay[d]
  }

  ghost predicate KeptId(rs: seq<Record>, id: nat) {
    exists r :: Kept(rs, r) && r.id == id
  }

  lemma NamedIsKept(rs: seq<Record>, extremes: map<Key, Extreme>, id: nat)
    requires Tracks(rs, extremes) && Named(extremes, extremes.Keys, id)
    ensures KeptId(rs, id)
  {
    var k :| k in extremes.Keys && (id == extremes[k].minID || id == extremes[k].maxID);
    var e := extremes[k];
    assert Describes(rs, k, e);
    if id == e.minID {
      var r := FirstWith(rs, k, e.min).value;
      assert FirstMin(rs, k, e.min, r);
      assert Kept(rs, r);
    } else {
      var r := FirstWith(rs, k, e.max).value;
      assert FirstMax(rs, k, e.max, r);
      assert Kept(rs, r);
    }
  }

  lemma NamedByDayIsKept(rs: seq<Record>, lastByDay: map<Day, nat>, numericDay: set<Day>, id: nat)
    requires TracksDays(rs, lastByDay, numericDay) && NamedByDay(lastByDay, numericDay, lastByDay.Keys, id)
    ensures KeptId(rs, id)
  {
    var d :| d in lastByDay && d !in numericDay && id == lastByDay[d];
    var r := LastOf(rs, d).value;
    assert LastQuiet(rs, d, r);
    assert Kept(rs, r);
  }

  lemma ExtremeIsNamed(rs: seq<Record>, extremes: map<Key, Extreme>, k: Key, v: real, r: Record)
    requires Tracks(rs, extremes) && (FirstMin(rs, k, v, r) || FirstMax(rs, k, v, r))
    ensures Named(extremes, extremes.Keys, r.id)
  {
    FirstWithSees(rs, k, v);
    var i :| 0 <= i < |rs| && rs[i] == r;
    assert Sees(rs[i], k, v);
    assert Seen(rs, k);
    var e := extremes[k];
    assert Describes(rs, k, e);
    FirstWithSees(rs, k, e.min);
    FirstWithSees(rs, k, e.max);
    if FirstMin(rs, k, v, r) {
      assert e.min == v;
    } else {
      assert e.max == v;
    }
  }

  lemma KeptIsNamed(rs: seq<Record>, extremes: map<Key, Extreme>, lastByDay: map<Day, nat>, numericDay: set<Day>, r: Record)
    requires Tracks(rs, extremes) && TracksDays(rs, lastByDay, numericDay) && Kept(rs, r)
    ensures Named(extremes, extremes.Keys, r.id) || NamedByDay(lastByDay, numericDay, lastByDay.Keys, r.id)
  {
    hide Tracks, FirstMin, FirstMax;
    if k, v :| FirstMin(rs, k, v, r) || FirstMax(rs, k, v, r) {
      ExtremeIsNamed(rs, extremes, k, v, r);
    } else {
      var d :| LastQuiet(rs, d, r);
      assert d in lastByDay.Keys;
    }
  }

  /** The kept ids are exactly those of the kept records. */
  method QuotaDailyExtremes(records: seq<Record>) returns (keep: set<nat>)
    ensures forall id :: id in keep <==> KeptId(records, id)
    ensures forall id :: id in keep <==> exists i :: 0 <= i < |records| && records[i].id == id && WorthKeeping(records, i)
  {
    hide Tracks, TracksDays, Grows, Observed, KeptId;
    var extremes: map<Key, Extreme> := map[];
    var lastByDay: map<Day, nat> := map[];
    var numericDay: set<Day> := {};
    var i := 0;
    NothingTracked();
    while i < |records|
      invariant i <= |records|
      invariant Tracks(records[..i], extremes) && TracksDays(records[..i], lastByDay, numericDay)
    {
      var record := records[i];
      var day := DayOf(record);
      TracksBlank(records[..i], Upto(record, 0), extremes);
      TracksDaysBlank(records[..i], Upto(record, 0), lastByDay, numericDay);
      lastByDay := lastByDay[day := record.id];
      var j := 0;
      while j < |record.windows|
        invariant j <= |record.windows|
        invariant Tracks(records[..i] + [Upto(record, j)], extremes)
        invariant TracksDays(records[..i] + [Upto(record, j)], lastByDay, numericDay)
      {
        ghost var r0, r1 := Upto(record, j), Upto(record, j + 1);
        OneMoreWindow(record, j);
        var seen := Observed(record, record.windows[j]);
        TracksDaysGrows(records[..i], r0, r1, seen, lastByDay, numericDay);
        match seen {
          case None =>
            TracksNothingNew(records[..i], r0, r1, extremes);
          case Some(o) =>
            TracksNext(records[..i], r0, r1, o, extremes);
            ObservedToday(record, record.windows[j]);
            numericDay := numericDay + {day};
            if o.key !in extremes {
              extremes := extremes[o.key := Extreme(record.id, record.id, o.value, o.value)];
            } else {
              var extreme := extremes[o.key];
              if o.value < extreme.min {
                extreme := extreme.(min := o.value, minID := record.id);
              }
              if o.value > extreme.max {
                extreme := extreme.(max := o.value, maxID := record.id);
              }
              extremes := extremes[o.key := extreme];
            }
        }
        j := j + 1;
      }
      assert Upto(record, j) == record;
      assert records[..i + 1] == records[..i] + [record];
      i := i + 1;
    }
    assert records[..i] == records;
    keep := Collect(extremes, lastByDay, numericDay);
    forall id
      ensures id in keep <==> KeptId(records, id)
      ensures KeptId(records, id) <==> exists i :: 0 <= i < |records| && records[i].id == id && WorthKeeping(records, i)
    {
      NamesAreTheKept(records, extremes, lastByDay, numericDay, id);
      KeptIdsAreWorthIt(records, id);
    }
  }

  lemma KeptIdsAreWorthIt(rs: seq<Record>, id: nat)
    ensures KeptId(rs, id) <==> exists i :: 0 <= i < |rs| && rs[i].id == id && WorthKeeping(rs, i)
  {
    hide Kept, WorthKeeping;
    if KeptId(rs, id) {
      var r :| Kept(rs, r) && r.id == id;
      KeptExactlyWhenWorthIt(rs, r);
    }
    if i :| 0 <= i < |rs| && rs[i].id == id && WorthKeeping(rs, i) {
      KeptExactlyWhenWorthIt(rs, rs[i]);
      assert Kept(rs, rs[i]);
    }
  }

  lemma NothingTracked()
    ensures Tracks([], map[]) && TracksDays([], map[], {})
  {}

  lemma ObservedToday(r: Record, w: Option<Window>)
    ensures Observed(r, w).Some? ==> Observed(r, w).value.key.day == DayOf(r)
  {}

  lemma NamesAreTheKept(rs: seq<Record>, extremes: map<Key, Extreme>, lastByDay: map<Day, nat>, numericDay: set<Day>, id: nat)
    requires Tracks(rs, extremes) && TracksDays(rs, lastByDay, numericDay)
    ensures KeptId(rs, id) <==>
            Named(extremes, extremes.Keys, id) || NamedByDay(lastByDay, numericDay, lastByDay.Keys, id)
  {
    hide Tracks, TracksDays, Named, NamedByDay, Kept;
    if Named(extremes, extremes.Keys, id) {
      NamedIsKept(rs, extremes, id);
    }
    if NamedByDay(lastByDay, numericDay, lastByDay.Keys, id) {
      NamedByDayIsKept(rs, lastByDay, numericDay, id);
    }
    if KeptId(rs, id) {
      var r :| Kept(rs, r) && r.id == id;
      KeptIsNamed(rs, extremes, lastByDay, numericDay, r);
    }
  }

  /** Both ends of every key, then the last record of every day without a number. */
  method Collect(extremes: map<Key, Extreme>, lastByDay: map<Day, nat>, numericDay: set<Day>) returns (keep: set<nat>)
    ensures forall id :: id in keep <==>
              Named(extremes, extremes.Keys, id) || NamedByDay(lastByDay, numericDay, lastByDay.Keys, id)
  {
    keep := {};
    var keys := extremes.Keys;
    while keys != {}
      invariant keys <= extremes.Keys
      invariant forall id :: id in keep <==> Named(extremes, extremes.Keys - keys, id)
      decreases |keys|
    {
      var k :| k in keys;
      keep := keep + {extremes[k].minID, extremes[k].maxID};
      keys := keys - {k};
    }
    assert extremes.Keys - keys == extremes.Keys;
    var days := lastByDay.Keys;
    while days != {}
      invariant days <= lastByDay.Keys
      invariant forall id :: id in keep <==>
                  Named(extremes, extremes.Keys, id) || NamedByDay(lastByDay, numericDay, lastByDay.Keys - days, id)
      decreases |days|
    {
      var d :| d in days;
      if d !in numericDay {
        keep := keep + {lastByDay[d]};
      }
      days := days - {d};
    }
    assert lastByDay.Keys - days == lastByDay.Keys;
  }
}
