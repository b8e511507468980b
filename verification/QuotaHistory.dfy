/** What one compaction leaves of the history, and when compacting early loses nothing. */
module QuotaHistory {
  /*
   The retention cut moves with the clock, so it can fall inside a day; only then can an
   earlier pass have dropped a record the later pass would have kept.
   */

  import opened Prelude
  import opened Compaction
  import opened DailyExtremes
  import opened QuotaCharts

  const RETENTION := 30 * DAY

  /** Local midnight of the day of `now`. */
  function Today(now: int): int {
    now / DAY * DAY
  }

  function Cut(now: int): int {
    now - RETENTION
  }

  /** Old enough to be compacted and not yet expired. */
  predicate Due(r: Record, now: int) {
    Cut(now) <= r.at < Today(now)
  }

  ghost function Slice(rows: seq<Record>, now: int): seq<Record> {
    Filter(rows, (r: Record) => Due(r, now))
  }

  ghost predicate Stays(rows: seq<Record>, now: int, r: Record) {
    r.at >= Cut(now) && (r.at >= Today(now) || Kept(Slice(rows, now), r))
  }

  /** The history one compaction at `now` leaves. */
  ghost function Compacted(rows: seq<Record>, now: int): seq<Record> {
    Filter(rows, (r: Record) => Stays(rows, now, r))
  }

  /** Of the last thirty days, but not of the day that `now` is in. */
  predicate OfACompletedDay(r: Record, now: int, day: int) {
    now - 2592000 <= r.at < day * 86400
  }

  /**
   In seconds: what is left is what is no older than thirty days, of the day that `now` is in all of
   it, and of the days before what their chart needs.
   */
  lemma LeftExactlyWhen(rows: seq<Record>, now: int, day: int, r: Record)
    requires day * 86400 <= now < (day + 1) * 86400
    ensures var past := Filter(rows, (x: Record) => OfACompletedDay(x, now, day));
            r in Compacted(rows, now) <==>
              && r in rows && now - r.at <= 2592000
              && (r.at >= day * 86400 || exists i :: 0 <= i < |past| && past[i] == r && WorthKeeping(past, i))
  {
    hide Kept, WorthKeeping, Filter;
    var past := Filter(rows, (x: Record) => OfACompletedDay(x, now, day));
    OneDay(now, day, now / DAY);
    assert Today(now) == day * 86400;
    FilterSame(rows, (x: Record) => Due(x, now), (x: Record) => OfACompletedDay(x, now, day));
    assert Slice(rows, now) == past;
    FilterIn(rows, (x: Record) => Stays(rows, now, x), r);
    KeptExactlyWhenWorthIt(past, r);
  }

  // ----- a verdict depends on its own day only ------------------------------

  ghost predicate Covers(f: Record -> bool, d: Day) {
    forall r :: DayOf(r) == d ==> f(r)
  }

  lemma SeesToday(r: Record, k: Key, v: real)
    requires Sees(r, k, v)
    ensures k.day == DayOf(r)
  {
    var j :| 0 <= j < |r.windows| && Observed(r, r.windows[j]) == Some(Obs(k, v));
    ObservedToday(r, r.windows[j]);
  }

  lemma BoundsAreLocal(rs: seq<Record>, f: Record -> bool, k: Key, v: real)
    requires Covers(f, k.day)
    ensures AllAtLeast(Filter(rs, f), k, v) <==> AllAtLeast(rs, k, v)
    ensures AllAtMost(Filter(rs, f), k, v) <==> AllAtMost(rs, k, v)
    ensures FirstWith(Filter(rs, f), k, v) == FirstWith(rs, k, v)
    ensures Quiet(Filter(rs, f), k.day) <==> Quiet(rs, k.day)
  {
    hide Sees, Filter;
    var fs := Filter(rs, f);
    forall i | 0 <= i < |fs| ensures fs[i] in rs {
      FilterIn(rs, f, fs[i]);
    }
    forall i, l, u | 0 <= i < |rs| && Sees(rs[i], l, u) && l.day == k.day ensures rs[i] in fs {
      SeesToday(rs[i], l, u);
      FilterIn(rs, f, rs[i]);
    }
    FirstWithSees(rs, k, v);
    if FirstWith(rs, k, v).Some? {
      SeesToday(FirstWith(rs, k, v).value, k, v);
    }
    FirstWithFiltered(rs, f, k, v);
  }

  lemma FirstIsOfItsDay(rs: seq<Record>, k: Key, v: real, r: Record)
    requires FirstWith(rs, k, v) == Some(r)
    ensures k.day == DayOf(r)
  {
    FirstWithSees(rs, k, v);
    SeesToday(r, k, v);
  }

  lemma QuietIsLocal(rs: seq<Record>, f: Record -> bool, d: Day, r: Record)
    requires Covers(f, d)
    ensures LastQuiet(Filter(rs, f), d, r) <==> LastQuiet(rs, d, r)
  {
    BoundsAreLocal(rs, f, Key(d, "", 0, "", "", Percent), 0.0);
    LastOfIsIn(rs, d);
    LastOfFiltered(rs, f, d);
  }

  /** A record is kept or not according to the records of its own provider and day. */
  lemma VerdictIsLocal(rs: seq<Record>, f: Record -> bool, r: Record)
    requires Covers(f, DayOf(r))
    ensures Kept(Filter(rs, f), r) <==> Kept(rs, r)
  {
    hide Filter, AllAtLeast, AllAtMost, Covers;
    forall k, v
      ensures FirstMin(Filter(rs, f), k, v, r) <==> FirstMin(rs, k, v, r)
      ensures FirstMax(Filter(rs, f), k, v, r) <==> FirstMax(rs, k, v, r)
    {
      if k.day == DayOf(r) {
        BoundsAreLocal(rs, f, k, v);
      } else {
        if FirstWith(rs, k, v) == Some(r) {
          FirstIsOfItsDay(rs, k, v, r);
        }
        if FirstWith(Filter(rs, f), k, v) == Some(r) {
          FirstIsOfItsDay(Filter(rs, f), k, v, r);
        }
      }
    }
    forall d ensures LastQuiet(Filter(rs, f), d, r) <==> LastQuiet(rs, d, r) {
      if d == DayOf(r) {
        QuietIsLocal(rs, f, d, r);
      } else {
        LastOfIsIn(rs, d);
        LastOfIsIn(Filter(rs, f), d);
      }
    }
  }

  // ----- compacting earlier -------------------------------------------------

  /** The later cut falls between days, has not moved, or falls after all that was compacted. */
  predicate Aligned(early: int, late: int) {
    Cut(late) % DAY == 0 || early == late || Today(Cut(late)) >= Today(early)
  }

  /** The one day whose records the later cut splits. */
  predicate OnTheCut(r: Record, early: int, late: int) {
    !Aligned(early, late) && r.at / DAY == Cut(late) / DAY
  }

  ghost function OfDay(d: Day): Record -> bool {
    (r: Record) => DayOf(r) == d
  }

  /** Away from the cut, both passes look at the same records of a day the early pass compacted. */
  lemma SameDay(rows: seq<Record>, early: int, late: int, r: Record)
    requires early <= late && !OnTheCut(r, early, late)
    requires Cut(late) <= r.at < Today(early)
    ensures Filter(Slice(rows, late), OfDay(DayOf(r))) == Filter(Slice(rows, early), OfDay(DayOf(r)))
  {
    hide Filter;
    var day := OfDay(DayOf(r));
    var due: Record -> bool := x => Due(x, late);
    var was: Record -> bool := x => Due(x, early);
    FilterTwice(rows, due, day);
    FilterTwice(rows, was, day);
    forall x | x in rows && day(x) ensures Due(x, early) == Due(x, late) {
      SameDayIsDue(r.at, x.at, early, late);
    }
    FilterSame(rows, x => due(x) && day(x), x => was(x) && day(x));
  }

  lemma SameDayIsDue(a: int, b: int, early: int, late: int)
    requires early <= late && a / DAY == b / DAY
    requires Aligned(early, late) || a / DAY != Cut(late) / DAY
    requires Cut(late) <= a < Today(early)
    ensures Cut(early) <= b < Today(early) <==> Cut(late) <= b < Today(late)
  {
    hide Today;
    if early != late {
      DaysAreApart(a, b);
      DaysAreApart(a, early);
      DaysAreApart(b, early);
      DaysAreApart(early, late);
      DaysAreApart(b, late);
      DaysAreApart(Cut(late), a);
      DaysAreApart(Cut(late), b);
    }
  }

  lemma DaysAreApart(a: int, b: int)
    ensures Today(a) <= a < Today(a) + DAY
    ensures a / DAY == b / DAY <==> Today(a) == Today(b)
    ensures a % DAY == 0 <==> Today(a) == a
    ensures a / DAY < b / DAY ==> Today(a) + DAY <= Today(b)
    ensures a <= b ==> Today(a) <= Today(b)
    ensures a < Today(b) ==> Today(a) + DAY <= Today(b)
  {
    if a / DAY < b / DAY {
      assert (a / DAY + 1) * DAY <= b / DAY * DAY;
    }
  }

  lemma EarlyPassSparesTheDay(rows: seq<Record>, early: int, late: int, r: Record)
    requires early <= late && !OnTheCut(r, early, late) && r.at >= Cut(late)
    ensures Spares(Filter(Slice(rows, late), OfDay(DayOf(r))), (x: Record) => Stays(rows, early, x))
  {
    hide Kept, Filter;
    var d := DayOf(r);
    var day := Filter(Slice(rows, late), OfDay(d));
    forall x | Kept(day, x) ensures Stays(rows, early, x) {
      KeptIsIn(day, x);
      FilterIn(Slice(rows, late), OfDay(d), x);
      FilterIn(rows, (y: Record) => Due(y, late), x);
      if x.at < Today(early) {
        SameDay(rows, early, late, x);
        VerdictIsLocal(Slice(rows, early), OfDay(d), x);
      }
    }
  }

  lemma SliceOfCompacted(rows: seq<Record>, early: int, late: int)
    ensures Slice(Compacted(rows, early), late) == Filter(Slice(rows, late), (x: Record) => Stays(rows, early, x))
  {
    hide Stays;
    var g: Record -> bool := (x: Record) => Stays(rows, early, x);
    var due: Record -> bool := x => Due(x, late);
    FilterTwice(rows, g, due);
    FilterTwice(rows, due, g);
    FilterSame(rows, x => g(x) && due(x), x => due(x) && g(x));
  }

  /** Away from the cut, the early pass has not touched what the later pass decides. */
  lemma SameVerdict(rows: seq<Record>, early: int, late: int, r: Record)
    requires early <= late && !OnTheCut(r, early, late) && r.at >= Cut(late)
    ensures Kept(Slice(Compacted(rows, early), late), r) <==> Kept(Slice(rows, late), r)
    ensures Kept(Slice(rows, late), r) ==> Stays(rows, early, r)
  {
    hide Kept, Stays, Filter, Slice, Compacted;
    var g: Record -> bool := (x: Record) => Stays(rows, early, x);
    var s, f := Slice(rows, late), OfDay(DayOf(r));
    SliceOfCompacted(rows, early, late);
    VerdictIsLocal(Filter(s, g), f, r);
    VerdictIsLocal(s, f, r);
    FilterTwice(s, g, f);
    FilterTwice(s, f, g);
    FilterSame(s, (x: Record) => g(x) && f(x), (x: Record) => f(x) && g(x));
    EarlyPassSparesTheDay(rows, early, late, r);
    DroppingTheRestChangesNothing(Filter(s, f), g, r);
  }

  lemma SameFate(rows: seq<Record>, early: int, late: int, r: Record)
    requires early <= late && !OnTheCut(r, early, late)
    ensures Stays(rows, late, r) <==> Stays(rows, early, r) && Stays(Compacted(rows, early), late, r)
  {
    hide Kept, Slice, Compacted;
    if r.at >= Cut(late) {
      SameVerdict(rows, early, late, r);
    }
  }

  /** Whatever the clock, an early pass changes the outcome on at most one day: the one being cut. */
  lemma OnlyTheCutDayCanDiffer(rows: seq<Record>, early: int, late: int, r: Record)
    requires early <= late && !OnTheCut(r, early, late)
    ensures r in Compacted(Compacted(rows, early), late) <==> r in Compacted(rows, late)
  {
    hide Stays;
    FilterIn(rows, (x: Record) => Stays(rows, early, x), r);
    FilterIn(rows, (x: Record) => Stays(rows, late, x), r);
    FilterIn(Compacted(rows, early), (x: Record) => Stays(Compacted(rows, early), late, x), r);
    SameFate(rows, early, late, r);
  }

  lemma AlignedAbsorbs(rows: seq<Record>, early: int, late: int)
    requires early <= late && Aligned(early, late)
    ensures Compacted(Compacted(rows, early), late) == Compacted(rows, late)
  {
    hide Stays;
    var once := Compacted(rows, early);
    var f: Record -> bool := x => Stays(rows, early, x);
    var g: Record -> bool := x => Stays(once, late, x);
    FilterTwice(rows, f, g);
    forall r | r in rows ensures Stays(rows, late, r) == (f(r) && g(r)) {
      SameFate(rows, early, late, r);
    }
    FilterSame(rows, x => f(x) && g(x), (x: Record) => Stays(rows, late, x));
  }

  /** Samples taken after the early pass do not change what that pass does. */
  lemma LaterSamplesWait(rows: seq<Record>, more: seq<Record>, early: int)
    requires forall r: Record :: r in more ==> r.at >= Today(early)
    ensures Compacted(rows + more, early) == Compacted(rows, early) + more
  {
    hide Kept;
    var due: Record -> bool := (r: Record) => Due(r, early);
    FilterConcat(rows, more, due);
    NoneDue(more, early);
    assert Slice(rows + more, early) == Slice(rows, early);
    var stays: Record -> bool := (r: Record) => Stays(rows, early, r);
    FilterConcat(rows, more, stays);
    FilterAll(more, stays);
    FilterSame(rows + more, (r: Record) => Stays(rows + more, early, r), stays);
  }

  lemma {:induction false} NoneDue(more: seq<Record>, early: int)
    requires forall r: Record :: r in more ==> r.at >= Today(early)
    ensures Filter(more, (r: Record) => Due(r, early)) == []
  {
    if more != [] {
      var init, last := more[..|more| - 1], more[|more| - 1];
      assert more == init + [last];
      NoneDue(init, early);
    }
  }

  // ----- exactly when nothing is lost ---------------------------------------

  /** Compacting early, sampling on and compacting late always ends as compacting late alone. */
  ghost predicate EarlyPassIsHarmless(early: int, late: int) {
    forall rows: seq<Record>, more: seq<Record> :: (forall r: Record :: r in more ==> r.at >= Today(early)) ==>
      Compacted(Compacted(rows, early) + more, late) == Compacted(rows + more, late)
  }

  const USAGE := Key(Day("p", 0), "w", 60, "", "", Available)

  function Sample(id: nat, at: int, value: real): Record {
    Record(id, "p", at, [Some(Window("w", 60, "", "", false, true, 0.0, 0.0, Some(value)))])
  }

  /** The day's low and high lie just before the cut, a middling sample just after. */
  function Straddling(cut: int): seq<Record> {
    [Sample(1, cut - 1, 0.0), Sample(2, cut - 1, 100.0), Sample(3, cut, 50.0)]
  }

  function UsageOn(at: int): Key {
    USAGE.(day := Day("p", at / DAY))
  }

  lemma SampleSees(id: nat, at: int, value: real, k: Key, v: real)
    ensures Sees(Sample(id, at, value), k, v) <==> k == UsageOn(at) && v == value
  {
    var r := Sample(id, at, value);
    if k == UsageOn(at) && v == value {
      assert Observed(r, r.windows[0]) == Some(Obs(k, v));
    }
  }

  lemma MiddleIsNotKept(cut: int)
    requires cut % DAY != 0
    ensures !Kept(Straddling(cut), Sample(3, cut, 50.0))
  {
    hide Sees;
    var rs, r := Straddling(cut), Sample(3, cut, 50.0);
    assert cut / DAY == (cut - 1) / DAY;
    var k := UsageOn(cut);
    SampleSees(1, cut - 1, 0.0, k, 0.0);
    SampleSees(2, cut - 1, 100.0, k, 100.0);
    assert Sees(rs[0], k, 0.0) && Sees(rs[1], k, 100.0);
    if l, v :| FirstMin(rs, l, v, r) || FirstMax(rs, l, v, r) {
      FirstWithSees(rs, l, v);
      SampleSees(3, cut, 50.0, l, v);
    }
    if d :| LastQuiet(rs, d, r) {
      LastOfIsIn(rs, d);
    }
  }

  lemma AloneIsKept(cut: int)
    ensures Kept([Sample(3, cut, 50.0)], Sample(3, cut, 50.0))
  {
    hide Sees;
    var r, k := Sample(3, cut, 50.0), UsageOn(cut);
    forall v ensures Sees(r, k, v) <==> v == 50.0 {
      SampleSees(3, cut, 50.0, k, v);
    }
    assert FirstMin([r], k, 50.0, r);
  }

  lemma UnalignedLoses(early: int, late: int)
    requires early <= late && !Aligned(early, late)
    ensures Sample(3, Cut(late), 50.0) in Compacted(Straddling(Cut(late)), late)
    ensures Sample(3, Cut(late), 50.0) !in Compacted(Compacted(Straddling(Cut(late)), early), late)
  {
    hide Kept, Sample;
    var cut := Cut(late);
    var rs, r := Straddling(cut), Sample(3, cut, 50.0);
    assert rs[0].at == cut - 1 && rs[1].at == cut - 1 && rs[2].at == cut by {
      SampledAt(1, cut - 1, 0.0);
      SampledAt(2, cut - 1, 100.0);
      SampledAt(3, cut, 50.0);
    }
    MiddleIsNotKept(cut);
    AloneIsKept(cut);
    FilterAll(rs, (x: Record) => Due(x, early));
    FilterIn(rs, (x: Record) => Stays(rs, early, x), r);
    var due: Record -> bool := (x: Record) => Due(x, late);
    assert rs == rs[..2] + [r];
    FilterConcat(rs[..2], [r], due);
    FilterAll([r], due);
    assert Filter(rs[..2], due) == [] by {
      assert rs[..2] == [rs[0], rs[1]];
      assert rs[..2][..1] == [rs[0]] && rs[..1][..0] == [];
    }
    assert Slice(rs, late) == [r];
    FilterIn(rs, (x: Record) => Stays(rs, late, x), r);
    var once := Compacted(rs, early);
    FilterIn(once, (x: Record) => Stays(once, late, x), r);
  }

  lemma SampledAt(id: nat, at: int, value: real)
    ensures Sample(id, at, value).at == at
  {}

  /** An early pass is harmless exactly when the later cut splits no day it had compacted. */
  lemma HarmlessExactlyWhenAligned(early: int, late: int)
    requires early <= late
    ensures EarlyPassIsHarmless(early, late) <==> Aligned(early, late)
  {
    hide Compacted;
    if Aligned(early, late) {
      forall rows: seq<Record>, more: seq<Record> | forall r: Record :: r in more ==> r.at >= Today(early)
        ensures Compacted(Compacted(rows, early) + more, late) == Compacted(rows + more, late)
      {
        LaterSamplesWait(rows, more, early);
        AlignedAbsorbs(rows + more, early, late);
      }
    } else {
      UnalignedLoses(early, late);
      var rs := Straddling(Cut(late));
      assert rs + [] == rs && Compacted(rs, early) + [] == Compacted(rs, early);
      assert Compacted(Compacted(rs, early) + [], late) != Compacted(rs + [], late);
    }
  }

  // ----- the store ----------------------------------------------------------

  ghost predicate InOrder(rows: seq<Record>) {
    forall i, j :: 0 <= i < j < |rows| ==>
      rows[i].id != rows[j].id && (rows[i].at < rows[j].at || (rows[i].at == rows[j].at && rows[i].id < rows[j].id))
  }

  lemma {:induction false} FilterInOrder(rows: seq<Record>, f: Record -> bool)
    requires InOrder(rows)
    ensures InOrder(Filter(rows, f))
  {
    if rows != [] {
      var init, last := rows[..|rows| - 1], rows[|rows| - 1];
      FilterInOrder(init, f);
      forall r | r in Filter(init, f)
        ensures r.id != last.id && (r.at < last.at || (r.at == last.at && r.id < last.id))
      {
        FilterIn(init, f, r);
        var i :| 0 <= i < |init| && init[i] == r;
        assert rows[i] == r;
      }
    }
  }

  lemma SameIdSameRow(rows: seq<Record>, a: Record, b: Record)
    requires InOrder(rows) && a in rows && b in rows && a.id == b.id
    ensures a == b
  {
    var i :| 0 <= i < |rows| && rows[i] == a;
    var j :| 0 <= j < |rows| && rows[j] == b;
    assert !(i < j) && !(j < i);
  }

  function Ids(rows: seq<Record>): set<nat> {
    set r: Record | r in rows :: r.id
  }

  lemma {:induction false} FewIds(rows: seq<Record>)
    ensures |Ids(rows)| <= |rows|
  {
    if rows != [] {
      var init, last := rows[..|rows| - 1], rows[|rows| - 1];
      assert rows == init + [last];
      FewIds(init);
      assert Ids(rows) == Ids(init) + {last.id};
    }
  }

  /** Keeping as many ids as there are records keeps every one. */
  lemma AllOfThem(rows: seq<Record>, keep: set<nat>)
    requires keep <= Ids(rows) && |keep| == |rows|
    ensures forall r :: r in rows ==> r.id in keep
  {
    FewIds(rows);
    assert Ids(rows) == keep + (Ids(rows) - keep);
    assert |Ids(rows)| == |keep| + |Ids(rows) - keep|;
  }

  /** Which rows are left while the providers in `todo` are still to be compacted. */
  ghost function Meanwhile(rows: seq<Record>, now: int, todo: set<string>): Record -> bool {
    (r: Record) => r.at >= Cut(now) && (r.at >= Today(now) || r.provider in todo || Kept(Slice(rows, now), r))
  }

  predicate Of(r: Record, provider: string, now: int) {
    r.provider == provider && Due(r, now)
  }

  ghost predicate Right(rows: seq<Record>, now: int, provider: string, keep: set<nat>) {
    forall r :: r in rows && Of(r, provider, now) ==> (r.id in keep <==> Kept(Slice(rows, now), r))
  }

  /** What the query for one provider loads, and that its scan decides as the whole would. */
  lemma ScanIsRight(rows: seq<Record>, now: int, todo: set<string>, provider: string, keep: set<nat>)
    requires InOrder(rows) && provider in todo
    requires var loaded := Filter(Filter(rows, Meanwhile(rows, now, todo)), (r: Record) => Of(r, provider, now));
             forall id :: id in keep <==> KeptId(loaded, id)
    ensures Filter(Filter(rows, Meanwhile(rows, now, todo)), (r: Record) => Of(r, provider, now)) == Filter(rows, (r: Record) => Of(r, provider, now))
    ensures Right(rows, now, provider, keep)
    ensures keep <= Ids(Filter(rows, (r: Record) => Of(r, provider, now)))
  {
    hide Kept, Filter, InOrder;
    var here: Record -> bool := (r: Record) => Of(r, provider, now);
    var mine: Record -> bool := (r: Record) => r.provider == provider;
    var left := Meanwhile(rows, now, todo);
    var due: Record -> bool := r => Due(r, now);
    FilterTwice(rows, left, here);
    FilterSame(rows, r => left(r) && here(r), here);
    FilterTwice(rows, due, mine);
    FilterSame(rows, r => due(r) && mine(r), here);
    var loaded := Filter(rows, here);
    assert loaded == Filter(Slice(rows, now), mine);
    forall id | id in keep ensures id in Ids(loaded) {
      var r :| Kept(loaded, r) && r.id == id;
      KeptIsIn(loaded, r);
    }
    forall r | r in rows && Of(r, provider, now) ensures r.id in keep <==> Kept(Slice(rows, now), r) {
      VerdictIsLocal(Slice(rows, now), mine, r);
      if r.id in keep {
        var s :| Kept(loaded, s) && s.id == r.id;
        KeptIsIn(loaded, s);
        FilterIn(rows, here, s);
        SameIdSameRow(rows, r, s);
      }
    }
  }

  /** Deleting the rest of the provider's due rows finishes that provider. */
  lemma ProviderDone(rows: seq<Record>, now: int, todo: set<string>, provider: string, keep: set<nat>)
    requires provider in todo && Right(rows, now, provider, keep)
    ensures Filter(Filter(rows, Meanwhile(rows, now, todo)), (r: Record) => !(Of(r, provider, now) && r.id !in keep))
         == Filter(rows, Meanwhile(rows, now, todo - {provider}))
  {
    hide Kept, Filter;
    var left := Meanwhile(rows, now, todo);
    var spared: Record -> bool := (r: Record) => !(Of(r, provider, now) && r.id !in keep);
    FilterTwice(rows, left, spared);
    FilterSame(rows, r => left(r) && spared(r), Meanwhile(rows, now, todo - {provider}));
  }

  /** Where a new row belongs: after all that are no later. */
  ghost predicate Splits(rows: seq<Record>, at: int, k: nat) {
    && k <= |rows|
    && (forall i :: 0 <= i < k ==> rows[i].at <= at)
    && (forall i :: k <= i < |rows| ==> rows[i].at > at)
  }

  lemma InsertedInOrder(rows: seq<Record>, r: Record, k: nat)
    requires InOrder(rows) && Splits(rows, r.at, k) && forall i :: 0 <= i < |rows| ==> rows[i].id < r.id
    ensures InOrder(rows[..k] + [r] + rows[k..])
  {
    var more := rows[..k] + [r] + rows[k..];
    forall i, j | 0 <= i < j < |more|
      ensures more[i].id != more[j].id && (more[i].at < more[j].at || (more[i].at == more[j].at && more[i].id < more[j].id))
    {
      if i != k && j != k {
        var a, b := if i < k then i else i - 1, if j < k then j else j - 1;
        assert more[i] == rows[a] && more[j] == rows[b];
      }
    }
  }

  lemma FilterKeepsBelow(rows: seq<Record>, f: Record -> bool, bound: nat)
    requires forall i :: 0 <= i < |rows| ==> rows[i].id < bound
    ensures forall i :: 0 <= i < |Filter(rows, f)| ==> Filter(rows, f)[i].id < bound
  {
    forall i | 0 <= i < |Filter(rows, f)| ensures Filter(rows, f)[i].id < bound {
      FilterIn(rows, f, Filter(rows, f)[i]);
    }
  }

  class GormStore {
    /** The history, in the order the scan reads it. */
    var rows: seq<Record>
    /** Ids are handed out in order and never again. */
    var nextId: nat

    ghost predicate Valid()
      reads this
    {
      InOrder(rows) && forall i :: 0 <= i < |rows| ==> rows[i].id < nextId
    }

    constructor ()
      ensures Valid() && rows == [] && nextId == 1
    {
      rows, nextId := [], 1;
    }

    /** Adds a sample under a new id, in its place; the latest sample goes to the end. */
    method Save(provider: string, at: int, windows: seq<Option<Window>>) returns (r: Record)
      requires Valid()
      modifies this
      ensures Valid() && r == Record(old(nextId), provider, at, windows) && nextId == old(nextId) + 1
      ensures exists k: nat :: Splits(old(rows), at, k) && rows == old(rows)[..k] + [r] + old(rows)[k..]
      ensures (forall i :: 0 <= i < |old(rows)| ==> old(rows)[i].at <= at) ==> rows == old(rows) + [r]
    {
      r := Record(nextId, provider, at, windows);
      var k: nat := |rows|;
      while k > 0 && rows[k - 1].at > at
        invariant 0 <= k <= |rows|
        invariant forall i :: k <= i < |rows| ==> rows[i].at > at
      {
        k := k - 1;
      }
      assert Splits(rows, at, k) by {
        forall i | 0 <= i < k ensures rows[i].at <= at {
          assert i < k - 1 ==> rows[i].at <= rows[k - 1].at;
        }
      }
      InsertedInOrder(rows, r, k);
      assert k == |rows| ==> rows[..k] + [r] + rows[k..] == rows + [r];
      rows := rows[..k] + [r] + rows[k..];
      nextId := nextId + 1;
    }

    /** Keeps today's samples and the extremes of the completed days, and drops what has expired. */
    method CompactHistory(now: int)
      requires Valid()
      modifies this
      ensures Valid()
      ensures rows == Compacted(old(rows), now) && nextId == old(nextId)
    {
      hide Kept, Filter, KeptId, Right;
      ghost var before := rows;
      FilterInOrder(before, (r: Record) => Stays(before, now, r));
      FilterKeepsBelow(before, (r: Record) => Stays(before, now, r), nextId);
      rows := Filter(rows, (r: Record) => r.at >= Cut(now));
      var todo := Providers(now);
      Started(before, now, todo);
      while todo != {}
        invariant rows == Filter(before, Meanwhile(before, now, todo)) && nextId == old(nextId)
        decreases |todo|
      {
        var provider :| provider in todo;
        var records := Filter(rows, (r: Record) => Of(r, provider, now));
        var keep := QuotaDailyExtremes(records);
        ScanIsRight(before, now, todo, provider, keep);
        ProviderDone(before, now, todo, provider, keep);
        if |keep| == |records| {
          AllOfThem(records, keep);
          NothingToDelete(rows, records, provider, now, keep);
        } else {
          rows := Filter(rows, (r: Record) => !(Of(r, provider, now) && r.id !in keep));
        }
        todo := todo - {provider};
      }
      Finished(before, now);
    }

    /** Who has rows to compact. */
    method Providers(now: int) returns (providers: set<string>)
      ensures providers == set r: Record | r in rows && Due(r, now) :: r.provider
    {
      providers := set r: Record | r in rows && Due(r, now) :: r.provider;
    }
  }

  lemma NothingToDelete(rows: seq<Record>, records: seq<Record>, provider: string, now: int, keep: set<nat>)
    requires records == Filter(rows, (r: Record) => Of(r, provider, now))
    requires forall r :: r in records ==> r.id in keep
    ensures Filter(rows, (r: Record) => !(Of(r, provider, now) && r.id !in keep)) == rows
  {
    forall r | r in rows ensures !(Of(r, provider, now) && r.id !in keep) {
      FilterIn(rows, (x: Record) => Of(x, provider, now), r);
    }
    FilterAll(rows, (r: Record) => !(Of(r, provider, now) && r.id !in keep));
  }

  lemma Started(rows: seq<Record>, now: int, todo: set<string>)
    requires var live := Filter(rows, (r: Record) => r.at >= Cut(now));
             todo == set r: Record | r in live && Due(r, now) :: r.provider
    ensures Filter(rows, (r: Record) => r.at >= Cut(now)) == Filter(rows, Meanwhile(rows, now, todo))
  {
    hide Kept, Filter;
    forall r | r in rows && Due(r, now) ensures r.provider in todo {
      FilterIn(rows, (x: Record) => x.at >= Cut(now), r);
    }
    FilterSame(rows, (r: Record) => r.at >= Cut(now), Meanwhile(rows, now, todo));
  }

  lemma Finished(rows: seq<Record>, now: int)
    ensures Filter(rows, Meanwhile(rows, now, {})) == Compacted(rows, now)
  {
    hide Kept;
    FilterSame(rows, Meanwhile(rows, now, {}), (r: Record) => Stays(rows, now, r));
  }
}
