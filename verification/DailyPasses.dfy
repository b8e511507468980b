/** Compacting again and again: what any number of passes leaves, against one. */
module DailyPasses {
  import opened Prelude
  import opened Compaction
  import opened QuotaHistory

  /** The samples taken since the last pass, and the pass that follows them. */
  datatype Pass = Pass(samples: seq<Record>, now: int)

  /** Time goes on, and no sample is older than the day of the pass before it. */
  predicate Orderly(passes: seq<Pass>) {
    && (forall i :: 0 <= i < |passes| - 1 ==> passes[i].now <= passes[i + 1].now)
    && (forall i, r :: 0 < i < |passes| && r in passes[i].samples ==> r.at >= Today(passes[i - 1].now))
  }

  /** What is left after compacting at every pass. */
  ghost function AfterAll(passes: seq<Pass>): seq<Record> {
    if passes == [] then []
    else
      var last := passes[|passes| - 1];
      Compacted(AfterAll(passes[..|passes| - 1]) + last.samples, last.now)
  }

  /** Every sample there has been. */
  ghost function Samples(passes: seq<Pass>): seq<Record> {
    if passes == [] then [] else Samples(passes[..|passes| - 1]) + passes[|passes| - 1].samples
  }

  /** What is left after compacting at the last pass only. */
  ghost function AfterOne(passes: seq<Pass>): seq<Record>
    requires passes != []
  {
    Compacted(Samples(passes), passes[|passes| - 1].now)
  }

  ghost function OnDay(rows: seq<Record>, d: Day): seq<Record> {
    Filter(rows, OfDay(d))
  }

  // ----- a day is compacted on its own --------------------------------------

  lemma SliceOfDay(rows: seq<Record>, now: int, d: Day)
    ensures Slice(OnDay(rows, d), now) == OnDay(Slice(rows, now), d)
  {
    var due: Record -> bool := r => Due(r, now);
    var day := OfDay(d);
    FilterTwice(rows, day, due);
    FilterTwice(rows, due, day);
    FilterSame(rows, r => day(r) && due(r), r => due(r) && day(r));
  }

  lemma FateOfDay(rows: seq<Record>, now: int, d: Day, r: Record)
    requires DayOf(r) == d
    ensures Stays(OnDay(rows, d), now, r) <==> Stays(rows, now, r)
  {
    hide Kept, Slice;
    SliceOfDay(rows, now, d);
    VerdictIsLocal(Slice(rows, now), OfDay(d), r);
  }

  lemma CompactedByDay(rows: seq<Record>, now: int, d: Day)
    ensures OnDay(Compacted(rows, now), d) == Compacted(OnDay(rows, d), now)
  {
    hide Stays;
    var day := OfDay(d);
    var all: Record -> bool := r => Stays(rows, now, r);
    var own: Record -> bool := r => Stays(OnDay(rows, d), now, r);
    FilterTwice(rows, all, day);
    FilterTwice(rows, day, own);
    forall r | r in rows ensures (all(r) && day(r)) == (day(r) && own(r)) {
      if day(r) {
        FateOfDay(rows, now, d, r);
      }
    }
    FilterSame(rows, r => all(r) && day(r), r => day(r) && own(r));
  }

  /** What a pass leaves of a day depends on what it finds of that day. */
  lemma SameDaySameRest(a: seq<Record>, b: seq<Record>, more: seq<Record>, now: int, d: Day)
    requires OnDay(a, d) == OnDay(b, d)
    ensures OnDay(Compacted(a + more, now), d) == OnDay(Compacted(b + more, now), d)
  {
    hide Compacted;
    CompactedByDay(a + more, now, d);
    CompactedByDay(b + more, now, d);
    FilterConcat(a, more, OfDay(d));
    FilterConcat(b, more, OfDay(d));
  }

  /** An earlier pass does not show on a day the later one does not cut. */
  lemma EarlierPassDoesNotShow(rows: seq<Record>, more: seq<Record>, early: int, late: int, d: Day)
    requires early <= late && (forall r :: r in more ==> r.at >= Today(early)) && d.number != Cut(late) / DAY
    ensures OnDay(Compacted(Compacted(rows, early) + more, late), d) == OnDay(Compacted(rows + more, late), d)
  {
    hide Stays;
    var all := rows + more;
    LaterSamplesWait(rows, more, early);
    var once := Compacted(all, early);
    var f: Record -> bool := r => Stays(all, early, r);
    var g: Record -> bool := r => Stays(once, late, r);
    var h: Record -> bool := r => Stays(all, late, r);
    var day := OfDay(d);
    var both: Record -> bool := r => f(r) && g(r);
    FilterTwice(all, f, g);
    FilterTwice(all, both, day);
    FilterTwice(all, h, day);
    forall r | r in all ensures (both(r) && day(r)) == (h(r) && day(r)) {
      if day(r) {
        SameFate(all, early, late, r);
      }
    }
    FilterSame(all, r => both(r) && day(r), r => h(r) && day(r));
  }

  /** A day that lies before the one being cut is gone. */
  lemma EarlierDaysAreGone(rows: seq<Record>, now: int, d: Day)
    requires d.number < Cut(now) / DAY
    ensures OnDay(Compacted(rows, now), d) == []
  {
    var left := OnDay(Compacted(rows, now), d);
    if left != [] {
      var r := left[0];
      FilterIn(Compacted(rows, now), OfDay(d), r);
      FilterIn(rows, x => Stays(rows, now, x), r);
      assert false;
    }
  }

  // ----- any number of passes -----------------------------------------------

  /**
   However many passes there have been, only the day that the last one cuts can differ from what
   a single pass at the end would have left; on every other day they agree record by record.
   */
  lemma {:induction false} OnlyTheLastCutCanDiffer(passes: seq<Pass>, d: Day)
    requires passes != [] && Orderly(passes) && d.number != Cut(passes[|passes| - 1].now) / DAY
    ensures OnDay(AfterAll(passes), d) == OnDay(AfterOne(passes), d)
  {
    hide Compacted, OnDay;
    var n := |passes| - 1;
    var last, before := passes[n], passes[..n];
    if n == 0 {
      assert Samples(before) == [] && AfterAll(before) == [];
    } else {
      var prior := before[n - 1];
      assert prior == passes[n - 1] && prior.now <= last.now;
      EarlierPassDoesNotShow(Samples(before), last.samples, prior.now, last.now, d);
      if d.number == Cut(prior.now) / DAY {
        CutsAdvance(prior.now, last.now);
        EarlierDaysAreGone(AfterAll(before) + last.samples, last.now, d);
        EarlierDaysAreGone(Samples(before) + last.samples, last.now, d);
      } else {
        StillOrderly(passes);
        OnlyTheLastCutCanDiffer(before, d);
        SameDaySameRest(AfterAll(before), AfterOne(before), last.samples, last.now, d);
      }
    }
  }

  lemma CutsAdvance(early: int, late: int)
    requires early <= late
    ensures Cut(early) / DAY <= Cut(late) / DAY
  {}

  lemma StillOrderly(passes: seq<Pass>)
    requires passes != [] && Orderly(passes)
    ensures Orderly(passes[..|passes| - 1])
  {
    var before := passes[..|passes| - 1];
    assert forall i :: 0 <= i < |before| ==> before[i] == passes[i];
  }

  /** Record by record. */
  lemma PassesAgreeOffTheCut(passes: seq<Pass>, r: Record)
    requires passes != [] && Orderly(passes) && r.at / DAY != Cut(passes[|passes| - 1].now) / DAY
    ensures r in AfterAll(passes) <==> r in AfterOne(passes)
  {
    hide AfterAll, AfterOne;
    OnlyTheLastCutCanDiffer(passes, DayOf(r));
    FilterIn(AfterAll(passes), OfDay(DayOf(r)), r);
    FilterIn(AfterOne(passes), OfDay(DayOf(r)), r);
  }
}
