/** What the quota chart draws, and what that makes compaction keep. */
module QuotaCharts {
  import opened Prelude
  import opened Compaction

  /** One line of the chart: whose, of which day, of which window, and whether in percent. */
  datatype Series = Series(
    provider: string, day: int, key: string, minutes: int, unit: string, currency: string, percent: bool)

  predicate OnDay(r: Record, day: int) {
    day * 86400 <= r.at < (day + 1) * 86400
  }

  /** The window counts towards a limit that is known. */
  predicate Limited(w: Window) {
    w.limit > 0.0 && !w.unlimited && !w.unknown
  }

  /** x is y, held within 0 and 100. */
  predicate HeldWithin(x: real, y: real) {
    && 0.0 <= x <= 100.0
    && (y < 0.0 ==> x == 0.0) && (y > 100.0 ==> x == 100.0) && (0.0 <= y <= 100.0 ==> x == y)
  }

  /**
   The number a window shows: the percentage that is left of a limit, as reported or else as what
   is not used; without a limit, whatever is reported to be left.
   */
  predicate Displays(w: Window, percent: bool, x: real) {
    if Limited(w) then
      percent && HeldWithin(x, if w.available.Some? then 100.0 * w.available.value / w.limit else 100.0 - w.usedPercent)
    else !percent && w.available == Some(x)
  }

  predicate Belongs(r: Record, w: Window, s: Series) {
    && r.provider == s.provider && OnDay(r, s.day)
    && w.key == s.key && w.minutes == s.minutes && w.unit == s.unit && w.currency == s.currency
  }

  ghost predicate Draws(r: Record, s: Series, x: real) {
    exists j :: 0 <= j < |r.windows| && r.windows[j].Some?
             && Belongs(r, r.windows[j].value, s) && Displays(r.windows[j].value, s.percent, x)
  }

  // ----- which windows share a line ------------------------------------------

  /** A slot shows no number exactly when it is empty, or has no limit and nothing reported to be left. */
  lemma NoNumberExactlyWhen(r: Record, w: Option<Window>)
    ensures Observed(r, w).None? <==> w.None? || (!Limited(w.value) && w.value.available.None?)
    ensures w.None? || (!Limited(w.value) && w.value.available.None?) <==>
            forall percent, x :: w.Some? ==> !Displays(w.value, percent, x)
  {
    if w.Some? && Limited(w.value) {
      var y := if w.value.available.Some? then 100.0 * w.value.available.value / w.value.limit else 100.0 - w.value.usedPercent;
      assert Displays(w.value, true, Clamp(y));
    } else if w.Some? && w.value.available.Some? {
      assert Displays(w.value, false, w.value.available.value);
    }
  }

  /** Two numbers are compared exactly when they belong on one line. */
  lemma SameKeyExactlyWhen(r: Record, v: Window, q: Record, w: Window)
    requires Observed(r, Some(v)).Some? && Observed(q, Some(w)).Some?
    ensures Observed(r, Some(v)).value.key == Observed(q, Some(w)).value.key <==>
              && r.provider == q.provider && (exists day :: OnDay(r, day) && OnDay(q, day))
              && v.key == w.key && v.minutes == w.minutes && v.unit == w.unit && v.currency == w.currency
              && Limited(v) == Limited(w)
  {
    DayIs(r);
    DayIs(q);
  }

  lemma DayIs(r: Record)
    ensures OnDay(r, r.at / DAY)
    ensures forall day :: OnDay(r, day) ==> day == r.at / DAY
  {
    forall day | OnDay(r, day) ensures day == r.at / DAY {
      OneDay(r.at, day, r.at / DAY);
    }
  }

  lemma OneDay(at: int, a: int, b: int)
    requires a * 86400 <= at < (a + 1) * 86400 && b * 86400 <= at < (b + 1) * 86400
    ensures a == b
  {}

  function KeyOf(s: Series): Key {
    Key(Day(s.provider, s.day), s.key, s.minutes, s.unit, s.currency, if s.percent then Percent else Available)
  }

  function SeriesOf(k: Key): Series {
    Series(k.day.provider, k.day.number, k.key, k.minutes, k.unit, k.currency, k.mode.Percent?)
  }

  lemma KeysAreSeries(k: Key)
    ensures KeyOf(SeriesOf(k)) == k
  {}

  lemma ClampIsHeld(x: real, y: real)
    ensures HeldWithin(x, y) <==> x == Clamp(y)
  {}

  lemma ShareIs(a: real, limit: real)
    requires limit > 0.0
    ensures a / limit * 100.0 == 100.0 * a / limit
  {}

  lemma WindowDraws(r: Record, w: Window, s: Series, x: real)
    ensures Observed(r, Some(w)) == Some(Obs(KeyOf(s), x)) <==> Belongs(r, w, s) && Displays(w, s.percent, x)
  {
    DayIs(r);
    if Limited(w) {
      if w.available.Some? {
        ShareIs(w.available.value, w.limit);
        ClampIsHeld(x, 100.0 * w.available.value / w.limit);
      } else {
        ClampIsHeld(x, 100.0 - w.usedPercent);
      }
    }
  }

  lemma SeesWhatIsDrawn(r: Record, s: Series, x: real)
    ensures Sees(r, KeyOf(s), x) <==> Draws(r, s, x)
  {
    hide Belongs, Displays, Observed;
    forall j | 0 <= j < |r.windows| && r.windows[j].Some?
      ensures Observed(r, r.windows[j]) == Some(Obs(KeyOf(s), x)) <==>
              Belongs(r, r.windows[j].value, s) && Displays(r.windows[j].value, s.percent, x)
    {
      WindowDraws(r, r.windows[j].value, s, x);
    }
    NothingFromNothing(r);
  }

  lemma NothingFromNothing(r: Record)
    ensures Observed(r, None) == None
  {}

  // ----- what is worth keeping ------------------------------------------------

  /** The first record to show the line's lowest number. */
  ghost predicate ShowsLowest(rs: seq<Record>, i: int, s: Series, x: real) {
    && 0 <= i < |rs| && Draws(rs[i], s, x)
    && (forall j, y :: 0 <= j < |rs| && Draws(rs[j], s, y) ==> x <= y)
    && (forall j :: 0 <= j < i ==> !Draws(rs[j], s, x))
  }

  ghost predicate ShowsHighest(rs: seq<Record>, i: int, s: Series, x: real) {
    && 0 <= i < |rs| && Draws(rs[i], s, x)
    && (forall j, y :: 0 <= j < |rs| && Draws(rs[j], s, y) ==> y <= x)
    && (forall j :: 0 <= j < i ==> !Draws(rs[j], s, x))
  }

  /** The last record of a provider's day on which there is nothing to draw. */
  ghost predicate LastOfBlankDay(rs: seq<Record>, i: int, day: int) {
    && 0 <= i < |rs| && OnDay(rs[i], day)
    && (forall j, s, x :: 0 <= j < |rs| && Draws(rs[j], s, x) ==> !(s.provider == rs[i].provider && s.day == day))
    && (forall j :: i < j < |rs| ==> !(rs[j].provider == rs[i].provider && OnDay(rs[j], day)))
  }

  ghost predicate WorthKeeping(rs: seq<Record>, i: int) {
    || (exists s, x :: ShowsLowest(rs, i, s, x))
    || (exists s, x :: ShowsHighest(rs, i, s, x))
    || (exists day :: LastOfBlankDay(rs, i, day))
  }

  lemma {:induction false} FirstWithIs(rs: seq<Record>, k: Key, v: real, r: Record)
    ensures FirstWith(rs, k, v) == Some(r) <==>
            exists i :: 0 <= i < |rs| && rs[i] == r && Sees(rs[i], k, v) && forall j :: 0 <= j < i ==> !Sees(rs[j], k, v)
  {
    hide Sees;
    if rs != [] && !Sees(rs[0], k, v) {
      FirstWithIs(rs[1..], k, v, r);
      assert forall j :: 0 < j < |rs| ==> rs[j] == rs[1..][j - 1];
      if FirstWith(rs, k, v) == Some(r) {
        var i :| 0 <= i < |rs[1..]| && rs[1..][i] == r && Sees(rs[1..][i], k, v) && forall j :: 0 <= j < i ==> !Sees(rs[1..][j], k, v);
        assert rs[i + 1] == r;
      }
      if i :| 0 <= i < |rs| && rs[i] == r && Sees(rs[i], k, v) && forall j :: 0 <= j < i ==> !Sees(rs[j], k, v) {
        assert rs[1..][i - 1] == r;
        assert forall j :: 0 <= j < i - 1 ==> rs[1..][j] == rs[j + 1];
      }
    }
  }

  lemma {:induction false} LastOfIs(rs: seq<Record>, d: Day, r: Record)
    ensures LastOf(rs, d) == Some(r) <==>
            exists i :: 0 <= i < |rs| && rs[i] == r && DayOf(rs[i]) == d && forall j :: i < j < |rs| ==> DayOf(rs[j]) != d
  {
    if rs != [] {
      var n := |rs| - 1;
      if DayOf(rs[n]) != d {
        LastOfIs(rs[..n], d, r);
        assert forall j :: 0 <= j < n ==> rs[j] == rs[..n][j];
      }
    }
  }

  ghost predicate Lowest(rs: seq<Record>, s: Series, x: real, r: Record) {
    exists i :: ShowsLowest(rs, i, s, x) && rs[i] == r
  }

  ghost predicate Highest(rs: seq<Record>, s: Series, x: real, r: Record) {
    exists i :: ShowsHighest(rs, i, s, x) && rs[i] == r
  }

  lemma LowestIs(rs: seq<Record>, s: Series, x: real, r: Record)
    ensures FirstMin(rs, KeyOf(s), x, r) <==> Lowest(rs, s, x, r)
    ensures FirstMax(rs, KeyOf(s), x, r) <==> Highest(rs, s, x, r)
  {
    hide Sees, Draws, FirstWith;
    forall j, y | 0 <= j < |rs| ensures Sees(rs[j], KeyOf(s), y) <==> Draws(rs[j], s, y) {
      SeesWhatIsDrawn(rs[j], s, y);
    }
    FirstWithIs(rs, KeyOf(s), x, r);
    if FirstWith(rs, KeyOf(s), x) == Some(r) {
      var i :| 0 <= i < |rs| && rs[i] == r && Sees(rs[i], KeyOf(s), x) && forall j :: 0 <= j < i ==> !Sees(rs[j], KeyOf(s), x);
      assert AllAtLeast(rs, KeyOf(s), x) ==> ShowsLowest(rs, i, s, x);
      assert AllAtMost(rs, KeyOf(s), x) ==> ShowsHighest(rs, i, s, x);
    }
  }

  lemma BlankIs(rs: seq<Record>, d: Day, r: Record)
    ensures LastQuiet(rs, d, r) <==> exists i :: LastOfBlankDay(rs, i, d.number) && rs[i] == r && r.provider == d.provider
  {
    hide Sees, Draws, LastOf, OnDay;
    LastOfIs(rs, d, r);
    QuietIsBlank(rs, d);
    forall j | 0 <= j < |rs| ensures DayOf(rs[j]) == d <==> rs[j].provider == d.provider && OnDay(rs[j], d.number) {
      DayIs(rs[j]);
    }
    if LastQuiet(rs, d, r) {
      var i :| 0 <= i < |rs| && rs[i] == r && DayOf(rs[i]) == d && forall j :: i < j < |rs| ==> DayOf(rs[j]) != d;
      assert LastOfBlankDay(rs, i, d.number);
    }
  }

  lemma QuietIsBlank(rs: seq<Record>, d: Day)
    ensures Quiet(rs, d) <==>
            forall j, s, x :: 0 <= j < |rs| && Draws(rs[j], s, x) ==> !(s.provider == d.provider && s.day == d.number)
  {
    hide Sees, Draws;
    forall j, s, x | 0 <= j < |rs| ensures Sees(rs[j], KeyOf(s), x) <==> Draws(rs[j], s, x) {
      SeesWhatIsDrawn(rs[j], s, x);
    }
    if !Quiet(rs, d) {
      var j, k, x :| 0 <= j < |rs| && Sees(rs[j], k, x) && k.day == d;
      KeysAreSeries(k);
      assert Draws(rs[j], SeriesOf(k), x);
    }
    if j, s, x :| 0 <= j < |rs| && Draws(rs[j], s, x) && s.provider == d.provider && s.day == d.number {
      assert Sees(rs[j], KeyOf(s), x);
    }
  }

  /**
   Compaction keeps exactly the records that were first to show a line's lowest or highest number,
   and the last record of every day of a provider on which there is nothing to draw.
   */
  lemma KeptExactlyWhenWorthIt(rs: seq<Record>, r: Record)
    ensures Kept(rs, r) <==> exists i :: 0 <= i < |rs| && rs[i] == r && WorthKeeping(rs, i)
  {
    hide FirstMin, FirstMax, LastQuiet, Draws, OnDay;
    if Kept(rs, r) {
      if k, v :| FirstMin(rs, k, v, r) {
        KeysAreSeries(k);
        LowestIs(rs, SeriesOf(k), v, r);
      } else if k, v :| FirstMax(rs, k, v, r) {
        KeysAreSeries(k);
        LowestIs(rs, SeriesOf(k), v, r);
      } else {
        var d :| LastQuiet(rs, d, r);
        BlankIs(rs, d, r);
      }
    }
    if i :| 0 <= i < |rs| && rs[i] == r && WorthKeeping(rs, i) {
      if s, x :| ShowsLowest(rs, i, s, x) {
        LowestIs(rs, s, x, r);
      } else if s, x :| ShowsHighest(rs, i, s, x) {
        LowestIs(rs, s, x, r);
      } else {
        var day :| LastOfBlankDay(rs, i, day);
        BlankIs(rs, Day(r.provider, day), r);
      }
    }
  }
}
