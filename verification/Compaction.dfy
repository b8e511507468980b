/**
 Which quota samples compaction keeps, and why compacting a part early loses nothing: dropping what
 is not kept changes no verdict on what is left.
 */
module Compaction {
  /*
   A record is kept when it is the first to show some window's lowest or highest value of
   its day, or the last of a day on which its provider reported no number at all.
   */

  import opened Prelude

  datatype Window = Window(
    key: string, minutes: int, unit: string, currency: string,
    unknown: bool, unlimited: bool, limit: real, usedPercent: real, available: Option<real>)

  /** `at` is the fetch time in local seconds; a window slot may be empty. */
  datatype Record = Record(id: nat, provider: string, at: int, windows: seq<Option<Window>>)

  datatype Day = Day(provider: string, number: int)

  datatype Mode = Percent | Available

  datatype Key = Key(day: Day, key: string, minutes: int, unit: string, currency: string, mode: Mode)

  datatype Obs = Obs(key: Key, value: real)

  const DAY := 24 * 60 * 60

  function DayOf(r: Record): Day {
    Day(r.provider, r.at / DAY)
  }

  function Clamp(x: real): real {
    if x < 0.0 then 0.0 else if x > 100.0 then 100.0 else x
  }

  predicate Countable(w: Window) {
    !w.unknown && !w.unlimited && w.limit > 0.0
  }

  /** The number a window contributes, the one the chart shows: none for an empty or numberless one. */
  function Observed(r: Record, w: Option<Window>): Option<Obs> {
    match w
    case None => None
    case Some(win) =>
      if Countable(win) then
        var value := if win.available.Some? then Clamp(win.available.value / win.limit * 100.0)
                     else Clamp(100.0 - win.usedPercent);
        Some(Obs(Key(DayOf(r), win.key, win.minutes, win.unit, win.currency, Percent), value))
      else if win.available.Some? then
        Some(Obs(Key(DayOf(r), win.key, win.minutes, win.unit, win.currency, Available), win.available.value))
      else None
  }

  // ----- what is kept -------------------------------------------------------

  /** Record r shows value v for key k. */
  ghost predicate Sees(r: Record, k: Key, v: real) {
    exists j :: 0 <= j < |r.windows| && Observed(r, r.windows[j]) == Some(Obs(k, v))
  }

  ghost predicate AllAtLeast(rs: seq<Record>, k: Key, v: real) {
    forall i, u :: 0 <= i < |rs| && Sees(rs[i], k, u) ==> u >= v
  }

  ghost predicate AllAtMost(rs: seq<Record>, k: Key, v: real) {
    forall i, u :: 0 <= i < |rs| && Sees(rs[i], k, u) ==> u <= v
  }

  /** The first record to show value v for key k. */
  ghost function FirstWith(rs: seq<Record>, k: Key, v: real): Option<Record> {
    if rs == [] then None
    else if Sees(rs[0], k, v) then Some(rs[0])
    else FirstWith(rs[1..], k, v)
  }

  ghost predicate Quiet(rs: seq<Record>, d: Day) {
    forall i, k, u :: 0 <= i < |rs| && Sees(rs[i], k, u) ==> k.day != d
  }

  ghost function LastOf(rs: seq<Record>, d: Day): Option<Record> {
    if rs == [] then None
    else if DayOf(rs[|rs| - 1]) == d then Some(rs[|rs| - 1])
    else LastOf(rs[..|rs| - 1], d)
  }

  ghost predicate FirstMin(rs: seq<Record>, k: Key, v: real, r: Record) {
    AllAtLeast(rs, k, v) && FirstWith(rs, k, v) == Some(r)
  }

  ghost predicate FirstMax(rs: seq<Record>, k: Key, v: real, r: Record) {
    AllAtMost(rs, k, v) && FirstWith(rs, k, v) == Some(r)
  }

  ghost predicate LastQuiet(rs: seq<Record>, d: Day, r: Record) {
    Quiet(rs, d) && LastOf(rs, d) == Some(r)
  }

  ghost predicate Kept(rs: seq<Record>, r: Record) {
    || (exists k, v :: FirstMin(rs, k, v, r))
    || (exists k, v :: FirstMax(rs, k, v, r))
    || (exists d :: LastQuiet(rs, d, r))
  }

  ghost function Compact(rs: seq<Record>): seq<Record> {
    Filter(rs, r => Kept(rs, r))
  }

  // ----- filters ------------------------------------------------------------

  function Filter(rs: seq<Record>, f: Record -> bool): seq<Record> {
    if rs == [] then []
    else Filter(rs[..|rs| - 1], f) + (if f(rs[|rs| - 1]) then [rs[|rs| - 1]] else [])
  }

  lemma {:induction false} FilterIn(rs: seq<Record>, f: Record -> bool, r: Record)
    ensures r in Filter(rs, f) <==> r in rs && f(r)
  {
    if rs != [] {
      var n := |rs| - 1;
      FilterIn(rs[..n], f, r);
      assert rs == rs[..n] + [rs[n]];
    }
  }

  lemma {:induction false} FilterConcat(a: seq<Record>, b: seq<Record>, f: Record -> bool)
    ensures Filter(a + b, f) == Filter(a, f) + Filter(b, f)
  {
    if b == [] {
      assert a + b == a;
    } else {
      var n := |b| - 1;
      assert (a + b)[..|a + b| - 1] == a + b[..n] && (a + b)[|a + b| - 1] == b[n];
      FilterConcat(a, b[..n], f);
    }
  }

  lemma {:induction false} FilterSame(rs: seq<Record>, f: Record -> bool, g: Record -> bool)
    requires forall r :: r in rs ==> f(r) == g(r)
    ensures Filter(rs, f) == Filter(rs, g)
  {
    if rs != [] {
      var n := |rs| - 1;
      assert forall r :: r in rs[..n] ==> r in rs;
      FilterSame(rs[..n], f, g);
    }
  }

  lemma {:induction false} FilterTwice(rs: seq<Record>, f: Record -> bool, g: Record -> bool)
    ensures Filter(Filter(rs, f), g) == Filter(rs, r => f(r) && g(r))
  {
    if rs != [] {
      var n := |rs| - 1;
      FilterTwice(rs[..n], f, g);
      var kept := Filter(rs[..n], f);
      if f(rs[n]) {
        assert (kept + [rs[n]])[..|kept|] == kept;
      } else {
        assert kept + [] == kept;
      }
    }
  }

  lemma {:induction false} FilterAll(rs: seq<Record>, f: Record -> bool)
    requires forall r :: r in rs ==> f(r)
    ensures Filter(rs, f) == rs
  {
    if rs != [] {
      var init, last := rs[..|rs| - 1], rs[|rs| - 1];
      assert rs == init + [last];
      FilterAll(init, f);
    }
  }

  /** Filtering seen from the front. */
  lemma FilterFront(rs: seq<Record>, f: Record -> bool)
    requires rs != []
    ensures Filter(rs, f) == (if f(rs[0]) then [rs[0]] else []) + Filter(rs[1..], f)
  {
    assert rs == [rs[0]] + rs[1..];
    FilterConcat([rs[0]], rs[1..], f);
    assert [rs[0]][..0] == [];
  }

  // ----- filtering away what is not kept changes nothing --------------------

  lemma {:induction false} FirstWithFiltered(rs: seq<Record>, f: Record -> bool, k: Key, v: real)
    requires FirstWith(rs, k, v).Some? ==> f(FirstWith(rs, k, v).value)
    ensures FirstWith(Filter(rs, f), k, v) == FirstWith(rs, k, v)
  {
    if rs != [] {
      FilterFront(rs, f);
      var rest := Filter(rs[1..], f);
      if Sees(rs[0], k, v) {
        assert ([rs[0]] + rest)[0] == rs[0];
      } else {
        FirstWithFiltered(rs[1..], f, k, v);
        assert f(rs[0]) ==> ([rs[0]] + rest)[1..] == rest;
        assert [] + rest == rest;
      }
    }
  }

  lemma {:induction false} LastOfFiltered(rs: seq<Record>, f: Record -> bool, d: Day)
    requires LastOf(rs, d).Some? ==> f(LastOf(rs, d).value)
    ensures LastOf(Filter(rs, f), d) == LastOf(rs, d)
  {
    if rs != [] {
      var n := |rs| - 1;
      var rest := Filter(rs[..n], f);
      if DayOf(rs[n]) != d {
        LastOfFiltered(rs[..n], f, d);
        assert f(rs[n]) ==> (rest + [rs[n]])[..|rest|] == rest;
        assert rest + [] == rest;
      }
    }
  }

  lemma {:induction false} FirstWithSees(rs: seq<Record>, k: Key, v: real)
    ensures FirstWith(rs, k, v).Some? ==> FirstWith(rs, k, v).value in rs && Sees(FirstWith(rs, k, v).value, k, v)
    ensures FirstWith(rs, k, v).None? ==> forall i :: 0 <= i < |rs| ==> !Sees(rs[i], k, v)
  {
    if rs != [] && !Sees(rs[0], k, v) {
      FirstWithSees(rs[1..], k, v);
      assert forall i :: 0 < i < |rs| ==> rs[i] == rs[1..][i - 1];
    }
  }

  ghost function Values(rs: seq<Record>, k: Key): set<real> {
    set i, j | 0 <= i < |rs| && 0 <= j < |rs[i].windows| && Observed(rs[i], rs[i].windows[j]).Some?
               && Observed(rs[i], rs[i].windows[j]).value.key == k
             :: Observed(rs[i], rs[i].windows[j]).value.value
  }

  lemma ValuesAreSeen(rs: seq<Record>, k: Key, u: real)
    ensures u in Values(rs, k) <==> exists i :: 0 <= i < |rs| && Sees(rs[i], k, u)
  {}

  lemma {:induction false} LowestIn(s: set<real>, u: real) returns (m: real)
    requires u in s
    ensures m in s && forall x :: x in s ==> m <= x
    decreases |s|
  {
    m := u;
    if x :| x in s && x < u {
      m := LowestIn(s - {u}, x);
      assert forall y :: y in s ==> y == u || y in s - {u};
    }
  }

  lemma {:induction false} HighestIn(s: set<real>, u: real) returns (m: real)
    requires u in s
    ensures m in s && forall x :: x in s ==> m >= x
    decreases |s|
  {
    m := u;
    if x :| x in s && x > u {
      m := HighestIn(s - {u}, x);
      assert forall y :: y in s ==> y == u || y in s - {u};
    }
  }

  /** A key that is seen at all has a lowest value, and a highest. */
  lemma LowestExists(rs: seq<Record>, k: Key, i: nat, u: real) returns (v: real, r: Record)
    requires i < |rs| && Sees(rs[i], k, u)
    ensures FirstMin(rs, k, v, r) && v <= u
  {
    hide Sees, Values;
    ValuesAreSeen(rs, k, u);
    v := LowestIn(Values(rs, k), u);
    forall h, w | 0 <= h < |rs| && Sees(rs[h], k, w) ensures w >= v {
      ValuesAreSeen(rs, k, w);
    }
    ValuesAreSeen(rs, k, v);
    FirstWithSees(rs, k, v);
    r := FirstWith(rs, k, v).value;
  }

  lemma HighestExists(rs: seq<Record>, k: Key, i: nat, u: real) returns (v: real, r: Record)
    requires i < |rs| && Sees(rs[i], k, u)
    ensures FirstMax(rs, k, v, r) && v >= u
  {
    hide Sees, Values;
    ValuesAreSeen(rs, k, u);
    v := HighestIn(Values(rs, k), u);
    forall h, w | 0 <= h < |rs| && Sees(rs[h], k, w) ensures w <= v {
      ValuesAreSeen(rs, k, w);
    }
    ValuesAreSeen(rs, k, v);
    FirstWithSees(rs, k, v);
    r := FirstWith(rs, k, v).value;
  }

  lemma {:induction false} LastOfIsIn(rs: seq<Record>, d: Day)
    ensures LastOf(rs, d).Some? ==> LastOf(rs, d).value in rs && DayOf(LastOf(rs, d).value) == d
    ensures LastOf(rs, d).None? ==> forall r :: r in rs ==> DayOf(r) != d
  {
    if rs != [] {
      LastOfIsIn(rs[..|rs| - 1], d);
      assert rs == rs[..|rs| - 1] + [rs[|rs| - 1]];
    }
  }

  lemma KeptIsIn(rs: seq<Record>, r: Record)
    requires Kept(rs, r)
    ensures r in rs
  {
    if k, v :| FirstMin(rs, k, v, r) {
      FirstWithSees(rs, k, v);
    } else if k, v :| FirstMax(rs, k, v, r) {
      FirstWithSees(rs, k, v);
    } else {
      var d :| LastQuiet(rs, d, r);
      LastOfIsIn(rs, d);
    }
  }

  /** f holds of every record that is kept. */
  ghost predicate Spares(rs: seq<Record>, f: Record -> bool) {
    forall r :: Kept(rs, r) ==> f(r)
  }

  lemma FilteredIsSeen(rs: seq<Record>, f: Record -> bool, k: Key, u: real)
    ensures (exists i :: 0 <= i < |Filter(rs, f)| && Sees(Filter(rs, f)[i], k, u))
       <==> (exists i :: 0 <= i < |rs| && f(rs[i]) && Sees(rs[i], k, u))
  {
    var fs := Filter(rs, f);
    if i :| 0 <= i < |fs| && Sees(fs[i], k, u) {
      FilterIn(rs, f, fs[i]);
    }
    if i :| 0 <= i < |rs| && f(rs[i]) && Sees(rs[i], k, u) {
      FilterIn(rs, f, rs[i]);
    }
  }

  lemma AtLeastFiltered(rs: seq<Record>, f: Record -> bool, k: Key, v: real)
    requires Spares(rs, f)
    ensures AllAtLeast(Filter(rs, f), k, v) <==> AllAtLeast(rs, k, v)
  {
    hide Sees;
    var fs := Filter(rs, f);
    if !AllAtLeast(rs, k, v) {
      var i, u :| 0 <= i < |rs| && Sees(rs[i], k, u) && u < v;
      var low, r := LowestExists(rs, k, i, u);
      assert Kept(rs, r);
      FirstWithSees(rs, k, low);
      FilteredIsSeen(rs, f, k, low);
    }
    if !AllAtLeast(fs, k, v) {
      var i, u :| 0 <= i < |fs| && Sees(fs[i], k, u) && u < v;
      FilteredIsSeen(rs, f, k, u);
    }
  }

  lemma AtMostFiltered(rs: seq<Record>, f: Record -> bool, k: Key, v: real)
    requires Spares(rs, f)
    ensures AllAtMost(Filter(rs, f), k, v) <==> AllAtMost(rs, k, v)
  {
    hide Sees;
    var fs := Filter(rs, f);
    if !AllAtMost(rs, k, v) {
      var i, u :| 0 <= i < |rs| && Sees(rs[i], k, u) && u > v;
      var high, r := HighestExists(rs, k, i, u);
      assert Kept(rs, r);
      FirstWithSees(rs, k, high);
      FilteredIsSeen(rs, f, k, high);
    }
    if !AllAtMost(fs, k, v) {
      var i, u :| 0 <= i < |fs| && Sees(fs[i], k, u) && u > v;
      FilteredIsSeen(rs, f, k, u);
    }
  }

  lemma QuietFiltered(rs: seq<Record>, f: Record -> bool, d: Day)
    requires Spares(rs, f)
    ensures Quiet(Filter(rs, f), d) <==> Quiet(rs, d)
  {
    hide Sees;
    var fs := Filter(rs, f);
    if !Quiet(rs, d) {
      var i, k, u :| 0 <= i < |rs| && Sees(rs[i], k, u) && k.day == d;
      var low, r := LowestExists(rs, k, i, u);
      assert Kept(rs, r);
      FirstWithSees(rs, k, low);
      FilteredIsSeen(rs, f, k, low);
    }
    if !Quiet(fs, d) {
      var i, k, u :| 0 <= i < |fs| && Sees(fs[i], k, u) && k.day == d;
      FilteredIsSeen(rs, f, k, u);
    }
  }

  lemma FirstMinFiltered(rs: seq<Record>, f: Record -> bool, k: Key, v: real, r: Record)
    requires Spares(rs, f)
    ensures FirstMin(Filter(rs, f), k, v, r) <==> FirstMin(rs, k, v, r)
  {
    AtLeastFiltered(rs, f, k, v);
    if AllAtLeast(rs, k, v) {
      var first := FirstWith(rs, k, v);
      if first.Some? {
        assert FirstMin(rs, k, v, first.value);
      }
      FirstWithFiltered(rs, f, k, v);
    }
  }

  lemma FirstMaxFiltered(rs: seq<Record>, f: Record -> bool, k: Key, v: real, r: Record)
    requires Spares(rs, f)
    ensures FirstMax(Filter(rs, f), k, v, r) <==> FirstMax(rs, k, v, r)
  {
    AtMostFiltered(rs, f, k, v);
    if AllAtMost(rs, k, v) {
      var first := FirstWith(rs, k, v);
      if first.Some? {
        assert FirstMax(rs, k, v, first.value);
      }
      FirstWithFiltered(rs, f, k, v);
    }
  }

  lemma LastQuietFiltered(rs: seq<Record>, f: Record -> bool, d: Day, r: Record)
    requires Spares(rs, f)
    ensures LastQuiet(Filter(rs, f), d, r) <==> LastQuiet(rs, d, r)
  {
    QuietFiltered(rs, f, d);
    if Quiet(rs, d) {
      var last := LastOf(rs, d);
      if last.Some? {
        assert LastQuiet(rs, d, last.value);
      }
      LastOfFiltered(rs, f, d);
    }
  }

  /** Dropping any records that are not kept leaves every verdict as it was. */
  lemma DroppingTheRestChangesNothing(rs: seq<Record>, f: Record -> bool, r: Record)
    requires Spares(rs, f)
    ensures Kept(Filter(rs, f), r) <==> Kept(rs, r)
  {
    hide FirstMin, FirstMax, LastQuiet, Filter, Spares;
    forall k, v
      ensures FirstMin(Filter(rs, f), k, v, r) <==> FirstMin(rs, k, v, r)
      ensures FirstMax(Filter(rs, f), k, v, r) <==> FirstMax(rs, k, v, r)
    {
      FirstMinFiltered(rs, f, k, v, r);
      FirstMaxFiltered(rs, f, k, v, r);
    }
    forall d ensures LastQuiet(Filter(rs, f), d, r) <==> LastQuiet(rs, d, r) {
      LastQuietFiltered(rs, f, d, r);
    }
  }

  // ----- compaction absorbs -------------------------------------------------

  lemma {:induction false} FirstWithConcat(a: seq<Record>, b: seq<Record>, k: Key, v: real)
    ensures FirstWith(a + b, k, v) == if FirstWith(a, k, v).Some? then FirstWith(a, k, v) else FirstWith(b, k, v)
  {
    if a == [] {
      assert a + b == b;
    } else {
      assert (a + b)[1..] == a[1..] + b;
      FirstWithConcat(a[1..], b, k, v);
    }
  }

  lemma {:induction false} LastOfConcat(a: seq<Record>, b: seq<Record>, d: Day)
    ensures LastOf(a + b, d) == if LastOf(b, d).Some? then LastOf(b, d) else LastOf(a, d)
  {
    if b == [] {
      assert a + b == a;
    } else {
      assert (a + b)[..|a + b| - 1] == a + b[..|b| - 1];
      LastOfConcat(a, b[..|b| - 1], d);
    }
  }

  ghost predicate Disjoint(a: seq<Record>, b: seq<Record>) {
    forall r :: r in a ==> r !in b
  }

  /** What is kept of the whole was kept of the part it lies in. */
  lemma KeptOfThePart(a: seq<Record>, b: seq<Record>, r: Record)
    requires Disjoint(a, b) && Kept(a + b, r) && r in a
    ensures Kept(a, r)
  {
    hide Sees;
    assert forall i :: 0 <= i < |a| ==> (a + b)[i] == a[i];
    if k, v :| FirstMin(a + b, k, v, r) {
      FirstWithConcat(a, b, k, v);
      FirstWithSees(b, k, v);
      assert AllAtLeast(a, k, v);
      assert FirstMin(a, k, v, r);
    } else if k, v :| FirstMax(a + b, k, v, r) {
      FirstWithConcat(a, b, k, v);
      FirstWithSees(b, k, v);
      assert AllAtMost(a, k, v);
      assert FirstMax(a, k, v, r);
    } else {
      var d :| LastQuiet(a + b, d, r);
      LastOfConcat(a, b, d);
      LastOfIsIn(b, d);
      assert Quiet(a, d);
      assert LastQuiet(a, d, r);
    }
  }

  /** Compacting a first and the rest later is compacting all of it once. */
  lemma Absorbs(a: seq<Record>, b: seq<Record>)
    requires Disjoint(a, b)
    ensures Compact(Compact(a) + b) == Compact(a + b)
    ensures forall r :: Kept(Compact(a) + b, r) <==> Kept(a + b, r)
  {
    hide Kept;
    var f: Record -> bool := r => Kept(a, r) || r in b;
    FilterConcat(a, b, f);
    FilterSame(a, f, r => Kept(a, r));
    FilterAll(b, f);
    assert Filter(a + b, f) == Compact(a) + b;
    forall r | Kept(a + b, r) ensures f(r) {
      KeptIsIn(a + b, r);
      if r in a {
        KeptOfThePart(a, b, r);
      }
    }
    forall r ensures Kept(Compact(a) + b, r) <==> Kept(a + b, r) {
      DroppingTheRestChangesNothing(a + b, f, r);
    }
    var g: Record -> bool := r => Kept(a + b, r);
    FilterSame(Compact(a) + b, r => Kept(Compact(a) + b, r), g);
    FilterTwice(a + b, f, g);
    FilterSame(a + b, r => f(r) && g(r), g);
  }

  lemma Idempotent(rs: seq<Record>)
    ensures Compact(Compact(rs)) == Compact(rs)
  {
    Absorbs(rs, []);
    assert rs + [] == rs && Compact(rs) + [] == Compact(rs);
  }

  /** What is left shows the same lowest and highest value of every window and day. */
  lemma ExtremesSurvive(rs: seq<Record>, k: Key, v: real)
    ensures AllAtLeast(Compact(rs), k, v) <==> AllAtLeast(rs, k, v)
    ensures AllAtMost(Compact(rs), k, v) <==> AllAtMost(rs, k, v)
    ensures AllAtLeast(rs, k, v) || AllAtMost(rs, k, v) ==> FirstWith(Compact(rs), k, v) == FirstWith(rs, k, v)
  {
    var f: Record -> bool := r => Kept(rs, r);
    AtLeastFiltered(rs, f, k, v);
    AtMostFiltered(rs, f, k, v);
    if (AllAtLeast(rs, k, v) || AllAtMost(rs, k, v)) && FirstWith(rs, k, v).Some? {
      var r := FirstWith(rs, k, v).value;
      assert FirstMin(rs, k, v, r) || FirstMax(rs, k, v, r);
      FirstWithFiltered(rs, f, k, v);
    } else if FirstWith(rs, k, v).None? {
      FirstWithFiltered(rs, f, k, v);
    }
  }
}
