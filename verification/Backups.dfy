/** Backups of one configuration file. */
module Backups {
  /*
   They are kept beside it under names that carry the second they were taken. Only the newest few
   are kept; restoring takes a backup of what it replaces.
   */

  import opened Prelude

  /** The live file, and its backups by timestamp. */
  datatype Disk = Disk(live: Option<string>, backups: map<int, string>)

  datatype Reply = Done(stamp: int) | NoOriginal | NameTaken

  datatype RestoreReply = Restored(from: int, preRestore: Option<int>) | NoBackup | NoPreBackup

  const DEFAULT_RETENTION := 3

  function Retention(retention: int): (n: nat)
    ensures n > 0
  {
    if retention <= 0 then DEFAULT_RETENTION else retention
  }

  // ----- what the operations come to ----------------------------------------

  function NewerThan(b: map<int, string>, t: int): set<int> {
    set s | s in b && s > t
  }

  /** Each of the newest `keep`, and those that could not be removed. */
  function Rotated(b: map<int, string>, keep: nat, stuck: set<int>): map<int, string> {
    map t | t in b && (|NewerThan(b, t)| < keep || t in stuck) :: b[t]
  }

  function BackupReply(d: Disk, now: int): Reply {
    if d.live.None? then NoOriginal else if now in d.backups then NameTaken else Done(now)
  }

  function BackedUp(d: Disk, now: int, keep: nat, stuck: set<int>): Disk {
    if BackupReply(d, now).Done? then d.(backups := Rotated(d.backups[now := d.live.value], keep, stuck)) else d
  }

  ghost predicate Newest(b: map<int, string>, t: int) {
    t in b && NewerThan(b, t) == {}
  }

  /** What restoring from `latest` leaves. */
  function AfterRestore(d: Disk, latest: int, now: int, stuck: set<int>): Disk {
    if latest !in d.backups || BackupReply(d, now).NameTaken? then d
    else BackedUp(d, now, DEFAULT_RETENTION, stuck).(live := Some(d.backups[latest]))
  }

  function RestoreReplyOf(d: Disk, latest: int, now: int): RestoreReply {
    match BackupReply(d, now)
    case Done(_) => Restored(latest, Some(now))
    case NoOriginal => Restored(latest, None)
    case NameTaken => NoPreBackup
  }

  // ----- listings -----------------------------------------------------------

  predicate Descending(l: seq<int>) {
    forall i, j :: 0 <= i < j < |l| ==> l[i] > l[j]
  }

  /** Newest first, each once. */
  ghost predicate IsListing(b: map<int, string>, l: seq<int>) {
    Descending(l) && forall t :: t in l <==> t in b
  }

  lemma {:induction false} AsMany(l: seq<int>)
    requires Descending(l)
    ensures |set t | t in l| == |l|
  {
    if l != [] {
      var n := |l| - 1;
      AsMany(l[..n]);
      assert (set t | t in l) == (set t | t in l[..n]) + {l[n]};
    }
  }

  /** A backup's place in the listing is how many are newer. */
  lemma PlaceIsRank(b: map<int, string>, l: seq<int>, i: nat)
    requires IsListing(b, l) && i < |l|
    ensures |NewerThan(b, l[i])| == i
  {
    AsMany(l[..i]);
    forall t ensures t in NewerThan(b, l[i]) <==> t in l[..i] {
      if t in NewerThan(b, l[i]) {
        var j :| 0 <= j < |l| && l[j] == t;
        assert j < i;
        assert l[..i][j] == t;
      }
    }
    assert NewerThan(b, l[i]) == set t | t in l[..i];
  }

  // ----- rotation -----------------------------------------------------------

  lemma NewerShrinks(b: map<int, string>, s: int, t: int)
    requires s in b && s > t
    ensures |NewerThan(b, s)| < |NewerThan(b, t)|
  {
    assert NewerThan(b, s) < NewerThan(b, t) by {
      assert s in NewerThan(b, t) && s !in NewerThan(b, s);
    }
    Smaller(NewerThan(b, s), NewerThan(b, t));
  }

  lemma Smaller(a: set<int>, b: set<int>)
    requires a < b
    ensures |a| < |b|
  {
    assert b == a + (b - a);
    assert b - a != {};
  }

  /** What rotation keeps is newer than all it removes; removing what is newer changes no rank below the cut. */
  lemma RotationKeepsTheNewest(b: map<int, string>, keep: nat, kept: int, gone: int)
    requires kept in Rotated(b, keep, {}) && gone in b && gone !in Rotated(b, keep, {})
    ensures kept > gone
  {
    if kept < gone {
      NewerShrinks(b, gone, kept);
    }
  }

  lemma KeptAreFirst(b: map<int, string>, l: seq<int>, keep: nat, t: int)
    requires IsListing(b, l)
    ensures t in Rotated(b, keep, {}) <==> t in l[..Min(keep, |l|)]
  {
    var n := Min(keep, |l|);
    if t in b {
      var i :| 0 <= i < |l| && l[i] == t;
      PlaceIsRank(b, l, i);
      if i < n {
        assert l[..n][i] == t;
      } else {
        OnlyOnce(l, n, i);
      }
    }
  }

  /** As many as asked for, when there are that many. */
  lemma RotationKeepsEnough(b: map<int, string>, l: seq<int>, keep: nat)
    requires IsListing(b, l)
    ensures |Rotated(b, keep, {})| == Min(keep, |b|)
  {
    hide Rotated;
    var n := Min(keep, |l|);
    var r := Rotated(b, keep, {});
    forall t ensures t in r <==> t in l[..n] {
      KeptAreFirst(b, l, keep, t);
    }
    SizeIs(r, l[..n]);
    SizeIs(b, l);
  }

  lemma SizeIs(b: map<int, string>, l: seq<int>)
    requires IsListing(b, l)
    ensures |b| == |l|
  {
    AsMany(l);
    var stamps := set t | t in l;
    assert forall t :: t in stamps <==> t in b;
    assert b.Keys == stamps;
    assert |b.Keys| == |b|;
  }

  lemma OnlyOnce(l: seq<int>, n: nat, i: nat)
    requires Descending(l) && n <= i < |l|
    ensures l[i] !in l[..n]
  {}

  function Min(a: nat, b: nat): nat {
    if a < b then a else b
  }

  /** A fresh backup survives its own rotation exactly when fewer than `keep` others are newer. */
  lemma FreshSurvivesExactlyWhen(d: Disk, now: int, keep: nat)
    requires BackupReply(d, now).Done?
    ensures now in BackedUp(d, now, keep, {}).backups <==> |NewerThan(d.backups, now)| < keep
  {
    assert NewerThan(d.backups[now := d.live.value], now) == NewerThan(d.backups, now);
  }

  /** So on a clock that has not gone back it always does. */
  lemma FreshSurvives(d: Disk, now: int, keep: nat)
    requires BackupReply(d, now).Done? && keep > 0
    requires forall t :: t in d.backups ==> t < now
    ensures Newest(BackedUp(d, now, keep, {}).backups, now)
    ensures BackedUp(d, now, keep, {}).backups[now] == d.live.value
  {
    assert NewerThan(d.backups, now) == {};
    FreshSurvivesExactlyWhen(d, now, keep);
    assert NewerThan(BackedUp(d, now, keep, {}).backups, now) == {};
  }

  // ----- a whole history of backups -----------------------------------------

  /** Contents saved one after another, each at its second. */
  datatype Save = Save(at: int, content: string)

  function SaveAll(d: Disk, saves: seq<Save>, keep: nat): Disk {
    if saves == [] then d
    else
      var last := saves[|saves| - 1];
      BackedUp(SaveAll(d, saves[..|saves| - 1], keep).(live := Some(last.content)), last.at, keep, {})
  }

  predicate Advancing(saves: seq<Save>) {
    forall i, j :: 0 <= i < j < |saves| ==> saves[i].at < saves[j].at
  }

  /** Exactly the newest remain, with what they saved. */
  ghost predicate HoldsTheLast(b: map<int, string>, saves: seq<Save>, keep: nat) {
    Holds(b, saves, |saves| - Min(keep, |saves|))
  }

  /** b holds exactly the saves from `first` on. */
  ghost predicate Holds(b: map<int, string>, saves: seq<Save>, first: nat) {
    && (forall i :: first <= i < |saves| ==> saves[i].at in b && b[saves[i].at] == saves[i].content)
    && (forall t :: t in b ==> exists i :: first <= i < |saves| && saves[i].at == t)
  }

  lemma {:induction false} SavedRank(saves: seq<Save>, first: nat, b: map<int, string>, i: nat)
    requires Advancing(saves) && first <= i < |saves| && Holds(b, saves, first)
    ensures |NewerThan(b, saves[i].at)| == |saves| - 1 - i
    decreases |saves| - i
  {
    var t := saves[i].at;
    if i == |saves| - 1 {
      assert NewerThan(b, t) == {};
    } else {
      SavedRank(saves, first, b, i + 1);
      NextRank(saves, first, b, i);
    }
  }

  lemma NextRank(saves: seq<Save>, first: nat, b: map<int, string>, i: nat)
    requires Advancing(saves) && first <= i < |saves| - 1 && Holds(b, saves, first)
    ensures saves[i + 1].at !in NewerThan(b, saves[i + 1].at)
    ensures NewerThan(b, saves[i].at) == NewerThan(b, saves[i + 1].at) + {saves[i + 1].at}
  {
    var t, next := saves[i].at, saves[i + 1].at;
    assert next in b && next > t;
    forall s | s in b && s > saves[i].at ensures s >= next {
      NoSaveBetween(saves, first, b, i, s);
    }
  }

  lemma NoSaveBetween(saves: seq<Save>, first: nat, b: map<int, string>, i: nat, s: int)
    requires Advancing(saves) && first <= i < |saves| - 1 && Holds(b, saves, first)
    requires s in b && s > saves[i].at
    ensures s >= saves[i + 1].at
  {
    var j :| first <= j < |saves| && saves[j].at == s;
    LaterIsFurtherOn(saves, i, j);
    assert j > i + 1 ==> saves[i + 1].at < saves[j].at;
  }

  lemma LaterIsFurtherOn(saves: seq<Save>, i: nat, j: nat)
    requires Advancing(saves) && i < |saves| && j < |saves| && saves[j].at > saves[i].at
    ensures j > i
  {}

  lemma HoldsSnoc(b: map<int, string>, saves: seq<Save>, last: Save, first: nat)
    requires Advancing(saves + [last]) && Holds(b, saves, first) && first <= |saves|
    ensures last.at !in b
    ensures Holds(b[last.at := last.content], saves + [last], first)
  {
    var all, more := saves + [last], b[last.at := last.content];
    assert forall i :: 0 <= i < |saves| ==> all[i] == saves[i];
    forall t | t in b ensures t < last.at && exists i :: first <= i < |all| && all[i].at == t {
      var i :| first <= i < |saves| && saves[i].at == t;
      assert all[i].at == t && all[i].at < all[|saves|].at;
    }
    assert all[|saves|].at == last.at;
  }

  /** Rotation drops the oldest save once there are more than enough. */
  lemma HoldsRotated(b: map<int, string>, saves: seq<Save>, first: nat, keep: nat)
    requires Advancing(saves) && Holds(b, saves, first) && first <= |saves|
    ensures var cut := if |saves| - first <= keep then first else |saves| - keep;
            Holds(Rotated(b, keep, {}), saves, cut)
  {
    var cut := if |saves| - first <= keep then first else |saves| - keep;
    var r := Rotated(b, keep, {});
    forall i | first <= i < |saves| ensures saves[i].at in r <==> i >= cut {
      SavedRank(saves, first, b, i);
    }
    forall t | t in r ensures exists i :: cut <= i < |saves| && saves[i].at == t {
      var i :| first <= i < |saves| && saves[i].at == t;
      assert i >= cut;
    }
  }

  lemma HoldsOneMore(b: map<int, string>, saves: seq<Save>, last: Save, keep: nat)
    requires keep > 0 && Advancing(saves + [last]) && HoldsTheLast(b, saves, keep)
    ensures last.at !in b
    ensures HoldsTheLast(Rotated(b[last.at := last.content], keep, {}), saves + [last], keep)
  {
    hide Rotated, Holds, Advancing;
    var first := |saves| - Min(keep, |saves|);
    HoldsSnoc(b, saves, last, first);
    HoldsRotated(b[last.at := last.content], saves + [last], first, keep);
  }

  /** After any saves on an advancing clock exactly the newest few remain. */
  lemma {:induction false} OnlyTheNewestRemain(live: Option<string>, saves: seq<Save>, keep: nat)
    requires keep > 0 && Advancing(saves)
    ensures HoldsTheLast(SaveAll(Disk(live, map[]), saves, keep).backups, saves, keep)
  {
    hide HoldsTheLast, Rotated;
    if saves == [] {
      NothingHeld(keep);
    } else {
      var n := |saves| - 1;
      assert saves == saves[..n] + [saves[n]];
      OnlyTheNewestRemain(live, saves[..n], keep);
      HoldsOneMore(SaveAll(Disk(live, map[]), saves[..n], keep).backups, saves[..n], saves[n], keep);
    }
  }

  lemma NothingHeld(keep: nat)
    ensures HoldsTheLast(map[], [], keep)
  {}

  // ----- on any clock ----------------------------------------------------------

  function Stamps(saves: seq<Save>): set<int> {
    set i | 0 <= i < |saves| :: saves[i].at
  }

  function Newer(s: set<int>, t: int): set<int> {
    set u | u in s && u > t
  }

  /** Exactly the newest `keep` of all the stamps there have been. */
  ghost predicate AreTheNewest(b: map<int, string>, stamps: set<int>, keep: nat) {
    forall t :: t in b <==> t in stamps && |Newer(stamps, t)| < keep
  }

  /** Those of the newest `keep` that are newer than t. */
  function NewestAbove(s: set<int>, t: int, keep: nat): set<int> {
    set u | u in s && u > t && |Newer(s, u)| < keep
  }

  lemma {:induction false} EnoughAreNewer(s: set<int>, t: int, keep: nat)
    requires |Newer(s, t)| >= keep
    ensures |NewestAbove(s, t, keep)| >= keep
    decreases |Newer(s, t)|
  {
    var newer := Newer(s, t);
    var top := NewestAbove(s, t, keep);
    if |newer| == keep {
      forall u | u in newer ensures u in top {
        NewerIsSmaller(s, t, u);
      }
      assert top == newer;
    } else {
      assert newer != {};
      var u := Least(newer);
      assert Newer(s, u) == newer - {u};
      EnoughAreNewer(s, u, keep);
      Fewer(NewestAbove(s, u, keep), top);
    }
  }

  lemma NewerIsSmaller(s: set<int>, t: int, u: int)
    requires u in s && u > t
    ensures |Newer(s, u)| < |Newer(s, t)|
  {
    assert u in Newer(s, t) && u !in Newer(s, u);
    Smaller(Newer(s, u), Newer(s, t));
  }

  lemma Fewer(a: set<int>, b: set<int>)
    requires a <= b
    ensures |a| <= |b|
  {
    assert b == a + (b - a);
  }

  lemma {:induction false} Least(s: set<int>) returns (u: int)
    requires s != {}
    ensures u in s && forall v :: v in s ==> u <= v
    decreases |s|
  {
    Someone(s);
    var one :| one in s;
    u := one;
    if v :| v in s && v < one {
      u := Least(s - {one});
      assert forall w :: w in s ==> w == one || w in s - {one};
    }
  }

  /** One more backup, on whatever clock: the newest of what is left are the newest of all. */
  lemma OneMoreStamp(b: map<int, string>, stamps: set<int>, x: int, content: string, keep: nat)
    requires AreTheNewest(b, stamps, keep) && x !in b
    ensures AreTheNewest(Rotated(b[x := content], keep, {}), stamps + {x}, keep)
  {
    var more, all := b[x := content], stamps + {x};
    forall t ensures t in Rotated(more, keep, {}) <==> t in all && |Newer(all, t)| < keep {
      if t in more {
        RanksAgree(b, stamps, x, content, keep, t);
      } else if t in all {
        Fewer(Newer(stamps, t), Newer(all, t));
      }
    }
  }

  lemma RanksAgree(b: map<int, string>, stamps: set<int>, x: int, content: string, keep: nat, t: int)
    requires AreTheNewest(b, stamps, keep) && x !in b && (t in b || t == x)
    ensures |NewerThan(b[x := content], t)| < keep <==> |Newer(stamps + {x}, t)| < keep
  {
    var more, all := b[x := content], stamps + {x};
    Fewer(NewerThan(more, t), Newer(all, t));
    if |Newer(all, t)| >= keep {
      if |Newer(stamps, t)| >= keep {
        EnoughAreNewer(stamps, t, keep);
        Fewer(NewestAbove(stamps, t, keep), NewerThan(more, t));
      } else {
        forall u | u in Newer(stamps, t) ensures u in b {
          NewerIsSmaller(stamps, t, u);
        }
        assert Newer(all, t) == NewerThan(more, t);
      }
    }
  }

  /**
   After any saves on any clock, advancing or not, exactly the newest of all the stamps ever
   used remain.
   */
  lemma {:induction false} NewestOfAllRemain(live: Option<string>, saves: seq<Save>, keep: nat)
    requires keep > 0
    ensures AreTheNewest(SaveAll(Disk(live, map[]), saves, keep).backups, Stamps(saves), keep)
  {
    hide Rotated;
    if saves != [] {
      var n := |saves| - 1;
      var x := saves[n].at;
      NewestOfAllRemain(live, saves[..n], keep);
      StampsSnoc(saves);
      var b := SaveAll(Disk(live, map[]), saves[..n], keep).backups;
      if x in b {
        assert Stamps(saves) == Stamps(saves[..n]);
      } else {
        OneMoreStamp(b, Stamps(saves[..n]), x, saves[n].content, keep);
      }
    }
  }

  lemma StampsSnoc(saves: seq<Save>)
    requires saves != []
    ensures Stamps(saves) == Stamps(saves[..|saves| - 1]) + {saves[|saves| - 1].at}
  {
    var n := |saves| - 1;
    forall t | t in Stamps(saves[..n]) ensures t in Stamps(saves) {
      var i :| 0 <= i < n && saves[..n][i].at == t;
      assert saves[i].at == t;
    }
    forall t | t in Stamps(saves) ensures t in Stamps(saves[..n]) || t == saves[n].at {
      var i :| 0 <= i < |saves| && saves[i].at == t;
      assert i < n ==> saves[..n][i].at == t;
    }
  }

  // ----- restoring ----------------------------------------------------------

  /** The backup a restore chose is still there afterwards, whatever the clock. */
  lemma ChosenSurvives(d: Disk, latest: int, now: int, stuck: set<int>)
    requires Newest(d.backups, latest)
    ensures var v := AfterRestore(d, latest, now, stuck);
            latest in v.backups && v.backups[latest] == d.backups[latest]
  {
    if BackupReply(d, now).Done? {
      var more := d.backups[now := d.live.value];
      assert NewerThan(more, latest) <= {now};
      AtMostOne(NewerThan(more, latest), now);
    }
  }

  lemma AtMostOne(s: set<int>, x: int)
    requires s <= {x}
    ensures |s| <= 1
  {
    if x in s {
      assert s == {x};
    } else {
      assert s == {};
    }
  }

  /** What becomes of the backup the restore itself takes. */
  lemma PreRestoreSurvivesExactlyWhen(d: Disk, latest: int, now: int)
    requires Newest(d.backups, latest) && BackupReply(d, now).Done?
    ensures now in AfterRestore(d, latest, now, {}).backups <==> |NewerThan(d.backups, now)| < DEFAULT_RETENTION
  {
    FreshSurvivesExactlyWhen(d, now, DEFAULT_RETENTION);
  }

  lemma NewestIsUnique(b: map<int, string>, s: int, t: int)
    requires Newest(b, s) && Newest(b, t)
    ensures s == t
  {
    assert t !in NewerThan(b, s) && s !in NewerThan(b, t);
  }

  /** Which backup a second restore takes. */
  lemma NewestAfterRestore(d: Disk, latest: int, now: int)
    requires Newest(d.backups, latest) && BackupReply(d, now).Done?
    ensures Newest(AfterRestore(d, latest, now, {}).backups, if now > latest then now else latest)
  {
    ChosenSurvives(d, latest, now, {});
    var b := AfterRestore(d, latest, now, {}).backups;
    if now > latest {
      forall t | t in d.backups ensures t < now {
        assert t !in NewerThan(d.backups, latest);
      }
      FreshSurvives(d, now, DEFAULT_RETENTION);
    } else {
      forall t | t in b ensures t <= latest {
        assert t in d.backups ==> t !in NewerThan(d.backups, latest);
      }
      assert NewerThan(b, latest) == {};
    }
  }

  /**
   Restoring twice, whatever becomes of either: the live file is back exactly when there was
   one and the backup restored from already held what was live, or both restores went through
   on a clock that had not gone back past it, or neither did. So a second restore within the
   second of the first, whose own backup finds its name taken, undoes nothing.
   */
  lemma TwoRestoresUndoExactlyWhen(d: Disk, latest: int, t1: int, again: int, t2: int)
    requires Newest(d.backups, latest)
    requires Newest(AfterRestore(d, latest, t1, {}).backups, again)
    ensures var once := AfterRestore(d, latest, t1, {});
            AfterRestore(once, again, t2, {}).live == d.live <==>
              && d.live.Some?
              && (|| d.backups[latest] == d.live.value
                  || (BackupReply(d, t1).Done? && BackupReply(once, t2).Done? && t1 > latest)
                  || (BackupReply(d, t1).NameTaken? && BackupReply(d, t2).NameTaken?))
  {
    var once := AfterRestore(d, latest, t1, {});
    match BackupReply(d, t1)
    case NoOriginal =>
    case NameTaken => NewestIsUnique(d.backups, latest, again);
    case Done(_) =>
      NewestAfterRestore(d, latest, t1);
      NewestIsUnique(once.backups, again, if t1 > latest then t1 else latest);
      ChosenSurvives(d, latest, t1, {});
      if t1 > latest {
        assert once.backups[t1] == d.live.value;
      }
  }

  /** In particular, restoring again within the same second leaves what the first restore left. */
  lemma SameSecondUndoesNothing(d: Disk, latest: int, now: int, again: int)
    requires Newest(d.backups, latest) && d.live.Some? && now > latest
    requires Newest(AfterRestore(d, latest, now, {}).backups, again)
    ensures AfterRestore(AfterRestore(d, latest, now, {}), again, now, {}).live == Some(d.backups[latest])
  {
    assert now !in d.backups by {
      assert now !in NewerThan(d.backups, latest);
    }
    NewestAfterRestore(d, latest, now);
  }

  // ----- the program --------------------------------------------------------

  /** What is held is what was and the new one, but for those that as many as are kept are newer than. */
  ghost predicate Adds(before: map<int, string>, now: int, content: string, keep: int, stuck: set<int>, after: map<int, string>) {
    && (forall t :: t in after <==>
          (t in before || t == now) && (t in stuck || |set s | s in before.Keys + {now} && s > t| < keep))
    && forall t :: t in after ==> after[t] == if t == now then content else before[t]
  }

  lemma BackingUpAdds(d: Disk, now: int, keep: nat, stuck: set<int>)
    requires BackupReply(d, now).Done?
    ensures Adds(d.backups, now, d.live.value, keep, stuck, BackedUp(d, now, keep, stuck).backups)
  {
    var more := d.backups[now := d.live.value];
    forall t ensures NewerThan(more, t) == set s | s in d.backups.Keys + {now} && s > t {}
  }

  class ConfigFile {
    var live: Option<string>
    var backups: map<int, string>

    ghost function Contents(): Disk
      reads this
    {
      Disk(live, backups)
    }

    constructor (live: Option<string>, backups: map<int, string>)
      ensures Contents() == Disk(live, backups)
    {
      this.live, this.backups := live, backups;
    }

    method ListBackups() returns (listing: seq<int>)
      ensures IsListing(backups, listing)
    {
      listing := [];
      var todo := backups.Keys;
      while todo != {}
        invariant todo <= backups.Keys && Descending(listing)
        invariant forall t :: t in listing <==> t in backups.Keys - todo
        invariant forall s, t :: s in listing && t in todo ==> s > t
        decreases |todo|
      {
        var t := Highest(todo);
        assert forall i :: 0 <= i < |listing| ==> listing[i] in listing;
        listing := listing + [t];
        todo := todo - {t};
      }
    }

    method Highest(stamps: set<int>) returns (t: int)
      requires stamps != {}
      ensures t in stamps && forall s :: s in stamps ==> s <= t
    {
      Someone(stamps);
      t :| t in stamps;
      var todo := stamps - {t};
      while todo != {}
        invariant todo <= stamps && t in stamps
        invariant forall s :: s in stamps && s !in todo ==> s <= t
        decreases |todo|
      {
        Someone(todo);
        var s :| s in todo;
        if s > t {
          t := s;
        }
        todo := todo - {s};
      }
    }

    /** Removes all but the newest; `stuck` are those that cannot be removed. */
    method RotateBackups(keep: nat, stuck: set<int>)
      modifies this`backups
      ensures backups == Rotated(old(backups), keep, stuck)
    {
      hide IsListing, Rotated;
      var listing := ListBackups();
      ghost var b := backups;
      if |listing| <= keep {
        NothingToRotate(b, listing, keep, stuck);
        return;
      }
      RemoveAll(listing[keep..], stuck);
      TailGone(b, listing, keep, stuck, backups);
    }

    method RemoveAll(aged: seq<int>, stuck: set<int>)
      modifies this`backups
      ensures forall t :: t in backups <==> t in old(backups) && (t in stuck || t !in aged)
      ensures forall t :: t in backups ==> backups[t] == old(backups)[t]
    {
      var i := 0;
      while i < |aged|
        invariant 0 <= i <= |aged|
        invariant forall t :: t in backups <==> t in old(backups) && (t in stuck || t !in aged[..i])
        invariant forall t :: t in backups ==> backups[t] == old(backups)[t]
      {
        assert forall t :: t in aged[..i + 1] <==> t in aged[..i] || t == aged[i];
        if aged[i] !in stuck {
          backups := backups - {aged[i]};
        }
        i := i + 1;
      }
      assert aged[..i] == aged;
    }

    method BackupFile(now: int, retention: int, stuck: set<int>) returns (reply: Reply)
      modifies this`backups
      ensures reply == BackupReply(old(Contents()), now)
      ensures Contents() == BackedUp(old(Contents()), now, Retention(retention), stuck)
      ensures reply.NoOriginal? ==> old(live).None? && backups == old(backups)
      ensures reply.NameTaken? ==> old(live).Some? && now in old(backups) && backups == old(backups)
      ensures reply.Done? ==> reply.stamp == now && old(live).Some? && now !in old(backups)
                              && Adds(old(backups), now, old(live).value, if retention <= 0 then 3 else retention, stuck, backups)
    {
      if live.None? {
        return NoOriginal;
      }
      if now in backups {
        return NameTaken;
      }
      BackingUpAdds(Contents(), now, Retention(retention), stuck);
      backups := backups[now := live.value];
      RotateBackups(Retention(retention), stuck);
      return Done(now);
    }

    method RestoreLatestBackup(now: int, stuck: set<int>) returns (reply: RestoreReply)
      modifies this
      ensures old(backups) == map[] ==> reply.NoBackup? && Contents() == old(Contents())
      ensures old(backups) != map[] ==>
                exists latest :: (
                  && Newest(old(backups), latest)
                  && reply == RestoreReplyOf(old(Contents()), latest, now)
                  && Contents() == AfterRestore(old(Contents()), latest, now, stuck))
      ensures reply.NoPreBackup? ==> old(live).Some? && now in old(backups) && Contents() == old(Contents())
      ensures reply.Restored? ==>
                && Newest(old(backups), reply.from) && live == Some(old(backups)[reply.from])
                && (old(live).None? ==> reply.preRestore.None? && backups == old(backups))
                && (old(live).Some? ==> reply.preRestore == Some(now) && now !in old(backups)
                                        && Adds(old(backups), now, old(live).value, 3, stuck, backups))
    {
      var listing := ListBackups();
      if |listing| == 0 {
        assert forall t :: t in backups ==> t in listing;
        assert backups.Keys == {};
        return NoBackup;
      }
      var latest := listing[0];
      PlaceIsRank(backups, listing, 0);
      assert Newest(backups, latest);
      ChosenSurvives(Contents(), latest, now, stuck);
      var preBackup: Option<int> := None;
      if live.Some? {
        var taken := BackupFile(now, DEFAULT_RETENTION, stuck);
        if taken.NameTaken? {
          return NoPreBackup;
        }
        preBackup := Some(now);
      }
      live := Some(backups[latest]);
      return Restored(latest, preBackup);
    }
  }

  lemma Someone(s: set<int>)
    requires s != {}
    ensures exists t :: t in s
  {
    assert (forall t :: t !in s) ==> s == {};
  }

  lemma NothingToRotate(b: map<int, string>, l: seq<int>, keep: nat, stuck: set<int>)
    requires IsListing(b, l) && |l| <= keep
    ensures Rotated(b, keep, stuck) == b
  {
    forall t | t in b ensures |NewerThan(b, t)| < keep {
      var i :| 0 <= i < |l| && l[i] == t;
      PlaceIsRank(b, l, i);
    }
  }

  lemma TailGone(b: map<int, string>, l: seq<int>, keep: nat, stuck: set<int>, left: map<int, string>)
    requires IsListing(b, l) && keep <= |l|
    requires forall t :: t in left <==> t in b && (t in stuck || t !in l[keep..])
    requires forall t :: t in left ==> left[t] == b[t]
    ensures left == Rotated(b, keep, stuck)
  {
    TailIsOld(b, l, keep);
    forall t ensures t in left <==> t in Rotated(b, keep, stuck) {
      assert t in b ==> (t in l[keep..] <==> |NewerThan(b, t)| >= keep);
    }
  }

  lemma TailIsOld(b: map<int, string>, l: seq<int>, keep: nat)
    requires IsListing(b, l) && keep <= |l|
    ensures forall t :: t in b ==> (t in l[keep..] <==> |NewerThan(b, t)| >= keep)
  {
    forall t | t in b ensures t in l[keep..] <==> |NewerThan(b, t)| >= keep {
      var i :| 0 <= i < |l| && l[i] == t;
      PlaceIsRank(b, l, i);
      if i >= keep {
        assert l[keep..][i - keep] == t;
      }
    }
  }
}
