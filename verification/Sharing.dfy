/**
 * `sharing` of `src/cash/_plain_data.py` (lines 164-214): which lists, dicts and bytearrays are met
 * more than once, found by comparing only the items whose reference count is over that of an item
 * held once.
 */
module Sharing {
  import opened Options
  import opened PlainHeap
  import opened SpineCheck

  /** A position among the writable items of a level. */
  datatype Place = Place(level: nat, pos: nat)

  datatype Repeat = Repeat(again: Place, first: Place)

  /** `first` and `repeats` as the scan fills them. */
  datatype Found = Found(first: map<Id, Place>, repeats: seq<Repeat>)

  const NOTHING := Found(map[], [])

  // ---- The scan of one level ---------------------------------------------

  function Note(s: Found, place: Place, x: Id): Found
  {
    if x in s.first then s.(repeats := s.repeats + [Repeat(place, s.first[x])]) else s.(first := s.first[x := place])
  }

  /** The first `n` items of a level, of which those of `flags` are looked at. */
  function ScanRow(row: seq<Id>, flags: seq<bool>, d: nat, n: nat, s: Found): Found
    requires n <= |row| == |flags|
  {
    if n == 0 then s
    else
      var t := ScanRow(row, flags, d, n - 1, s);
      if flags[n - 1] then Note(t, Place(d, n - 1), row[n - 1]) else t
  }

  /** Every item is looked at. */
  function All(n: nat): (r: seq<bool>)
    ensures |r| == n && forall i | 0 <= i < n :: r[i]
  {
    seq(n, i => true)
  }

  /** The plain scan: every second and later meeting, over the first `d` levels. */
  ghost function Naive(rows: seq<seq<Id>>, d: nat): Found
    requires d <= |rows|
  {
    if d == 0 then NOTHING else ScanRow(rows[d - 1], All(|rows[d - 1]|), d - 1, |rows[d - 1]|, Naive(rows, d - 1))
  }

  /** What the reference counts depend on, level by level; `twiceAt` is the level the caller's own list holds too. */
  datatype Counts = Counts(held: Id -> nat, twiceAt: Option<nat>, mixed: nat -> bool, above: (nat, Id) -> nat)

  function Spare(twiceAt: Option<nat>, d: nat): nat
  {
    if twiceAt == Some(d) then 1 else 0
  }

  /**
   * The references to an item while level `d` is looked at, beyond the constant of asking: from
   * elsewhere (`held`), from the level's flat list and from the list of its writable items when that is another,
   * from the list of items noted before, and from what the walk still has of the levels above.
   */
  function Refs(row: seq<Id>, c: Counts, d: nat, noted: map<Id, Place>, x: Id): nat
  {
    c.held(x) + Count(row, x) + (if c.mixed(d) then Count(row, x) else 0) + (if x in noted then 1 else 0) + c.above(d, x)
  }

  /** Over the count of an item held by one slot, and by the caller's own list where there is one, and met once. */
  predicate Over(row: seq<Id>, c: Counts, d: nat, noted: map<Id, Place>, x: Id)
  {
    Refs(row, c, d, noted, x) > (if c.mixed(d) then 3 else 2) + Spare(c.twiceAt, d)
  }

  lemma OverIs(row: seq<Id>, c: Counts, d: nat, noted: map<Id, Place>, x: Id)
    requires x in row && c.held(x) >= 1 + Spare(c.twiceAt, d)
    ensures Over(row, c, d, noted, x) <==>
              c.held(x) >= 2 + Spare(c.twiceAt, d) || Count(row, x) >= 2 || x in noted || c.above(d, x) >= 1
  {
    CountIn(row, x);
  }

  /** The filtered scan over the first `d` levels. */
  ghost function Filtered(rows: seq<seq<Id>>, c: Counts, d: nat): Found
    requires d <= |rows|
  {
    if d == 0 then NOTHING
    else
      var s := Filtered(rows, c, d - 1);
      ScanRow(rows[d - 1], RowFlags(rows[d - 1], c, d - 1, s.first), d - 1, |rows[d - 1]|, s)
  }

  function RowFlags(row: seq<Id>, c: Counts, d: nat, noted: map<Id, Place>): (r: seq<bool>)
    ensures |r| == |row|
  {
    seq(|row|, i requires 0 <= i < |row| => Over(row, c, d, noted, row[i]))
  }

  /** Every item is held by something, and by the caller's list where there is one; the walk's lists of the levels above hold only what was met there. */
  ghost predicate CountsOk(rows: seq<seq<Id>>, c: Counts)
  {
    && (forall d, i | 0 <= d < |rows| && 0 <= i < |rows[d]| :: c.held(rows[d][i]) >= 1 + Spare(c.twiceAt, d))
    && (forall d: nat, x: Id {:trigger c.above(d, x)} | d < |rows| && Met(rows, d, x) == 0 :: c.above(d, x) == 0)
  }

  // ---- How often an item is noted ----------------------------------------

  /** How many of the first `n` items of a level are `x` and are looked at. */
  ghost function Looked(row: seq<Id>, flags: seq<bool>, n: nat, x: Id): nat
    requires n <= |row| == |flags|
  {
    if n == 0 then 0 else Looked(row, flags, n - 1, x) + if row[n - 1] == x && flags[n - 1] then 1 else 0
  }

  lemma {:induction false} LookedAll(row: seq<Id>, flags: seq<bool>, n: nat, x: Id)
    requires n <= |row| == |flags|
    ensures Looked(row, flags, n, x) <= Count(row[..n], x)
    ensures Looked(row, flags, n, x) == Count(row[..n], x) <==> forall i | 0 <= i < n && row[i] == x :: flags[i]
  {
    if n > 0 {
      LookedAll(row, flags, n - 1, x);
      assert row[..n] == row[..n - 1] + [row[n - 1]];
      CountAppend(row[..n - 1], [row[n - 1]], x);
      assert Count([row[n - 1]], x) == if row[n - 1] == x then 1 else 0;
    }
  }

  /** How many repeats begin at a place that holds `x`. */
  ghost function Again(rows: seq<seq<Id>>, repeats: seq<Repeat>, x: Id): nat
  {
    if repeats == [] then 0
    else Again(rows, repeats[..|repeats| - 1], x) + if HoldsAt(rows, repeats[|repeats| - 1].again, x) then 1 else 0
  }

  ghost predicate HoldsAt(rows: seq<seq<Id>>, p: Place, x: Id)
  {
    p.level < |rows| && p.pos < |rows[p.level]| && rows[p.level][p.pos] == x
  }

  /** `looked` meetings of `x` make one first place and `looked - 1` repeats. */
  ghost predicate Tallied(rows: seq<seq<Id>>, s: Found, x: Id, looked: nat)
  {
    (x in s.first <==> looked > 0) && Again(rows, s.repeats, x) == if looked > 0 then looked - 1 else 0
  }

  lemma NoteTallies(rows: seq<seq<Id>>, s: Found, place: Place, y: Id, x: Id, looked: nat)
    requires Tallied(rows, s, x, looked) && HoldsAt(rows, place, y)
    ensures Tallied(rows, Note(s, place, y), x, looked + if x == y then 1 else 0)
  {
    var t := Note(s, place, y);
    if y in s.first {
      assert t.repeats[..|t.repeats| - 1] == s.repeats;
    }
  }

  lemma {:induction false} RowTallies(
    rows: seq<seq<Id>>, flags: seq<bool>, d: nat, n: nat, s: Found, x: Id, looked: nat)
    requires d < |rows| && n <= |rows[d]| == |flags| && Tallied(rows, s, x, looked)
    ensures Tallied(rows, ScanRow(rows[d], flags, d, n, s), x, looked + Looked(rows[d], flags, n, x))
  {
    if n > 0 {
      RowTallies(rows, flags, d, n - 1, s, x, looked);
      if flags[n - 1] {
        NoteTallies(rows, ScanRow(rows[d], flags, d, n - 1, s), Place(d, n - 1), rows[d][n - 1], x,
                    looked + Looked(rows[d], flags, n - 1, x));
      }
    }
  }

  /** How often `x` is looked at on the first `d` levels of the filtered scan. */
  ghost function LookedUpto(rows: seq<seq<Id>>, c: Counts, d: nat, x: Id): nat
    requires d <= |rows|
  {
    if d == 0 then 0
    else
      LookedUpto(rows, c, d - 1, x)
      + Looked(rows[d - 1], RowFlags(rows[d - 1], c, d - 1, Filtered(rows, c, d - 1).first), |rows[d - 1]|, x)
  }

  lemma {:induction false} FilteredTallies(rows: seq<seq<Id>>, c: Counts, d: nat, x: Id)
    requires d <= |rows|
    ensures Tallied(rows, Filtered(rows, c, d), x, LookedUpto(rows, c, d, x))
  {
    if d > 0 {
      FilteredTallies(rows, c, d - 1, x);
      var s := Filtered(rows, c, d - 1);
      RowTallies(rows, RowFlags(rows[d - 1], c, d - 1, s.first), d - 1, |rows[d - 1]|, s, x, LookedUpto(rows, c, d - 1, x));
    }
  }

  lemma {:induction false} NaiveTallies(rows: seq<seq<Id>>, d: nat, x: Id)
    requires d <= |rows|
    ensures Tallied(rows, Naive(rows, d), x, Met(rows, d, x))
  {
    if d > 0 {
      NaiveTallies(rows, d - 1, x);
      var row := rows[d - 1];
      RowTallies(rows, All(|row|), d - 1, |row|, Naive(rows, d - 1), x, Met(rows, d - 1, x));
      LookedAll(row, All(|row|), |row|, x);
      assert row[..|row|] == row;
    }
  }

  // ---- When the filter loses nothing -------------------------------------

  /** The first level on which `x` is met. */
  ghost predicate MetFirst(rows: seq<seq<Id>>, d: nat, x: Id)
  {
    d < |rows| && Met(rows, d, x) == 0 && x in rows[d]
  }

  /** Something else holds `x` too, or it is met twice on the first level it is met on. */
  ghost predicate Caught(rows: seq<seq<Id>>, c: Counts, x: Id)
  {
    forall d: nat | MetFirst(rows, d, x) :: c.held(x) >= 2 + Spare(c.twiceAt, d) || Count(rows[d], x) >= 2
  }

  ghost predicate Repeated(rows: seq<seq<Id>>, x: Id)
  {
    Met(rows, |rows|, x) >= 2
  }

  lemma FlagAt(rows: seq<seq<Id>>, c: Counts, d: nat, noted: map<Id, Place>, i: nat)
    requires CountsOk(rows, c) && d < |rows| && i < |rows[d]|
    ensures RowFlags(rows[d], c, d, noted)[i] <==>
              c.held(rows[d][i]) >= 2 + Spare(c.twiceAt, d) || Count(rows[d], rows[d][i]) >= 2 || rows[d][i] in noted || c.above(d, rows[d][i]) >= 1
  {
    OverIs(rows[d], c, d, noted, rows[d][i]);
  }

  /** Every item of a level that is `x` is looked at. */
  ghost predicate AllLooked(row: seq<Id>, flags: seq<bool>, x: Id)
    requires |row| == |flags|
  {
    forall i | 0 <= i < |row| && row[i] == x :: flags[i]
  }

  lemma CaughtFlags(rows: seq<seq<Id>>, c: Counts, d: nat, noted: map<Id, Place>, x: Id)
    requires CountsOk(rows, c) && d < |rows| && Caught(rows, c, x) && (Met(rows, d, x) > 0 ==> x in noted)
    ensures AllLooked(rows[d], RowFlags(rows[d], c, d, noted), x)
  {
    forall i | 0 <= i < |rows[d]| && rows[d][i] == x ensures RowFlags(rows[d], c, d, noted)[i] {
      FlagAt(rows, c, d, noted, i);
      assert Met(rows, d, x) == 0 ==> MetFirst(rows, d, x);
    }
  }

  lemma LookedRow(row: seq<Id>, flags: seq<bool>, x: Id)
    requires |row| == |flags|
    ensures Looked(row, flags, |row|, x) <= Count(row, x)
    ensures AllLooked(row, flags, x) ==> Looked(row, flags, |row|, x) == Count(row, x)
  {
    LookedAll(row, flags, |row|, x);
    assert row[..|row|] == row;
  }

  /** A caught item is looked at wherever it is met. */
  lemma {:induction false} CaughtLooked(rows: seq<seq<Id>>, c: Counts, d: nat, x: Id)
    requires CountsOk(rows, c) && d <= |rows| && Caught(rows, c, x)
    ensures LookedUpto(rows, c, d, x) == Met(rows, d, x)
    ensures Met(rows, d, x) > 0 ==> x in Filtered(rows, c, d).first
  {
    if d > 0 {
      CaughtLooked(rows, c, d - 1, x);
      var noted := Filtered(rows, c, d - 1).first;
      CaughtFlags(rows, c, d - 1, noted, x);
      LookedRow(rows[d - 1], RowFlags(rows[d - 1], c, d - 1, noted), x);
    }
    FilteredTallies(rows, c, d, x);
  }

  lemma {:induction false} LookedAtMost(rows: seq<seq<Id>>, c: Counts, d: nat, x: Id)
    requires d <= |rows|
    ensures LookedUpto(rows, c, d, x) <= Met(rows, d, x)
  {
    if d > 0 {
      LookedAtMost(rows, c, d - 1, x);
      LookedRow(rows[d - 1], RowFlags(rows[d - 1], c, d - 1, Filtered(rows, c, d - 1).first), x);
    }
  }

  /** An item that is not caught is passed over on its first level. */
  lemma UncaughtMissed(rows: seq<seq<Id>>, c: Counts, d: nat, x: Id)
    requires CountsOk(rows, c) && MetFirst(rows, d, x) && c.held(x) < 2 + Spare(c.twiceAt, d) && Count(rows[d], x) < 2
    ensures LookedUpto(rows, c, d + 1, x) < Met(rows, d + 1, x)
  {
    LookedAtMost(rows, c, d, x);
    FilteredTallies(rows, c, d, x);
    var row, noted := rows[d], Filtered(rows, c, d).first;
    var flags := RowFlags(row, c, d, noted);
    var i :| 0 <= i < |row| && row[i] == x;
    FlagAt(rows, c, d, noted, i);
    LookedAll(row, flags, |row|, x);
    assert row[..|row|] == row;
  }

  lemma {:induction false} MissedStays(rows: seq<seq<Id>>, c: Counts, d: nat, e: nat, x: Id)
    requires d <= e <= |rows| && LookedUpto(rows, c, d, x) < Met(rows, d, x)
    ensures LookedUpto(rows, c, e, x) < Met(rows, e, x)
    decreases e
  {
    if d < e {
      MissedStays(rows, c, d, e - 1, x);
      LookedRow(rows[e - 1], RowFlags(rows[e - 1], c, e - 1, Filtered(rows, c, e - 1).first), x);
    }
  }

  lemma NoneMissed(rows: seq<seq<Id>>, c: Counts, x: Id)
    requires CountsOk(rows, c) && LookedUpto(rows, c, |rows|, x) == Met(rows, |rows|, x)
    ensures Caught(rows, c, x)
  {
    forall d: nat | MetFirst(rows, d, x) ensures c.held(x) >= 2 + Spare(c.twiceAt, d) || Count(rows[d], x) >= 2 {
      if c.held(x) < 2 + Spare(c.twiceAt, d) && Count(rows[d], x) < 2 {
        UncaughtMissed(rows, c, d, x);
        MissedStays(rows, c, d + 1, |rows|, x);
      }
    }
  }

  /** If the filtered scan lists what the plain scan lists, every repeated item is caught. */
  lemma ExactMeansCaught(rows: seq<seq<Id>>, c: Counts, x: Id)
    requires CountsOk(rows, c) && Repeated(rows, x)
    requires Filtered(rows, c, |rows|).repeats == Naive(rows, |rows|).repeats
    ensures Caught(rows, c, x)
  {
    FilteredTallies(rows, c, |rows|, x);
    NaiveTallies(rows, |rows|, x);
    NoneMissed(rows, c, x);
  }

  // ---- The other direction -----------------------------------------------

  /** The two scans have listed the same, and agree on the first places of repeated items. */
  ghost predicate Agree(rows: seq<seq<Id>>, f: Found, n: Found)
  {
    && f.repeats == n.repeats
    && (forall x <- f.first :: x in n.first && n.first[x] == f.first[x])
    && (forall x <- n.first | Repeated(rows, x) :: x in f.first)
  }

  lemma NoteAgrees(rows: seq<seq<Id>>, f: Found, n: Found, place: Place, y: Id, flag: bool)
    requires Agree(rows, f, n) && (Repeated(rows, y) ==> flag) && (y in n.first ==> Repeated(rows, y))
    ensures Agree(rows, if flag then Note(f, place, y) else f, Note(n, place, y))
  {
  }

  lemma {:induction false} MetGrows(rows: seq<seq<Id>>, d: nat, e: nat, x: Id)
    requires d <= e <= |rows|
    ensures Met(rows, d, x) <= Met(rows, e, x)
    decreases e
  {
    if d < e {
      MetGrows(rows, d, e - 1, x);
    }
  }

  lemma CountSplit(row: seq<Id>, i: nat)
    requires i < |row|
    ensures Count(row, row[i]) >= Count(row[..i], row[i]) + 1
  {
    assert row == row[..i] + row[i..];
    CountAppend(row[..i], row[i..], row[i]);
  }

  /** An item the plain scan has met before is repeated. */
  lemma MetBefore(rows: seq<seq<Id>>, d: nat, i: nat)
    requires d < |rows| && i < |rows[d]|
    ensures rows[d][i] in ScanRow(rows[d], All(|rows[d]|), d, i, Naive(rows, d)).first ==> Repeated(rows, rows[d][i])
  {
    var row, x := rows[d], rows[d][i];
    NaiveTallies(rows, d, x);
    RowTallies(rows, All(|row|), d, i, Naive(rows, d), x, Met(rows, d, x));
    LookedAll(row, All(|row|), i, x);
    CountSplit(row, i);
    MetGrows(rows, d + 1, |rows|, x);
  }

  lemma {:induction false} RowAgrees(rows: seq<seq<Id>>, flags: seq<bool>, d: nat, n: nat, f: Found)
    requires d < |rows| && n <= |rows[d]| == |flags| && Agree(rows, f, Naive(rows, d))
    requires forall i | 0 <= i < |flags| && Repeated(rows, rows[d][i]) :: flags[i]
    ensures Agree(rows, ScanRow(rows[d], flags, d, n, f), ScanRow(rows[d], All(|rows[d]|), d, n, Naive(rows, d)))
  {
    if n > 0 {
      RowAgrees(rows, flags, d, n - 1, f);
      MetBefore(rows, d, n - 1);
      NoteAgrees(rows, ScanRow(rows[d], flags, d, n - 1, f), ScanRow(rows[d], All(|rows[d]|), d, n - 1, Naive(rows, d)),
                 Place(d, n - 1), rows[d][n - 1], flags[n - 1]);
    }
  }

  ghost predicate AllCaught(rows: seq<seq<Id>>, c: Counts)
  {
    forall x: Id | Repeated(rows, x) :: Caught(rows, c, x)
  }

  lemma RepeatedLooked(rows: seq<seq<Id>>, c: Counts, d: nat, i: nat)
    requires CountsOk(rows, c) && d < |rows| && i < |rows[d]| && Caught(rows, c, rows[d][i])
    ensures RowFlags(rows[d], c, d, Filtered(rows, c, d).first)[i]
  {
    CaughtLooked(rows, c, d, rows[d][i]);
    CaughtFlags(rows, c, d, Filtered(rows, c, d).first, rows[d][i]);
  }

  lemma NextAgrees(rows: seq<seq<Id>>, c: Counts, d: nat, s: Found)
    requires CountsOk(rows, c) && d < |rows| && AllCaught(rows, c) && s == Filtered(rows, c, d)
    requires Agree(rows, s, Naive(rows, d))
    ensures Agree(rows, ScanRow(rows[d], RowFlags(rows[d], c, d, s.first), d, |rows[d]|, s),
                  ScanRow(rows[d], All(|rows[d]|), d, |rows[d]|, Naive(rows, d)))
  {
    var flags := RowFlags(rows[d], c, d, s.first);
    forall i | 0 <= i < |flags| && Repeated(rows, rows[d][i]) ensures flags[i] {
      RepeatedLooked(rows, c, d, i);
    }
    RowAgrees(rows, flags, d, |rows[d]|, s);
  }

  lemma {:induction false} CaughtAgrees(rows: seq<seq<Id>>, c: Counts, d: nat)
    requires CountsOk(rows, c) && d <= |rows| && AllCaught(rows, c)
    ensures Agree(rows, Filtered(rows, c, d), Naive(rows, d))
  {
    if d > 0 {
      CaughtAgrees(rows, c, d - 1);
      NextAgrees(rows, c, d - 1, Filtered(rows, c, d - 1));
    }
  }

  /**
   * The filter loses no repeat exactly when every container met twice has a second reference from
   * elsewhere, or is met twice on the first level it is met on.
   */
  lemma FilterIsExact(rows: seq<seq<Id>>, c: Counts)
    requires CountsOk(rows, c)
    ensures Filtered(rows, c, |rows|).repeats == Naive(rows, |rows|).repeats <==> AllCaught(rows, c)
  {
    if Filtered(rows, c, |rows|).repeats == Naive(rows, |rows|).repeats {
      forall x: Id | Repeated(rows, x) ensures Caught(rows, c, x) {
        ExactMeansCaught(rows, c, x);
      }
    }
    if AllCaught(rows, c) {
      CaughtAgrees(rows, c, |rows|);
    }
  }

  // ---- First places ------------------------------------------------------

  /** The first place at which `x` is met. */
  ghost predicate Earliest(rows: seq<seq<Id>>, p: Place, x: Id)
  {
    HoldsAt(rows, p, x) && Met(rows, p.level, x) == 0 && x !in rows[p.level][..p.pos]
  }

  /** What has been noted first for `x`, when it was looked at everywhere so far. */
  ghost predicate FirstIs(rows: seq<seq<Id>>, s: Found, x: Id)
  {
    x in s.first ==> Earliest(rows, s.first[x], x)
  }

  lemma {:induction false} RowFirst(rows: seq<seq<Id>>, flags: seq<bool>, d: nat, n: nat, s: Found, x: Id)
    requires d < |rows| && n <= |rows[d]| == |flags| && AllLooked(rows[d], flags, x)
    requires FirstIs(rows, s, x) && (x in s.first <==> Met(rows, d, x) > 0)
    ensures FirstIs(rows, ScanRow(rows[d], flags, d, n, s), x)
    ensures x in ScanRow(rows[d], flags, d, n, s).first <==> Met(rows, d, x) > 0 || x in rows[d][..n]
  {
    if n > 0 {
      RowFirst(rows, flags, d, n - 1, s, x);
      assert rows[d][..n] == rows[d][..n - 1] + [rows[d][n - 1]];
    }
  }

  /** A caught item that is met is in `shared`, under the first place it is met at. */
  lemma {:induction false} CaughtFirst(rows: seq<seq<Id>>, c: Counts, d: nat, x: Id)
    requires CountsOk(rows, c) && d <= |rows| && Caught(rows, c, x)
    ensures FirstIs(rows, Filtered(rows, c, d), x) && (x in Filtered(rows, c, d).first <==> Met(rows, d, x) > 0)
  {
    if d > 0 {
      CaughtFirst(rows, c, d - 1, x);
      var s := Filtered(rows, c, d - 1);
      CaughtFlags(rows, c, d - 1, s.first, x);
      RowFirst(rows, RowFlags(rows[d - 1], c, d - 1, s.first), d - 1, |rows[d - 1]|, s, x);
      CountIn(rows[d - 1], x);
      assert rows[d - 1][..|rows[d - 1]|] == rows[d - 1];
    }
  }

  // ---- `sharing` ---------------------------------------------------------

  function Seqs(h: Heap, level: seq<Id>): seq<Id>
  {
    if level == [] then []
    else if At(h, level[0]).Dict? then Seqs(h, level[1..])
    else [level[0]] + Seqs(h, level[1..])
  }

  function Dicts(h: Heap, level: seq<Id>): seq<Id>
  {
    if level == [] then []
    else if At(h, level[0]).Dict? then [level[0]] + Dicts(h, level[1..])
    else Dicts(h, level[1..])
  }

  /** What a level holds, as `tree_levels` lists it: the items of its lists and tuples, then its dicts' values. */
  function FlatOf(h: Heap, level: seq<Id>): seq<Id>
  {
    Flat(h, Seqs(h, level)) + Flat(h, Dicts(h, level))
  }

  function LevelAt(h: Heap, value: Id, k: nat): seq<Id>
  {
    if k == 0 then [value] else Nodes(h, FlatOf(h, LevelAt(h, value, k - 1)))
  }

  predicate IsWritable(h: Heap, x: Id)
  {
    At(h, x).List? || At(h, x).Dict? || (At(h, x).Leaf? && At(h, x).ty == Bytearray)
  }

  /** The writable items of a level. */
  function Items(h: Heap, flat: seq<Id>): (r: seq<Id>)
    ensures forall x <- r :: x in flat && IsWritable(h, x)
    ensures forall x <- flat | IsWritable(h, x) :: x in r
  {
    if flat == [] then []
    else if IsWritable(h, flat[0]) then [flat[0]] + Items(h, flat[1..])
    else Items(h, flat[1..])
  }

  function RowAt(h: Heap, value: Id, k: nat): seq<Id>
  {
    Items(h, FlatOf(h, LevelAt(h, value, k)))
  }

  /** Leaves and containers alone, keys that are leaves, and a dict only where trees are walked. */
  predicate LevelOk(h: Heap, leaves: set<LeafTy>, tree: bool, level: seq<Id>)
  {
    && (forall k <- FlatKeys(h, level) :: IsLeafOf(h, leaves, k))
    && (forall x <- FlatOf(h, level) :: IsLeafOf(h, leaves, x) || (IsNode(h, x) && (tree || !At(h, x).Dict?)))
  }

  /** `n` levels of plain data, and nothing below. */
  ghost predicate PlainTo(h: Heap, leaves: set<LeafTy>, tree: bool, value: Id, limit: nat, n: nat)
  {
    0 < n <= limit && LevelAt(h, value, n) == [] && PlainSoFar(h, leaves, tree, value, n)
  }

  ghost predicate PlainSoFar(h: Heap, leaves: set<LeafTy>, tree: bool, value: Id, n: nat)
  {
    forall k: nat {:trigger PlainAt(h, leaves, tree, value, k)} | k < n :: PlainAt(h, leaves, tree, value, k)
  }

  ghost predicate PlainAt(h: Heap, leaves: set<LeafTy>, tree: bool, value: Id, k: nat)
  {
    LevelAt(h, value, k) != [] && LevelOk(h, leaves, tree, LevelAt(h, value, k))
  }

  /** A level that is not plain, or is too deep, ends every hope of a plain value. */
  lemma NotPlain(h: Heap, leaves: set<LeafTy>, tree: bool, value: Id, limit: nat, d: nat)
    requires PlainSoFar(h, leaves, tree, value, d) && LevelAt(h, value, d) != []
    requires d == limit || !LevelOk(h, leaves, tree, LevelAt(h, value, d))
    ensures forall n: nat :: !PlainTo(h, leaves, tree, value, limit, n)
  {
    assert d < limit ==> !PlainAt(h, leaves, tree, value, d);
    forall n: nat ensures !PlainTo(h, leaves, tree, value, limit, n) {
      assert n < d ==> PlainAt(h, leaves, tree, value, n);
    }
  }

  predicate Kind(h: Heap, tree: bool, value: Id)
  {
    IsNode(h, value) && (tree || !At(h, value).Dict?)
  }

  ghost predicate IsRows(h: Heap, value: Id, rows: seq<seq<Id>>)
  {
    forall k: nat {:trigger RowIs(h, value, rows, k)} | k < |rows| :: RowIs(h, value, rows, k)
  }

  ghost predicate RowIs(h: Heap, value: Id, rows: seq<seq<Id>>, k: nat)
  {
    k < |rows| && rows[k] == RowAt(h, value, k)
  }

  lemma RowsMore(h: Heap, value: Id, was: seq<seq<Id>>, row: seq<Id>)
    requires IsRows(h, value, was) && row == RowAt(h, value, |was|)
    ensures IsRows(h, value, was + [row])
  {
    forall k: nat | k <= |was| ensures RowIs(h, value, was + [row], k) {
      assert k < |was| ==> RowIs(h, value, was, k);
    }
  }

  lemma PlainMore(h: Heap, leaves: set<LeafTy>, tree: bool, value: Id, d: nat, level: seq<Id>)
    requires PlainSoFar(h, leaves, tree, value, d) && level == LevelAt(h, value, d) && level != []
    requires LevelOk(h, leaves, tree, level)
    ensures PlainSoFar(h, leaves, tree, value, d + 1)
  {
    assert PlainAt(h, leaves, tree, value, d);
  }

  /**
   * What holds of the counts the interpreter keeps: an item of a container is held, on the level the caller
   * names by the caller's list too, and the walk's older lists hold only what was met.
   */
  ghost predicate Counted(h: Heap, value: Id, held: Id -> nat, twiceAt: Option<nat>, above: (nat, Id) -> nat)
  {
    && (forall c: Id, x: Id | x in Kids(h, c) :: held(x) >= 1)
    && (twiceAt.Some? ==> forall x <- RowAt(h, value, twiceAt.value) :: held(x) >= 2)
    && (forall d: nat, x: Id {:trigger above(d, x)} | NotAbove(h, value, d, x) :: above(d, x) == 0)
  }

  ghost predicate NotAbove(h: Heap, value: Id, d: nat, x: Id)
  {
    forall k: nat | k < d :: x !in RowAt(h, value, k)
  }

  function CountsFor(h: Heap, value: Id, held: Id -> nat, twiceAt: Option<nat>, above: (nat, Id) -> nat): Counts
  {
    Counts(held, twiceAt, (d: nat) => |RowAt(h, value, d)| != |FlatOf(h, LevelAt(h, value, d))|, above)
  }

  lemma {:induction false} MetNone(rows: seq<seq<Id>>, d: nat, k: nat, x: Id)
    requires k < d <= |rows| && Met(rows, d, x) == 0
    ensures x !in rows[k]
    decreases d
  {
    CountIn(rows[d - 1], x);
    if k < d - 1 {
      MetNone(rows, d - 1, k, x);
    }
  }

  lemma RowHeld(h: Heap, value: Id, held: Id -> nat, k: nat, x: Id)
    requires x in RowAt(h, value, k) && forall c: Id, x: Id | x in Kids(h, c) :: held(x) >= 1
    ensures held(x) >= 1
  {
    var level := LevelAt(h, value, k);
    assert x in FlatOf(h, level);
    if x in Flat(h, Seqs(h, level)) {
      var c := FlatFrom(h, Seqs(h, level), x);
    } else {
      var c := FlatFrom(h, Dicts(h, level), x);
    }
  }

  lemma RowsCounted(h: Heap, value: Id, held: Id -> nat, twiceAt: Option<nat>, above: (nat, Id) -> nat, rows: seq<seq<Id>>)
    requires Counted(h, value, held, twiceAt, above) && IsRows(h, value, rows)
    ensures CountsOk(rows, CountsFor(h, value, held, twiceAt, above))
  {
    forall d, i | 0 <= d < |rows| && 0 <= i < |rows[d]| ensures held(rows[d][i]) >= 1 + Spare(twiceAt, d) {
      assert RowIs(h, value, rows, d);
      RowHeld(h, value, held, d, rows[d][i]);
    }
    forall d: nat, x: Id | d < |rows| && Met(rows, d, x) == 0 ensures above(d, x) == 0 {
      forall k: nat | k < d ensures x !in RowAt(h, value, k) {
        MetNone(rows, d, k, x);
        assert RowIs(h, value, rows, k);
      }
      assert NotAbove(h, value, d, x);
    }
  }

  /** The scan of a level's flagged items. */
  method Scan(row: seq<Id>, flags: seq<bool>, d: nat, s: Found) returns (r: Found)
    requires |row| == |flags|
    ensures r == ScanRow(row, flags, d, |row|, s)
  {
    r := s;
    for pos := 0 to |row|
      invariant r == ScanRow(row, flags, d, pos, s)
    {
      if flags[pos] {
        if row[pos] in r.first {
          r := r.(repeats := r.repeats + [Repeat(Place(d, pos), r.first[row[pos]])]);
        } else {
          r := r.(first := r.first[row[pos] := Place(d, pos)]);
        }
      }
    }
  }

  ghost predicate IsFiltered(rows: seq<seq<Id>>, c: Counts, d: nat, found: Found)
  {
    d <= |rows| && found == Filtered(rows, c, d)
  }

  lemma FilteredNext(was: seq<seq<Id>>, row: seq<Id>, c: Counts, found: Found, more: Found)
    requires IsFiltered(was, c, |was|, found)
    requires more == ScanRow(row, RowFlags(row, c, |was|, found.first), |was|, |row|, found)
    ensures IsFiltered(was + [row], c, |was| + 1, more)
  {
    FilteredMore(was, was + [row], c, |was|);
  }

  /** One level more: the next containers, and the filtered scan of this level's items. */
  method ShareLevel(
    h: Heap, value: Id, c: Counts, depth: nat, level: seq<Id>, found: Found, ghost was: seq<seq<Id>>)
    returns (next: seq<Id>, more: Found, ghost rows: seq<seq<Id>>)
    requires level == LevelAt(h, value, depth) && |was| == depth && IsRows(h, value, was)
    requires IsFiltered(was, c, depth, found)
    ensures next == LevelAt(h, value, depth + 1) && |rows| == depth + 1 && IsRows(h, value, rows)
    ensures IsFiltered(rows, c, depth + 1, more)
  {
    var flat := FlatOf(h, level);
    var row := Items(h, flat);
    var flags := RowFlags(row, c, depth, found.first);
    rows := was + [row];
    RowsMore(h, value, was, row);
    more := Scan(row, flags, depth, found);
    FilteredNext(was, row, c, found, more);
    next := Nodes(h, flat);
  }

  predicate IsNumber(h: Heap, numbers: set<LeafTy>, x: Id)
  {
    At(h, x).Leaf? && At(h, x).ty in numbers
  }

  /** A numpy number is among the leaves of the first `n` levels. */
  ghost predicate HasNumbers(h: Heap, value: Id, numbers: set<LeafTy>, n: nat)
  {
    exists k: nat {:trigger NumberOn(h, value, numbers, k)} :: k < n && NumberOn(h, value, numbers, k)
  }

  ghost predicate NumberOn(h: Heap, value: Id, numbers: set<LeafTy>, k: nat)
  {
    NumberAt(h, numbers, LevelAt(h, value, k))
  }

  lemma NumbersMore(h: Heap, value: Id, numbers: set<LeafTy>, d: nat, level: seq<Id>)
    requires level == LevelAt(h, value, d)
    ensures HasNumbers(h, value, numbers, d + 1) <==> HasNumbers(h, value, numbers, d) || NumberAt(h, numbers, level)
  {
    assert NumberOn(h, value, numbers, d) <==> NumberAt(h, numbers, level);
  }

  predicate NumberAt(h: Heap, numbers: set<LeafTy>, level: seq<Id>)
  {
    exists x <- FlatOf(h, level) :: IsNumber(h, numbers, x)
  }

  ghost predicate IsPlain(h: Heap, leaves: set<LeafTy>, tree: bool, value: Id, limit: nat)
  {
    Kind(h, tree, value) && exists n: nat :: PlainTo(h, leaves, tree, value, limit, n)
  }

  /** What the walk has found above level `depth`. */
  ghost predicate Walked(
    h: Heap, leaves: set<LeafTy>, numbers: set<LeafTy>, value: Id, tree: bool, c: Counts, depth: nat, level: seq<Id>,
    rows: seq<seq<Id>>, found: Found, numpy: bool)
  {
    && level == LevelAt(h, value, depth) && |rows| == depth && IsRows(h, value, rows)
    && PlainSoFar(h, leaves, tree, value, depth)
    && IsFiltered(rows, c, depth, found)
    && (numpy <==> !tree && HasNumbers(h, value, numbers, depth))
  }

  lemma WalkStarts(h: Heap, leaves: set<LeafTy>, numbers: set<LeafTy>, value: Id, tree: bool, c: Counts)
    ensures Walked(h, leaves, numbers, value, tree, c, 0, [value], [], NOTHING, false)
  {
  }

  /** A level that is plain is walked. */
  method WalkLevel(
    h: Heap, ghost leaves: set<LeafTy>, numbers: set<LeafTy>, value: Id, tree: bool, c: Counts, depth: nat, level: seq<Id>,
    found: Found, numpy: bool, ghost was: seq<seq<Id>>)
    returns (next: seq<Id>, more: Found, has: bool, ghost rows: seq<seq<Id>>)
    requires Walked(h, leaves, numbers, value, tree, c, depth, level, was, found, numpy)
    requires level != [] && LevelOk(h, leaves, tree, level)
    ensures Walked(h, leaves, numbers, value, tree, c, depth + 1, next, rows, more, has)
  {
    PlainMore(h, leaves, tree, value, depth, level);
    NumbersMore(h, value, numbers, depth, level);
    has := numpy;
    if !tree && !has {
      has := NumberAt(h, numbers, level);
    }
    next, more, rows := ShareLevel(h, value, c, depth, level, found, was);
  }

  /** What `sharing` answers of a plain value. */
  ghost predicate Shares(
    h: Heap, leaves: set<LeafTy>, numbers: set<LeafTy>, value: Id, tree: bool, limit: nat, c: Counts,
    rows: seq<seq<Id>>, found: Found, numpy: bool)
  {
    && IsRows(h, value, rows) && PlainTo(h, leaves, tree, value, limit, |rows|)
    && IsFiltered(rows, c, |rows|, found) && ExactIffCaught(rows, c, found) && FirstHas(rows, c, found)
    && (numpy <==> !tree && HasNumbers(h, value, numbers, |rows|))
  }

  lemma WalkEnds(
    h: Heap, leaves: set<LeafTy>, numbers: set<LeafTy>, value: Id, tree: bool, limit: nat, held: Id -> nat, twiceAt: Option<nat>,
    above: (nat, Id) -> nat, c: Counts, depth: nat, level: seq<Id>, rows: seq<seq<Id>>, found: Found, numpy: bool)
    requires Counted(h, value, held, twiceAt, above) && c == CountsFor(h, value, held, twiceAt, above)
    requires Walked(h, leaves, numbers, value, tree, c, depth, level, rows, found, numpy)
    requires 0 < depth <= limit && level == [] && Kind(h, tree, value)
    ensures IsPlain(h, leaves, tree, value, limit)
    ensures Shares(h, leaves, numbers, value, tree, limit, c, rows, found, numpy)
  {
    assert PlainTo(h, leaves, tree, value, limit, depth);
    Conclude(h, value, held, twiceAt, above, rows, found);
  }

  lemma WalkStops(
    h: Heap, leaves: set<LeafTy>, numbers: set<LeafTy>, value: Id, tree: bool, limit: nat, c: Counts, depth: nat, level: seq<Id>,
    rows: seq<seq<Id>>, found: Found, numpy: bool)
    requires Walked(h, leaves, numbers, value, tree, c, depth, level, rows, found, numpy) && level != []
    requires depth == limit || !LevelOk(h, leaves, tree, level)
    ensures !IsPlain(h, leaves, tree, value, limit)
  {
    NotPlain(h, leaves, tree, value, limit, depth);
  }

  /**
   * `sharing`: None exactly for what is not plain. Otherwise `repeats` is the plain scan's list
   * exactly when every container met twice is caught, `first` has every caught item, and so every one
   * that something besides its slot holds, under the place it is first met at; and `numpy` says
   * whether a number of numpy is among the leaves, never of a tree.
   */
  method Share(
    h: Heap, leaves: set<LeafTy>, numbers: set<LeafTy>, value: Id, tree: bool, twiceAt: Option<nat>, limit: nat,
    held: Id -> nat, above: (nat, Id) -> nat)
    returns (r: Option<Found>, numpy: bool, ghost rows: seq<seq<Id>>)
    requires Counted(h, value, held, twiceAt, above)
    ensures r.Some? <==> IsPlain(h, leaves, tree, value, limit)
    ensures r.Some? ==>
              Shares(h, leaves, numbers, value, tree, limit, CountsFor(h, value, held, twiceAt, above), rows, r.value, numpy)
  {
    rows, numpy := [], false;
    if !Kind(h, tree, value) {
      return None, false, rows;
    }
    var c := CountsFor(h, value, held, twiceAt, above);
    var level, found := [value], NOTHING;
    WalkStarts(h, leaves, numbers, value, tree, c);
    for depth := 0 to limit
      invariant level != [] && Walked(h, leaves, numbers, value, tree, c, depth, level, rows, found, numpy)
    {
      if !LevelOk(h, leaves, tree, level) {
        WalkStops(h, leaves, numbers, value, tree, limit, c, depth, level, rows, found, numpy);
        return None, false, rows;
      }
      level, found, numpy, rows := WalkLevel(h, leaves, numbers, value, tree, c, depth, level, found, numpy, rows);
      if level == [] {
        WalkEnds(h, leaves, numbers, value, tree, limit, held, twiceAt, above, c, depth + 1, level, rows, found, numpy);
        return Some(found), numpy, rows;
      }
    }
    WalkStops(h, leaves, numbers, value, tree, limit, c, limit, level, rows, found, numpy);
    return None, false, rows;
  }

  ghost predicate ExactIffCaught(rows: seq<seq<Id>>, c: Counts, found: Found)
  {
    found.repeats == Naive(rows, |rows|).repeats <==> AllCaught(rows, c)
  }

  ghost predicate InFirst(rows: seq<seq<Id>>, found: Found, x: Id)
  {
    x in found.first && Earliest(rows, found.first[x], x)
  }

  /** Every caught item that is met is noted, under its first place. */
  ghost predicate FirstHas(rows: seq<seq<Id>>, c: Counts, found: Found)
  {
    forall x: Id | Met(rows, |rows|, x) > 0 && Caught(rows, c, x) :: InFirst(rows, found, x)
  }

  lemma Conclude(
    h: Heap, value: Id, held: Id -> nat, twiceAt: Option<nat>, above: (nat, Id) -> nat, rows: seq<seq<Id>>, found: Found)
    requires Counted(h, value, held, twiceAt, above) && IsRows(h, value, rows)
    requires IsFiltered(rows, CountsFor(h, value, held, twiceAt, above), |rows|, found)
    ensures ExactIffCaught(rows, CountsFor(h, value, held, twiceAt, above), found)
    ensures FirstHas(rows, CountsFor(h, value, held, twiceAt, above), found)
  {
    var c := CountsFor(h, value, held, twiceAt, above);
    RowsCounted(h, value, held, twiceAt, above, rows);
    FilterIsExact(rows, c);
    forall x: Id | Met(rows, |rows|, x) > 0 && Caught(rows, c, x) ensures InFirst(rows, found, x) {
      CaughtFirst(rows, c, |rows|, x);
    }
  }

  lemma {:induction false} FilteredMore(was: seq<seq<Id>>, rows: seq<seq<Id>>, c: Counts, d: nat)
    requires d <= |was| <= |rows| && rows[..|was|] == was
    ensures Filtered(was, c, d) == Filtered(rows, c, d)
  {
    if d > 0 {
      FilteredMore(was, rows, c, d - 1);
      assert rows[..|was|][d - 1] == rows[d - 1];
    }
  }

  // ---- A repeat that is lost ---------------------------------------------

  /** `x = [[1]]; [x, [x]]`: the inner list has one holder, `x`, which is met on two levels. */
  const NESTED: Heap := map[0 := List([1, 2]), 1 := List([3]), 2 := List([1]), 3 := List([4]), 4 := Leaf(Prim(0), 1)]

  const NESTED_ROWS: seq<seq<Id>> := [[1, 2], [3, 1], [3], []]

  lemma FlatOne(h: Heap, a: Id)
    requires !At(h, a).Dict?
    ensures Flat(h, [a]) == Kids(h, a) && Seqs(h, [a]) == [a] && Dicts(h, [a]) == [] && FlatOf(h, [a]) == Kids(h, a)
  {
    assert [a][1..] == [];
    assert Kids(h, a) + [] == Kids(h, a);
  }

  lemma FlatTwo(h: Heap, a: Id, b: Id)
    requires !At(h, a).Dict? && !At(h, b).Dict?
    ensures FlatOf(h, [a, b]) == Kids(h, a) + Kids(h, b)
  {
    assert [a, b][1..] == [b];
    FlatOne(h, b);
    assert Seqs(h, [a, b]) == [a] + [b] && [a] + [b] == [a, b];
    assert Dicts(h, [a, b]) == [];
    var flat := Flat(h, [a, b]);
    assert flat == Kids(h, a) + Kids(h, b);
    assert flat + [] == flat;
  }

  lemma ItemsTwo(h: Heap, a: Id, b: Id)
    ensures Items(h, [a, b]) == (if IsWritable(h, a) then [a] else []) + if IsWritable(h, b) then [b] else []
    ensures Nodes(h, [a, b]) == (if IsNode(h, a) then [a] else []) + if IsNode(h, b) then [b] else []
    ensures Items(h, [a]) == (if IsWritable(h, a) then [a] else []) && Nodes(h, [a]) == if IsNode(h, a) then [a] else []
  {
    assert [a, b][1..] == [b] && [b][1..] == [] && [a][1..] == [];
    assert Items(h, [b]) == if IsWritable(h, b) then [b] else [];
    assert Nodes(h, [b]) == if IsNode(h, b) then [b] else [];
    assert Items(h, [a]) == if IsWritable(h, a) then [a] else [];
    assert Nodes(h, [a]) == if IsNode(h, a) then [a] else [];
  }

  /** One level down in a walk. */
  lemma LevelDown(h: Heap, value: Id, k: nat, level: seq<Id>, flat: seq<Id>)
    requires LevelAt(h, value, k) == level && FlatOf(h, level) == flat
    ensures RowAt(h, value, k) == Items(h, flat) && LevelAt(h, value, k + 1) == Nodes(h, flat)
  {
  }

  /** Two containers of one item each. */
  lemma TwoDown(h: Heap, value: Id, k: nat, a: Id, b: Id, x: Id, y: Id)
    requires LevelAt(h, value, k) == [a, b] && At(h, a) == List([x]) && At(h, b) == List([y])
    ensures RowAt(h, value, k) == (if IsWritable(h, x) then [x] else []) + (if IsWritable(h, y) then [y] else [])
    ensures LevelAt(h, value, k + 1) == (if IsNode(h, x) then [x] else []) + (if IsNode(h, y) then [y] else [])
  {
    FlatTwo(h, a, b);
    assert [x] + [y] == [x, y];
    LevelDown(h, value, k, [a, b], [x, y]);
    ItemsTwo(h, x, y);
  }

  /** One container of two items, or of one. */
  lemma OneDown(h: Heap, value: Id, k: nat, a: Id, x: Id, y: Id)
    requires LevelAt(h, value, k) == [a] && (At(h, a) == List([x, y]) || At(h, a) == List([x]))
    ensures At(h, a) == List([x, y]) && IsWritable(h, x) && IsWritable(h, y) && IsNode(h, x) && IsNode(h, y) ==>
              RowAt(h, value, k) == [x, y] && LevelAt(h, value, k + 1) == [x, y]
    ensures At(h, a) == List([x]) && !IsWritable(h, x) ==> RowAt(h, value, k) == []
  {
    FlatOne(h, a);
    LevelDown(h, value, k, [a], Kids(h, a));
    ItemsTwo(h, x, y);
  }

  lemma NestedRowsIn(h: Heap, rows: seq<seq<Id>>)
    requires At(h, 0) == List([1, 2]) && At(h, 1) == List([3]) && At(h, 2) == List([1]) && At(h, 3) == List([4])
    requires At(h, 4) == Leaf(Prim(0), 1) && rows == [[1, 2], [3, 1], [3], []]
    ensures IsRows(h, 0, rows)
  {
    OneDown(h, 0, 0, 0, 1, 2);
    TwoDown(h, 0, 1, 1, 2, 3, 1);
    assert [3] + [1] == [3, 1];
    TwoDown(h, 0, 2, 3, 1, 4, 3);
    assert [] + [3] == [3];
    OneDown(h, 0, 3, 3, 4, 4);
    forall k: nat | k < 4 ensures RowIs(h, 0, rows, k) {
      assert k == 0 || k == 1 || k == 2 || k == 3;
    }
  }

  lemma LostIn(held: Id -> nat, above: (nat, Id) -> nat)
    requires Counted(NESTED, 0, held, None, above) && held(3) == 1
    ensures IsRows(NESTED, 0, NESTED_ROWS)
    ensures Filtered(NESTED_ROWS, CountsFor(NESTED, 0, held, None, above), 4).repeats != Naive(NESTED_ROWS, 4).repeats
  {
    NestedRowsIn(NESTED, NESTED_ROWS);
    RowsCounted(NESTED, 0, held, None, above, NESTED_ROWS);
    var rows := NESTED_ROWS;
    assert Count([1, 2], 3) == 0 && Count([3, 1], 3) == 1 && Count([3], 3) == 1 by {
      assert [1, 2][1..] == [2] && [3, 1][1..] == [1] && [3][1..] == [] && [2][1..] == [] && [1][1..] == [];
    }
    assert Met(rows, 0, 3) == 0;
    assert Met(rows, 1, 3) == 0;
    assert Met(rows, 2, 3) == 1;
    assert Met(rows, 3, 3) == 2;
    assert Met(rows, 4, 3) == 2;
    assert MetFirst(rows, 1, 3);
    assert Repeated(rows, 3) && !Caught(rows, CountsFor(NESTED, 0, held, None, above), 3);
    FilterIsExact(rows, CountsFor(NESTED, 0, held, None, above));
  }

  /** What holds what in the example: `x` has two slots, everything else one. */
  lemma NestedCounted(h: Heap, held: Id -> nat, above: (nat, Id) -> nat)
    requires h == NESTED && (forall x: Id :: held(x) == if x == 1 then 2 else 1) && forall d: nat, x: Id :: above(d, x) == 0
    ensures Counted(h, 0, held, None, above)
  {
  }

  /** With the references there are, the second meeting of the inner list is not listed. */
  lemma RepeatIsLost() returns (held: Id -> nat, above: (nat, Id) -> nat)
    ensures Counted(NESTED, 0, held, None, above) && (forall x: Id :: held(x) == if x == 1 then 2 else 1)
    ensures IsRows(NESTED, 0, NESTED_ROWS)
    ensures Filtered(NESTED_ROWS, CountsFor(NESTED, 0, held, None, above), 4).repeats != Naive(NESTED_ROWS, 4).repeats
  {
    held := x => if x == 1 then 2 else 1;
    above := (d, x) => 0;
    NestedCounted(NESTED, held, above);
    LostIn(held, above);
  }
}
