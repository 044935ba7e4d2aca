/**
 * 982a.py: `get_previous_csv` picks the greatest `*_00982a.csv` file name;
 * `analyze_changes` outer-joins today's rows with that file's code, quantity
 * and name, takes the previous name where today's row is missing, fills the
 * quantities with 0, labels each row with `determine_status` and orders the
 * table by weight, heaviest first, rows without a weight last.
 */
module Etf982 {
  import opened Wrappers
  import opened Text
  import opened Holdings

  /** The statuses a row can carry. */
  datatype Status = Fresh | SoldOut | Increase | Decrease | Flat | FirstFetch | Skipped

  /** The text written in the 狀態 column (982a.py:54, 71, 89-97). */
  function Label(s: Status): string {
    match s
    case Fresh => "🔥 新進"
    case SoldOut => "👋 賣出"
    case Increase => "🔺 增加"
    case Decrease => "🔻 減少"
    case Flat => "➖ 持平"
    case FirstFetch => "🆕 首次抓取"
    case Skipped => "-"
  }

  /** Distinct statuses are written as distinct texts. */
  lemma LabelsDistinct(a: Status, b: Status)
    ensures Label(a) == Label(b) <==> a == b
  {
    if a != b {
      assert Label(a)[0] != Label(b)[0];
    }
  }

  /** The comparison statuses, one per category. */
  function StatusOf(c: Category): Status {
    match c
    case New => Fresh
    case Exited => SoldOut
    case Increased => Increase
    case Decreased => Decrease
    case Unchanged => Flat
  }

  /**
   * `determine_status` (982a.py:87-97), testing yesterday's and today's
   * quantities first and then the sign of their difference. It agrees with
   * the shared classification on every pair of quantities.
   */
  function DetermineStatus(qty: int, prevQty: int): (s: Status)
    ensures s == StatusOf(Classify(prevQty, qty))
    ensures s != FirstFetch && s != Skipped
  {
    var change := qty - prevQty;
    if prevQty == 0 && qty > 0 then Fresh
    else if qty == 0 && prevQty > 0 then SoldOut
    else if change > 0 then Increase
    else if change < 0 then Decrease
    else Flat
  }

  // ---------------------------------------------------------------------------
  // get_previous_csv (982a.py:28-46)
  // ---------------------------------------------------------------------------

  /** The file name tag of this fund's snapshots. */
  const FileTag := "00982a"

  /**
   * A directory entry `glob("*_00982a.csv")` returns: the name ends with the
   * tag and extension, and `*` does not match a leading dot.
   */
  predicate IsSnapshotName(f: string) {
    EndsWith(f, "_" + FileTag + ".csv") && !StartsWith(f, ".")
  }

  /**
   * The snapshot to compare with: none when no entry of the directory
   * matches, otherwise the greatest matching name in Python's string order,
   * the last element once the list is sorted.
   */
  method GetPreviousCsv(entries: seq<string>) returns (latest: Option<string>)
    ensures latest.None? <==> forall f :: f in entries ==> !IsSnapshotName(f)
    ensures latest.Some? ==> latest.value in entries && IsSnapshotName(latest.value)
    ensures latest.Some? ==> forall f :: f in entries && IsSnapshotName(f) ==> f == latest.value || Below(f, latest.value)
  {
    latest := None;
    for i := 0 to |entries|
      invariant latest.None? <==> forall k :: 0 <= k < i ==> !IsSnapshotName(entries[k])
      invariant latest.Some? ==> latest.value in entries[..i] && IsSnapshotName(latest.value)
      invariant latest.Some? ==> forall k :: 0 <= k < i && IsSnapshotName(entries[k])
                                   ==> entries[k] == latest.value || Below(entries[k], latest.value)
    {
      var f := entries[i];
      if IsSnapshotName(f) {
        if latest.None? {
          latest := Some(f);
        } else if Below(latest.value, f) {
          forall k | 0 <= k < i && IsSnapshotName(entries[k])
            ensures entries[k] == f || Below(entries[k], f)
          {
            if entries[k] != latest.value {
              BelowTransitive(entries[k], latest.value, f);
            }
          }
          latest := Some(f);
        } else {
          BelowTotal(latest.value, f);
        }
      }
    }
    assert entries[..|entries|] == entries;
  }

  // ---------------------------------------------------------------------------
  // The table analyze_changes returns (982a.py:48-107)
  // ---------------------------------------------------------------------------

  /** What the previous snapshot turned out to be. */
  datatype Previous =
    | NoFile                        // no file matched
    | Unreadable                    // reading it or picking its columns raised
    | Loaded(rows: seq<Holding>)    // its rows as read, codes as text

  /**
   * One row of the returned table. `delta` is absent when the previous file
   * could not be read: that path sets only the status column.
   */
  datatype Row = Row(code: string, name: string, weight: Option<real>, qty: int, delta: Option<int>, status: Status)

  /** Today's rows with a status and, when given, a change column (982a.py:52-56, 69-72). */
  function Marked(rows: seq<Holding>, status: Status, delta: Option<int>): (t: seq<Row>)
    ensures |t| == |rows|
    ensures forall i :: 0 <= i < |rows| ==>
              t[i].code == rows[i].code && t[i].name == rows[i].name && t[i].weight == rows[i].weight
              && t[i].qty == rows[i].qty && t[i].delta == delta && t[i].status == status
  {
    seq(|rows|, i requires 0 <= i < |rows| =>
      Row(rows[i].code, rows[i].name, rows[i].weight, rows[i].qty, delta, status))
  }

  /**
   * One merged row: today's name, or the previous one when the code is gone;
   * both quantities filled with 0; the change and the status. A row only the
   * previous snapshot had has no weight.
   */
  function MergedRow(r: Joined): Row {
    var qty, prevQty := QtyOr0(r.left), QtyOr0(r.right);
    var name := if r.left.Some? then r.left.value.name else if r.right.Some? then r.right.value.name else "";
    var weight := if r.left.Some? then r.left.value.weight else None;
    Row(r.code, name, weight, qty, Some(qty - prevQty), DetermineStatus(qty, prevQty))
  }

  function Tabulated(j: seq<Joined>): seq<Row> {
    seq(|j|, i requires 0 <= i < |j| => MergedRow(j[i]))
  }

  /** The rows a successful comparison produces, before ordering. */
  function Compared(today: seq<Holding>, prev: seq<Holding>): seq<Row> {
    Tabulated(OuterJoin(today, prev))
  }

  /** One row per code of either snapshot. */
  lemma ComparedSize(today: seq<Holding>, prev: seq<Holding>)
    ensures |Compared(today, prev)| == |Codes(today) + Codes(prev)|
  {
  }

  /** Every code of either snapshot has a row, and no other code does. */
  lemma ComparedCodes(today: seq<Holding>, prev: seq<Holding>, code: string)
    ensures code in Codes(today) + Codes(prev)
            <==> exists i :: 0 <= i < |Compared(today, prev)| && Compared(today, prev)[i].code == code
  {
    var j, t := OuterJoin(today, prev), Compared(today, prev);
    JoinCovers(today, prev, code);
    if code in Codes(today) + Codes(prev) {
      var i :| 0 <= i < |j| && j[i].code == code;
      assert t[i].code == code;
    }
    if i :| 0 <= i < |t| && t[i].code == code {
      assert j[i].code == code;
    }
  }

  /** Row `i` of the comparison is join row `i`, whose sides are the two snapshots' entries for its code. */
  lemma ComparedRowIsMerged(today: seq<Holding>, prev: seq<Holding>, i: nat) returns (m: Joined)
    requires i < |Compared(today, prev)|
    ensures Compared(today, prev)[i] == MergedRow(m) && m.code == Compared(today, prev)[i].code
    ensures m.left == Lookup(Index(today), m.code) && m.right == Lookup(Index(prev), m.code)
  {
    m := OuterJoin(today, prev)[i];
  }

  /** A merged row's quantities, change and status, from the two sides of the join. */
  lemma MergedRowQuantities(m: Joined)
    ensures var r := MergedRow(m);
            && r.qty == QtyOr0(m.left)
            && r.delta.Some? && r.delta.value == r.qty - QtyOr0(m.right)
            && r.status == StatusOf(Classify(QtyOr0(m.right), r.qty))
  {
  }

  /**
   * Quantities with 0 for a missing side, the change as today minus
   * yesterday, and the status they call for.
   */
  lemma ComparedRowQuantities(today: seq<Holding>, prev: seq<Holding>, i: nat)
    requires i < |Compared(today, prev)|
    ensures Compared(today, prev)[i].qty == QtyOr0(Lookup(Index(today), Compared(today, prev)[i].code))
    ensures Compared(today, prev)[i].delta.Some?
    ensures Compared(today, prev)[i].delta.value
            == Compared(today, prev)[i].qty - QtyOr0(Lookup(Index(prev), Compared(today, prev)[i].code))
    ensures Compared(today, prev)[i].status
            == StatusOf(Classify(QtyOr0(Lookup(Index(prev), Compared(today, prev)[i].code)), Compared(today, prev)[i].qty))
  {
    var m := ComparedRowIsMerged(today, prev, i);
    MergedRowQuantities(m);
  }

  /**
   * The name and weight come from today's row; for a code gone today the
   * name comes from the previous snapshot and there is no weight.
   */
  lemma ComparedRowName(today: seq<Holding>, prev: seq<Holding>, i: nat)
    requires i < |Compared(today, prev)|
    ensures var r := Compared(today, prev)[i];
            && (r.code in Codes(today) ==> r.name == Index(today)[r.code].name && r.weight == Index(today)[r.code].weight)
            && (r.code !in Codes(today) ==> r.code in Codes(prev) && r.name == Index(prev)[r.code].name && r.weight.None?)
  {
    var j := OuterJoin(today, prev);
    assert Compared(today, prev)[i] == MergedRow(j[i]);
  }

  /** Comparing a snapshot with itself leaves every row flat with no change. */
  lemma SelfComparisonIsFlat(s: seq<Holding>, i: nat)
    requires i < |Compared(s, s)|
    ensures Compared(s, s)[i].status == Flat
    ensures Compared(s, s)[i].delta.Some? && Compared(s, s)[i].delta.value == 0
  {
    ComparedRowQuantities(s, s, i);
  }

  // ---------------------------------------------------------------------------
  // Ordering by weight (982a.py:104-105)
  // ---------------------------------------------------------------------------

  /**
   * `sort_values(by='權重(%)', ascending=False, na_position='last')` may place
   * `a` before `b`: `b` has no weight, or `a` weighs at least as much.
   */
  predicate HeavierFirst(a: Row, b: Row) {
    b.weight.None? || (a.weight.Some? && a.weight.value >= b.weight.value)
  }

  predicate WeightOrdered(s: seq<Row>) {
    forall i, j :: 0 <= i < j < |s| ==> HeavierFirst(s[i], s[j])
  }

  /** Rows without a weight come after every weighed row. */
  lemma UnweighedLast(s: seq<Row>, i: nat, j: nat)
    requires WeightOrdered(s) && i < j < |s| && s[i].weight.None?
    ensures s[j].weight.None?
  {
    assert HeavierFirst(s[i], s[j]);
  }

  function Insert(x: Row, s: seq<Row>): seq<Row> {
    if s == [] || HeavierFirst(x, s[0]) then [x] + s else [s[0]] + Insert(x, s[1..])
  }

  lemma {:induction false} InsertPermutes(x: Row, s: seq<Row>)
    ensures multiset(Insert(x, s)) == multiset(s) + multiset{x}
  {
    if s != [] && !HeavierFirst(x, s[0]) {
      InsertPermutes(x, s[1..]);
      assert s == [s[0]] + s[1..];
    }
  }

  /** In a weight order the first row may stand before every later one. */
  lemma HeadFirst(s: seq<Row>, y: Row)
    requires WeightOrdered(s) && |s| > 0 && y in s[1..]
    ensures HeavierFirst(s[0], y)
  {
    var k :| 0 <= k < |s[1..]| && s[1..][k] == y;
    assert s[k + 1] == y;
  }

  lemma {:induction false} InsertOrdered(x: Row, s: seq<Row>)
    requires WeightOrdered(s)
    ensures WeightOrdered(Insert(x, s))
  {
    var r := Insert(x, s);
    if s == [] || HeavierFirst(x, s[0]) {
      forall i, j | 0 <= i < j < |r|
        ensures HeavierFirst(r[i], r[j])
      {
        if i == 0 && j > 1 {
          assert HeavierFirst(s[0], s[j - 1]);
        }
      }
    } else {
      var t := Insert(x, s[1..]);
      InsertOrdered(x, s[1..]);
      InsertPermutes(x, s[1..]);
      forall i, j | 0 <= i < j < |r|
        ensures HeavierFirst(r[i], r[j])
      {
        if i == 0 {
          assert r[j] == t[j - 1] && r[j] in multiset(t);
          if r[j] != x {
            HeadFirst(s, r[j]);
          }
        } else {
          assert r[i] == t[i - 1] && r[j] == t[j - 1];
        }
      }
    }
  }

  /** An insertion sort by weight, one of the orders the library sort may return. */
  function SortByWeight(s: seq<Row>): seq<Row> {
    if s == [] then [] else Insert(s[0], SortByWeight(s[1..]))
  }

  lemma {:induction false} SortByWeightCorrect(s: seq<Row>)
    ensures WeightOrdered(SortByWeight(s))
    ensures multiset(SortByWeight(s)) == multiset(s)
  {
    if s != [] {
      SortByWeightCorrect(s[1..]);
      InsertOrdered(s[0], SortByWeight(s[1..]));
      InsertPermutes(s[0], SortByWeight(s[1..]));
      assert s == [s[0]] + s[1..];
    }
  }

  // ---------------------------------------------------------------------------
  // analyze_changes (982a.py:48-107)
  // ---------------------------------------------------------------------------

  /**
   * The steps after the merge (982a.py:79-99): for each merged row the name
   * filled from the previous snapshot, the quantities filled with 0, the
   * change and the status.
   */
  method ApplyStatus(merged: seq<Joined>) returns (table: seq<Row>)
    ensures table == Tabulated(merged)
  {
    table := [];
    for i := 0 to |merged|
      invariant |table| == i
      invariant forall k :: 0 <= k < i ==> table[k] == MergedRow(merged[k])
    {
      var r := merged[i];
      var name := if r.left.Some? then r.left.value.name else if r.right.Some? then r.right.value.name else "";
      var qty, prevQty := QtyOr0(r.left), QtyOr0(r.right);
      var weight := if r.left.Some? then r.left.value.weight else None;
      table := table + [Row(r.code, name, weight, qty, Some(qty - prevQty), DetermineStatus(qty, prevQty))];
    }
  }

  /**
   * The table `analyze_changes` returns for today's rows (codes already
   * stripped by the caller). The previous snapshot's codes are stripped
   * before the merge. The library sort is not stable, so the order among
   * rows of equal weight is left open: the table is some weight order of the
   * compared rows.
   */
  method AnalyzeChanges(today: seq<Holding>, previous: Previous) returns (table: seq<Row>)
    ensures previous.NoFile? ==> table == Marked(today, FirstFetch, Some(0))
    ensures previous.Unreadable? ==> table == Marked(today, Skipped, None)
    ensures previous.Loaded? ==>
              multiset(table) == multiset(Compared(today, StripCodes(previous.rows))) && WeightOrdered(table)
  {
    match previous
    case NoFile =>
      table := Marked(today, FirstFetch, Some(0));
    case Unreadable =>
      table := Marked(today, Skipped, None);
    case Loaded(rows) =>
      var prev := StripCodes(rows);
      var merged := OuterJoin(today, prev);
      var rowsOut := ApplyStatus(merged);
      SortByWeightCorrect(rowsOut);
      table := SortByWeight(rowsOut);
  }

  /** Two tables holding the same rows have the same length and members. */
  lemma SameRows(table: seq<Row>, t: seq<Row>)
    requires multiset(table) == multiset(t)
    ensures |table| == |t|
    ensures forall r :: r in table ==> r in t
  {
    assert |table| == |multiset(table)| == |multiset(t)| == |t|;
    forall r | r in table
      ensures r in t
    {
      assert r in multiset(table);
    }
  }

  /** A position at which a member of a table stands. */
  lemma PositionOf(t: seq<Row>, r: Row) returns (i: nat)
    requires r in t
    ensures i < |t| && t[i] == r
  {
    i :| 0 <= i < |t| && t[i] == r;
  }

  /** Codes that are already stripped are left alone. */
  lemma StripCodesKeepsStripped(today: seq<Holding>)
    requires forall i :: 0 <= i < |today| ==> Strip(today[i].code) == today[i].code
    ensures StripCodes(today) == today
  {
    assert forall i :: 0 <= i < |today| ==> StripCodes(today)[i] == today[i];
  }

  /**
   * Re-running against a snapshot of the same rows reports every code once,
   * flat with a zero change, in whatever weight order the sort picks.
   */
  lemma RerunIsFlat(today: seq<Holding>, table: seq<Row>)
    requires forall i :: 0 <= i < |today| ==> Strip(today[i].code) == today[i].code
    requires multiset(table) == multiset(Compared(today, StripCodes(today)))
    ensures |table| == |Codes(today)|
    ensures forall r :: r in table ==> r.status == Flat && r.delta == Some(0)
  {
    StripCodesKeepsStripped(today);
    var t := Compared(today, today);
    SameRows(table, t);
    ComparedSize(today, today);
    assert Codes(today) + Codes(today) == Codes(today);
    forall r | r in table
      ensures r.status == Flat && r.delta == Some(0)
    {
      var i := PositionOf(t, r);
      SelfComparisonIsFlat(today, i);
    }
  }
}
