/**
 * 985a.py: `process_comparison` strips the stock codes, outer-joins today's
 * rows with the quantity column of the previous CSV, fills missing
 * quantities with 0, computes the change, labels every row with `get_status`
 * and names rows that only the previous snapshot had '已清倉'. Without a
 * previous file every row is marked 首次建立; when the comparison raises,
 * every row is marked 比對失敗.
 */
module Etf985 {
  import opened Wrappers
  import opened Text
  import opened Holdings

  /** The statuses a row of the saved table can carry. */
  datatype Status = NewBuy | SoldAll | Added | Trimmed | Flat | FirstRun | CompareFailed

  /** The text written in the 狀態 column for each status (985a.py:120-124, 144, 148). */
  function Label(s: Status): string {
    match s
    case NewBuy => "新買入"
    case SoldAll => "全部賣出"
    case Added => "加碼"
    case Trimmed => "減碼"
    case Flat => "持平"
    case FirstRun => "首次建立"
    case CompareFailed => "比對失敗"
  }

  /** Distinct statuses are written as distinct texts, so the column determines the status. */
  lemma LabelsDistinct(a: Status, b: Status)
    ensures Label(a) == Label(b) <==> a == b
  {
    if a != b {
      assert Label(a)[0] != Label(b)[0];
    }
  }

  /** The comparison statuses, one per category. */
  function StatusOf(c: Category): Status {
    match c
    case New => NewBuy
    case Exited => SoldAll
    case Increased => Added
    case Decreased => Trimmed
    case Unchanged => Flat
  }

  /** The name given to rows only the previous snapshot had. */
  const ClearedName := "已清倉"

  /**
   * `get_status` (985a.py:117-124): the first matching test wins, in the
   * order new buy, sold out, added, trimmed, flat. It agrees with the shared
   * classification on every pair of quantities.
   */
  function GetStatus(curr: int, prevQty: int): (s: Status)
    ensures s == StatusOf(Classify(prevQty, curr))
    ensures s != FirstRun && s != CompareFailed
  {
    if prevQty == 0 && curr > 0 then NewBuy
    else if prevQty > 0 && curr == 0 then SoldAll
    else if curr > prevQty then Added
    else if curr < prevQty then Trimmed
    else Flat
  }

  /** What the previous CSV turned out to be. */
  datatype Prior =
    | NoFile                        // no 985a.csv yet
    | Unusable                      // reading it or merging with it raised
    | Loaded(rows: seq<Holding>)    // its rows as read; 股數 is taken as numeric, without coercion

  /** One row of the saved table; `oldQty` exists only after a comparison. */
  datatype Row = Row(code: string, name: string, qty: int, oldQty: Option<int>, delta: int, status: Status)

  /** Today's rows unchanged but for a status column and a zero change (985a.py:144-149). */
  function Marked(rows: seq<Holding>, status: Status): (t: seq<Row>)
    ensures |t| == |rows|
    ensures forall i :: 0 <= i < |rows| ==>
              t[i].code == rows[i].code && t[i].name == rows[i].name && t[i].qty == rows[i].qty
              && t[i].oldQty.None? && t[i].delta == 0 && t[i].status == status
  {
    seq(|rows|, i requires 0 <= i < |rows| => Row(rows[i].code, rows[i].name, rows[i].qty, None, 0, status))
  }

  /** One merged row after filling, subtracting, labelling and naming. */
  function MergedRow(r: Joined): Row {
    var qty, prevQty := QtyOr0(r.left), QtyOr0(r.right);
    Row(r.code, if r.left.Some? then r.left.value.name else ClearedName,
        qty, Some(prevQty), qty - prevQty, GetStatus(qty, prevQty))
  }

  /** The merged rows, each filled, subtracted, labelled and named. */
  function Tabulated(j: seq<Joined>): seq<Row> {
    seq(|j|, i requires 0 <= i < |j| => MergedRow(j[i]))
  }

  /** The table a successful comparison of `cur` with `prev` produces. */
  function Compared(cur: seq<Holding>, prev: seq<Holding>): seq<Row> {
    Tabulated(OuterJoin(cur, prev))
  }

  // ---------------------------------------------------------------------------
  // What a comparison says about its table (985a.py:101-129)
  // ---------------------------------------------------------------------------

  /** One row per code of either snapshot. */
  lemma ComparedSize(cur: seq<Holding>, prev: seq<Holding>)
    ensures |Compared(cur, prev)| == |Codes(cur) + Codes(prev)|
  {
  }

  /** The rows come in ascending code order, as `pd.merge(how='outer')` sorts its keys. */
  lemma ComparedAscending(cur: seq<Holding>, prev: seq<Holding>, a: nat, b: nat)
    requires a < b < |Compared(cur, prev)|
    ensures Below(Compared(cur, prev)[a].code, Compared(cur, prev)[b].code)
  {
    var j := OuterJoin(cur, prev);
    assert Compared(cur, prev)[a].code == j[a].code;
    assert Compared(cur, prev)[b].code == j[b].code;
  }

  /** Every code of either snapshot has a row, and no other code does. */
  lemma ComparedCodes(cur: seq<Holding>, prev: seq<Holding>, code: string)
    ensures code in Codes(cur) + Codes(prev)
            <==> exists i :: 0 <= i < |Compared(cur, prev)| && Compared(cur, prev)[i].code == code
  {
    var j, t := OuterJoin(cur, prev), Compared(cur, prev);
    JoinCovers(cur, prev, code);
    if code in Codes(cur) + Codes(prev) {
      var i :| 0 <= i < |j| && j[i].code == code;
      assert t[i].code == code;
    }
    if i :| 0 <= i < |t| && t[i].code == code {
      assert j[i].code == code;
    }
  }

  /** Missing quantities count as 0, the change is today minus before, and the status follows them. */
  lemma ComparedRowMeaning(cur: seq<Holding>, prev: seq<Holding>, i: nat)
    requires i < |Compared(cur, prev)|
    ensures var r := Compared(cur, prev)[i];
            && r.qty == QtyOr0(Lookup(Index(cur), r.code))
            && r.oldQty == Some(QtyOr0(Lookup(Index(prev), r.code)))
            && r.delta == r.qty - r.oldQty.value
            && r.status == StatusOf(Classify(r.oldQty.value, r.qty))
            && (r.code in Codes(cur) ==> r.name == Index(cur)[r.code].name)
            && (r.code !in Codes(cur) ==> r.name == ClearedName && r.code in Codes(prev))
  {
    var j := OuterJoin(cur, prev);
    assert Compared(cur, prev)[i] == MergedRow(j[i]);
  }

  /** Comparing a snapshot with itself leaves every row flat with no change. */
  lemma SelfComparisonIsFlat(s: seq<Holding>, i: nat)
    requires i < |Compared(s, s)|
    ensures Compared(s, s)[i].status == Flat && Compared(s, s)[i].delta == 0
  {
    ComparedRowMeaning(s, s, i);
  }

  // ---------------------------------------------------------------------------
  // process_comparison (985a.py:70-153)
  // ---------------------------------------------------------------------------

  /**
   * The steps after the outer join (985a.py:110-129): for each merged row the
   * quantities filled with 0, the change, the status and, for rows only the
   * previous snapshot had, the name.
   */
  method ApplyStatus(merged: seq<Joined>) returns (table: seq<Row>)
    ensures table == Tabulated(merged)
  {
    table := [];
    for i := 0 to |merged|
      invariant |table| == i
      invariant forall k :: 0 <= k < i ==> table[k] == MergedRow(merged[k])
    {
      var r := merged[i];
      var qty, prevQty := QtyOr0(r.left), QtyOr0(r.right);
      var name := if r.left.Some? then r.left.value.name else ClearedName;
      table := table + [Row(r.code, name, qty, Some(prevQty), qty - prevQty, GetStatus(qty, prevQty))];
    }
  }

  /**
   * The table saved as the new 985a.csv. Codes of today's rows are stripped
   * first; the previous rows' codes are stripped before joining.
   */
  method ProcessComparison(current: seq<Holding>, prior: Prior) returns (table: seq<Row>)
    ensures prior.NoFile? ==> table == Marked(StripCodes(current), FirstRun)
    ensures prior.Unusable? ==> table == Marked(StripCodes(current), CompareFailed)
    ensures prior.Loaded? ==> table == Compared(StripCodes(current), StripCodes(prior.rows))
  {
    var today := StripCodes(current);
    match prior
    case NoFile =>
      table := Marked(today, FirstRun);
    case Unusable =>
      table := Marked(today, CompareFailed);
    case Loaded(rows) =>
      var merged := OuterJoin(today, StripCodes(rows));
      table := ApplyStatus(merged);
  }

  /**
   * Re-running against a snapshot of the same rows reports every code once,
   * flat with no change.
   */
  lemma RerunIsFlat(current: seq<Holding>)
    ensures var s := StripCodes(current);
            |Compared(s, s)| == |Codes(s)|
            && forall r :: r in Compared(s, s) ==> r.status == Flat && r.delta == 0
  {
    var s := StripCodes(current);
    var t := Compared(s, s);
    ComparedSize(s, s);
    assert Codes(s) + Codes(s) == Codes(s);
    forall r | r in t
      ensures r.status == Flat && r.delta == 0
    {
      var i :| 0 <= i < |t| && t[i] == r;
      SelfComparisonIsFlat(s, i);
    }
  }
}
