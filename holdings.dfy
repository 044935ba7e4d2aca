/**
 * The holding data model the four scripts share: a row of a fund's disclosed
 * portfolio, a snapshot as a sequence of rows, the index of a snapshot by
 * stock code (a later row with the same code wins), quantity coercion, the
 * quantity-based classification, and the outer join of two snapshots on the
 * code.
 */
module Holdings {
  import opened Wrappers
  import opened Text

  /** One portfolio row: stock code, display name, share count, and the weight in percent where the source has one. */
  datatype Holding = Holding(code: string, name: string, qty: int, weight: Option<real>)

  /** A portfolio row as the provider delivers it, the share count still text (possibly "1,234" or garbage). */
  datatype RawHolding = RawHolding(code: string, name: string, qtyText: string, weight: Option<real>)

  function Codes(s: seq<Holding>): set<string> {
    set h | h in s :: h.code
  }

  function CodeList(s: seq<Holding>): (r: seq<string>)
    ensures |r| == |s| && forall i :: 0 <= i < |s| ==> r[i] == s[i].code
  {
    seq(|s|, i requires 0 <= i < |s| => s[i].code)
  }

  // ---------------------------------------------------------------------------
  // Quantity coercion
  // ---------------------------------------------------------------------------

  /**
   * `pd.to_numeric(col.astype(str).str.replace(',', ''), errors='coerce').fillna(0)`:
   * commas are dropped and surrounding ASCII whitespace skipped; a numeral
   * gives its value and anything else gives 0.
   */
  function CoerceQuantity(text: string): (q: int)
    ensures !IsNumeral(TrimAscii(RemoveCommas(text))) ==> q == 0
    ensures IsNumeral(TrimAscii(RemoveCommas(text))) ==> q == NumeralValue(TrimAscii(RemoveCommas(text)))
  {
    NumberOrZero(RemoveCommas(text))
  }

  /** Thousands separators never change the quantity read. */
  lemma CoerceIgnoresCommas(text: string)
    ensures CoerceQuantity(RemoveCommas(text)) == CoerceQuantity(text)
  {
    RemoveCommasNoop(RemoveCommas(text));
  }

  /** A share count written with thousands separators, as `format(n, ',')` writes it, reads back as itself. */
  lemma CoerceGrouped(n: nat)
    ensures CoerceQuantity(Grouped(n)) == n
  {
    GroupedDigits(n);
    NumeralTrimmed(RemoveCommas(Grouped(n)));
  }

  /** Whitespace around a comma-grouped count, such as " 1,234 ", does not change it. */
  lemma CoercePadded(pre: string, n: nat, post: string)
    requires AsciiSpaces(pre) && AsciiSpaces(post)
    ensures CoerceQuantity(pre + Grouped(n) + post) == n
  {
    var digits := RemoveCommas(Grouped(n));
    GroupedDigits(n);
    assert ',' !in pre && ',' !in post;
    RemoveCommasAppend(pre + Grouped(n), post);
    RemoveCommasAppend(pre, Grouped(n));
    RemoveCommasNoop(pre);
    RemoveCommasNoop(post);
    assert RemoveCommas(pre + Grouped(n) + post) == pre + digits + post;
    NumeralTrimmed(digits);
    TrimAsciiPadded(pre, digits, post);
  }

  /** A share count written plainly, as `str(n)` writes it, reads back as itself. */
  lemma CoerceIntText(n: int)
    ensures CoerceQuantity(IntText(n)) == n
  {
    var t := IntText(n);
    RemoveCommasNoop(t);
    assert IsNumeral(t) by {
      if n < 0 {
        assert t[1..] == NaturalText(-n);
      }
    }
    NumeralTrimmed(t);
    if n < 0 {
      var d := NaturalText(-n);
      assert t == "-" + d && t[1..] == d;
      NaturalTextValue(-n);
      assert IsNumeral(t) && NumeralValue(t) == n;
    } else {
      NaturalTextValue(n);
      assert IsNumeral(t) && NumeralValue(t) == n;
    }
  }

  /** The whole quantity column coerced, row by row. */
  function Normalise(raw: seq<RawHolding>): (rows: seq<Holding>)
    ensures |rows| == |raw|
    ensures forall i :: 0 <= i < |raw| ==>
              rows[i] == Holding(raw[i].code, raw[i].name, CoerceQuantity(raw[i].qtyText), raw[i].weight)
  {
    seq(|raw|, i requires 0 <= i < |raw| =>
      Holding(raw[i].code, raw[i].name, CoerceQuantity(raw[i].qtyText), raw[i].weight))
  }

  /** The rows as `to_csv` saves them for the next run, with integer share counts written as decimal text. */
  function Saved(rows: seq<Holding>): (raw: seq<RawHolding>)
    ensures |raw| == |rows|
  {
    seq(|rows|, i requires 0 <= i < |rows| => RawHolding(rows[i].code, rows[i].name, IntText(rows[i].qty), rows[i].weight))
  }

  /** Saving rows and coercing them again on the next run gives the same rows back. */
  lemma SavedReadsBack(rows: seq<Holding>)
    ensures Normalise(Saved(rows)) == rows
  {
    forall i | 0 <= i < |rows|
      ensures Normalise(Saved(rows))[i] == rows[i]
    {
      CoerceIntText(rows[i].qty);
    }
  }

  /** `col.astype(str).str.strip()` applied to the code column. */
  function StripCodes(s: seq<Holding>): (r: seq<Holding>)
    ensures |r| == |s|
    ensures forall i :: 0 <= i < |s| ==> r[i] == s[i].(code := Strip(s[i].code))
  {
    seq(|s|, i requires 0 <= i < |s| => s[i].(code := Strip(s[i].code)))
  }

  /** Stripping the codes a second time changes nothing. */
  lemma StripCodesIdempotent(s: seq<Holding>)
    ensures StripCodes(StripCodes(s)) == StripCodes(s)
  {
    forall i | 0 <= i < |s|
      ensures StripCodes(StripCodes(s))[i] == StripCodes(s)[i]
    {
      StripIdempotent(s[i].code);
    }
  }

  // ---------------------------------------------------------------------------
  // Snapshots keyed by code
  // ---------------------------------------------------------------------------

  /**
   * The snapshot keyed by code (`set_index(code)...to_dict()`): every code of
   * the snapshot is a key, mapped to one of its rows.
   */
  function Index(s: seq<Holding>): (m: map<string, Holding>)
    ensures m.Keys == Codes(s)
    ensures forall code :: code in m ==> m[code] in s && m[code].code == code
  {
    if s == [] then map[]
    else
      var last := s[|s| - 1];
      assert s == s[..|s| - 1] + [last];
      Index(s[..|s| - 1])[last.code := last]
  }

  /** Duplicate codes: the row that wins is the last one with that code. */
  lemma {:induction false} IndexLastWins(s: seq<Holding>, i: nat)
    requires i < |s|
    requires forall j :: i < j < |s| ==> s[j].code != s[i].code
    ensures s[i].code in Index(s) && Index(s)[s[i].code] == s[i]
  {
    if i < |s| - 1 {
      IndexLastWins(s[..|s| - 1], i);
    }
  }

  /** The row a side of a join holds for a code: the indexed row, or nothing when the side lacks the code. */
  function Lookup(m: map<string, Holding>, code: string): (h: Option<Holding>)
    ensures h.Some? <==> code in m
    ensures h.Some? ==> h.value == m[code]
  {
    if code in m then Some(m[code]) else None
  }

  /** `fillna(0)` on a quantity column after a join: the row's share count, or 0 where the side has no row. */
  function QtyOr0(h: Option<Holding>): int {
    if h.Some? then h.value.qty else 0
  }

  // ---------------------------------------------------------------------------
  // Classification
  // ---------------------------------------------------------------------------

  datatype Category = New | Exited | Increased | Decreased | Unchanged

  /**
   * The quantity-based classification, first match wins: a position opened
   * from zero, a position closed to zero, more shares, fewer shares, the same.
   * Only the sign of the difference and the two zero tests matter.
   */
  function Classify(prev: int, cur: int): (c: Category)
    ensures c == New <==> prev == 0 && cur > 0
    ensures c == Exited <==> prev > 0 && cur == 0
    ensures (c == New || c == Increased) <==> cur > prev
    ensures (c == Exited || c == Decreased) <==> cur < prev
    ensures c == Unchanged <==> cur == prev
    ensures prev >= 0 && cur >= 0 && c == Increased ==> 0 < prev < cur
    ensures prev >= 0 && cur >= 0 && c == Decreased ==> 0 < cur < prev
  {
    if prev == 0 && cur > 0 then New
    else if prev > 0 && cur == 0 then Exited
    else if cur - prev > 0 then Increased
    else if cur - prev < 0 then Decreased
    else Unchanged
  }

  // ---------------------------------------------------------------------------
  // Ascending, duplicate-free code lists
  // ---------------------------------------------------------------------------

  predicate Ascending(s: seq<string>) {
    forall i, j :: 0 <= i < j < |s| ==> Below(s[i], s[j])
  }

  lemma AscendingCons(x: string, s: seq<string>)
    requires Ascending(s)
    requires forall y :: y in s ==> Below(x, y)
    ensures Ascending([x] + s)
  {
    var r := [x] + s;
    forall i, j | 0 <= i < j < |r|
      ensures Below(r[i], r[j])
    {
      if i > 0 {
        assert r[i] == s[i - 1] && r[j] == s[j - 1];
      } else {
        assert r[j] in s;
      }
    }
  }

  /** An ascending list holds each code once. */
  lemma AscendingDistinctItems(s: seq<string>, i: nat, j: nat)
    requires Ascending(s) && i < j < |s|
    ensures s[i] != s[j]
  {
    BelowIrreflexive(s[i]);
  }

  /** An ascending list is as long as the set of its codes. */
  lemma {:induction false} AscendingCardinality(s: seq<string>)
    requires Ascending(s)
    ensures |set y | y in s| == |s|
  {
    if s != [] {
      var rest := s[1..];
      assert Ascending(rest);
      AscendingCardinality(rest);
      assert (set y | y in s) == {s[0]} + (set y | y in rest);
      if s[0] in rest {
        var k :| 0 <= k < |rest| && rest[k] == s[0];
        AscendingDistinctItems(s, 0, k + 1);
      }
    }
  }

  /** Insert a code into an ascending list, keeping it ascending and duplicate-free. */
  function InsertCode(x: string, s: seq<string>): (r: seq<string>)
    requires Ascending(s)
    ensures Ascending(r)
    ensures forall y :: y in r <==> y == x || y in s
  {
    if s == [] then [x]
    else if x == s[0] then s
    else if Below(x, s[0]) then
      assert forall y :: y in s ==> Below(x, y) by {
        forall y | y in s
          ensures Below(x, y)
        {
          if y != s[0] {
            var k :| 0 < k < |s| && s[k] == y;
            BelowTransitive(x, s[0], y);
          }
        }
      }
      AscendingCons(x, s);
      [x] + s
    else
      BelowTotal(x, s[0]);
      var rest := InsertCode(x, s[1..]);
      assert forall y :: y in rest ==> Below(s[0], y) by {
        forall y | y in rest
          ensures Below(s[0], y)
        {
          if y != x {
            var k :| 1 <= k < |s| && s[k] == y;
          }
        }
      }
      AscendingCons(s[0], rest);
      [s[0]] + rest
  }

  /** The distinct codes of a list in ascending order (how `pd.merge(how='outer')` orders its keys). */
  function AscendingDistinct(codes: seq<string>): (r: seq<string>)
    ensures Ascending(r)
    ensures forall y :: y in r <==> y in codes
  {
    if codes == [] then [] else InsertCode(codes[0], AscendingDistinct(codes[1..]))
  }

  // ---------------------------------------------------------------------------
  // Outer join on the code
  // ---------------------------------------------------------------------------

  /** One row of an outer join: the code and each side's row for it, if any. */
  datatype Joined = Joined(code: string, left: Option<Holding>, right: Option<Holding>)

  function JoinedCodes(j: seq<Joined>): set<string> {
    set r | r in j :: r.code
  }

  lemma CodeListsCover(left: seq<Holding>, right: seq<Holding>, y: string)
    ensures y in CodeList(left) + CodeList(right) <==> y in Codes(left) + Codes(right)
  {
    var all := CodeList(left) + CodeList(right);
    if y in Codes(left) {
      var h :| h in left && h.code == y;
      var k :| 0 <= k < |left| && left[k] == h;
      assert all[k] == y;
    }
    if y in Codes(right) {
      var h :| h in right && h.code == y;
      var k :| 0 <= k < |right| && right[k] == h;
      assert all[|left| + k] == y;
    }
    if y in all {
      var k :| 0 <= k < |all| && all[k] == y;
      if k < |left| {
        assert left[k] in left;
      } else {
        assert right[k - |left|] in right;
      }
    }
  }

  /** The join keys: every code of either snapshot once, ascending. */
  function JoinKeys(left: seq<Holding>, right: seq<Holding>): (keys: seq<string>)
    ensures Ascending(keys)
    ensures forall y :: y in keys <==> y in Codes(left) + Codes(right)
    ensures (set y | y in keys) == Codes(left) + Codes(right)
    ensures |keys| == |Codes(left) + Codes(right)|
  {
    var keys := AscendingDistinct(CodeList(left) + CodeList(right));
    assert forall y :: y in keys <==> y in Codes(left) + Codes(right) by {
      forall y
        ensures y in keys <==> y in Codes(left) + Codes(right)
      {
        CodeListsCover(left, right, y);
      }
    }
    AscendingCardinality(keys);
    keys
  }

  function JoinAt(left: seq<Holding>, right: seq<Holding>, code: string): (r: Joined)
    requires code in Codes(left) + Codes(right)
    ensures r.code == code && (r.left.Some? || r.right.Some?)
  {
    Joined(code, Lookup(Index(left), code), Lookup(Index(right), code))
  }

  lemma JoinedCodesAre(j: seq<Joined>, keys: seq<string>)
    requires |j| == |keys| && forall i :: 0 <= i < |j| ==> j[i].code == keys[i]
    ensures JoinedCodes(j) == (set y | y in keys)
  {
    forall y | y in keys
      ensures y in JoinedCodes(j)
    {
      var k :| 0 <= k < |keys| && keys[k] == y;
      assert j[k] in j;
    }
  }

  /**
   * `pd.merge(left, right, on=code, how='outer')`: exactly one row per code of
   * either snapshot, in ascending code order, each carrying that code's row
   * from either side or nothing where the side lacks the code.
   */
  function OuterJoin(left: seq<Holding>, right: seq<Holding>): (j: seq<Joined>)
    ensures forall a, b :: 0 <= a < b < |j| ==> Below(j[a].code, j[b].code)
    ensures JoinedCodes(j) == Codes(left) + Codes(right)
    ensures |j| == |Codes(left) + Codes(right)|
    ensures forall i :: 0 <= i < |j| ==>
              j[i].left == Lookup(Index(left), j[i].code) && j[i].right == Lookup(Index(right), j[i].code)
    ensures forall i :: 0 <= i < |j| ==> j[i].left.Some? || j[i].right.Some?
  {
    var keys := JoinKeys(left, right);
    var j := seq(|keys|, i requires 0 <= i < |keys| =>
      assert keys[i] in keys; JoinAt(left, right, keys[i]));
    JoinedCodesAre(j, keys);
    j
  }

  /** A code has a row in the outer join exactly when either side has it. */
  lemma JoinCovers(left: seq<Holding>, right: seq<Holding>, code: string)
    ensures code in Codes(left) + Codes(right)
            <==> exists i :: 0 <= i < |OuterJoin(left, right)| && OuterJoin(left, right)[i].code == code
  {
    var j := OuterJoin(left, right);
    if code in Codes(left) + Codes(right) {
      assert code in JoinedCodes(j);
      var r :| r in j && r.code == code;
      var i :| 0 <= i < |j| && j[i] == r;
    }
  }
}
