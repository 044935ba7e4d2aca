/**
 * 981a.py: `compare_holdings` classifies each code by where it appears (only
 * today, only in the previous snapshot, in both with more or fewer shares),
 * appends one change per code in three loops over set differences, and sorts
 * the list by category rank with Python's stable sort.
 */
module Etf981 {
  import opened Wrappers
  import opened Holdings

  datatype Kind = New | Up | Down | Exit

  /** The change card's message: `買進 n 股`, `全數賣出`, `+n 股`, `-n 股`. */
  datatype Message = Bought(shares: int) | SoldAll | Plus(shares: int) | Minus(shares: int)

  datatype Change = Change(kind: Kind, code: string, name: string, msg: Message)

  /** `sort_order`: new before up before down before exit. */
  function Rank(k: Kind): nat {
    match k
    case New => 0
    case Up => 1
    case Down => 2
    case Exit => 3
  }

  function ChangeCodes(s: seq<Change>): set<string> {
    set c | c in s :: c.code
  }

  // ---------------------------------------------------------------------------
  // Names: `df[df[code] == code][name].values[0]`
  // ---------------------------------------------------------------------------

  lemma CodeInTail(rows: seq<Holding>, code: string)
    requires code in Codes(rows) && rows[0].code != code
    ensures code in Codes(rows[1..])
  {
    var h :| h in rows && h.code == code;
    var k :| 0 <= k < |rows| && rows[k] == h;
    assert rows[1..][k - 1] == h;
  }

  /** The name on the first row carrying `code`. */
  function FirstName(rows: seq<Holding>, code: string): string
    requires code in Codes(rows)
  {
    if rows[0].code == code then rows[0].name
    else
      CodeInTail(rows, code);
      FirstName(rows[1..], code)
  }

  /** The name picked is that of the first row with the code, whatever later duplicates say. */
  lemma {:induction false} FirstNameAt(rows: seq<Holding>, i: nat)
    requires i < |rows|
    requires forall j :: 0 <= j < i ==> rows[j].code != rows[i].code
    ensures rows[i] in rows && FirstName(rows, rows[i].code) == rows[i].name
  {
    if i > 0 {
      assert rows[1..][i - 1] == rows[i];
      FirstNameAt(rows[1..], i - 1);
    }
  }

  // ---------------------------------------------------------------------------
  // The change recorded for one code
  // ---------------------------------------------------------------------------

  /**
   * The change `compare_holdings` records for one code, if any (981a.py:119-129).
   * Quantities come from the last row with the code, names from the first.
   */
  function ChangeFor(cur: seq<Holding>, prev: seq<Holding>, code: string): Option<Change>
  {
    var now, before := Index(cur), Index(prev);
    if code in now && code !in before then
      Some(Change(Kind.New, code, FirstName(cur, code), Bought(now[code].qty)))
    else if code !in now && code in before then
      Some(Change(Exit, code, FirstName(prev, code), SoldAll))
    else if code in now && code in before then
      var diff := now[code].qty - before[code].qty;
      if diff > 0 then Some(Change(Up, code, FirstName(cur, code), Plus(diff)))
      else if diff < 0 then Some(Change(Down, code, FirstName(cur, code), Minus(-diff)))
      else None
    else None
  }

  /**
   * What the recorded change says: its kind follows where the code appears
   * and which way its quantity moved, names and share counts as on the cards.
   */
  lemma ChangeForMeaning(cur: seq<Holding>, prev: seq<Holding>, code: string, c: Option<Change>)
    requires c == ChangeFor(cur, prev, code)
    ensures c.Some? ==> c.value.code == code && code in Codes(cur) + Codes(prev)
    ensures (c.Some? && c.value.kind == Kind.New) <==> code in Codes(cur) && code !in Codes(prev)
    ensures (c.Some? && c.value.kind == Exit) <==> code !in Codes(cur) && code in Codes(prev)
    ensures (c.Some? && c.value.kind == Up) <==>
              code in Codes(cur) && code in Codes(prev) && Index(cur)[code].qty > Index(prev)[code].qty
    ensures (c.Some? && c.value.kind == Down) <==>
              code in Codes(cur) && code in Codes(prev) && Index(cur)[code].qty < Index(prev)[code].qty
    ensures c.Some? && c.value.kind != Exit ==> c.value.name == FirstName(cur, code)
    ensures c.Some? && c.value.kind == Exit ==> c.value.name == FirstName(prev, code) && c.value.msg == SoldAll
    ensures c.Some? && c.value.kind == Kind.New ==> c.value.msg == Bought(Index(cur)[code].qty)
    ensures c.Some? && c.value.kind == Up ==> c.value.msg == Plus(Index(cur)[code].qty - Index(prev)[code].qty)
    ensures c.Some? && c.value.kind == Down ==> c.value.msg == Minus(Index(prev)[code].qty - Index(cur)[code].qty)
  {
  }

  /** Every change is the one its code calls for. */
  ghost predicate Sound(cur: seq<Holding>, prev: seq<Holding>, changes: seq<Change>) {
    forall c :: c in changes ==> ChangeFor(cur, prev, c.code) == Some(c)
  }

  lemma ChangeCodesSnoc(s: seq<Change>, c: Change)
    requires |ChangeCodes(s)| == |s| && c.code !in ChangeCodes(s)
    ensures ChangeCodes(s + [c]) == ChangeCodes(s) + {c.code}
    ensures |ChangeCodes(s + [c])| == |s + [c]|
  {
    assert ChangeCodes(s + [c]) == ChangeCodes(s) + {c.code} by {
      forall y | y in ChangeCodes(s + [c])
        ensures y in ChangeCodes(s) + {c.code}
      {
        var d :| d in s + [c] && d.code == y;
        if d != c {
          assert d in s;
        }
      }
    }
  }

  // ---------------------------------------------------------------------------
  // The stable sort by rank (981a.py:130-131)
  // ---------------------------------------------------------------------------

  predicate RankSorted(s: seq<Change>) {
    forall i, j :: 0 <= i < j < |s| ==> Rank(s[i].kind) <= Rank(s[j].kind)
  }

  /** The changes of one kind, in their original order. */
  function OfKind(s: seq<Change>, k: Kind): (r: seq<Change>)
    ensures forall c :: c in r ==> c in s && c.kind == k
  {
    if s == [] then [] else (if s[0].kind == k then [s[0]] else []) + OfKind(s[1..], k)
  }

  lemma {:induction false} OfKindAppend(a: seq<Change>, b: seq<Change>, k: Kind)
    ensures OfKind(a + b, k) == OfKind(a, k) + OfKind(b, k)
  {
    if a == [] {
      assert a + b == b;
    } else {
      assert (a + b)[1..] == a[1..] + b;
      OfKindAppend(a[1..], b, k);
    }
  }

  lemma {:induction false} OfKindOfKind(s: seq<Change>, k: Kind, m: Kind)
    ensures OfKind(OfKind(s, k), m) == if k == m then OfKind(s, k) else []
  {
    if s != [] {
      OfKindOfKind(s[1..], k, m);
      OfKindAppend(if s[0].kind == k then [s[0]] else [], OfKind(s[1..], k), m);
    }
  }

  /** Each change occurs among those of its own kind as often as in the whole list, and never among the others. */
  lemma {:induction false} OfKindCount(s: seq<Change>, k: Kind, c: Change)
    ensures multiset(OfKind(s, k))[c] == if c.kind == k then multiset(s)[c] else 0
  {
    if s != [] {
      OfKindCount(s[1..], k, c);
      assert s == [s[0]] + s[1..];
    }
  }

  lemma SplitByKind(s: seq<Change>)
    ensures multiset(s) == multiset(OfKind(s, Kind.New)) + multiset(OfKind(s, Up))
                           + multiset(OfKind(s, Down)) + multiset(OfKind(s, Exit))
  {
    var sum := multiset(OfKind(s, Kind.New)) + multiset(OfKind(s, Up))
               + multiset(OfKind(s, Down)) + multiset(OfKind(s, Exit));
    forall c
      ensures multiset(s)[c] == sum[c]
    {
      OfKindCount(s, Kind.New, c);
      OfKindCount(s, Up, c);
      OfKindCount(s, Down, c);
      OfKindCount(s, Exit, c);
    }
  }

  lemma SortedJoin(a: seq<Change>, b: seq<Change>)
    requires RankSorted(a) && RankSorted(b)
    requires forall x, y :: x in a && y in b ==> Rank(x.kind) <= Rank(y.kind)
    ensures RankSorted(a + b)
  {
    var r := a + b;
    forall i, j | 0 <= i < j < |r|
      ensures Rank(r[i].kind) <= Rank(r[j].kind)
    {
      if i < |a| && j >= |a| {
        assert r[i] in a && r[j] == b[j - |a|] && r[j] in b;
      } else if i >= |a| {
        assert r[i] == b[i - |a|] && r[j] == b[j - |a|];
      }
    }
  }

  /** `changes.sort(key=lambda x: sort_order[x['type']])` with Python's stable sort. */
  function SortByRank(s: seq<Change>): seq<Change> {
    OfKind(s, Kind.New) + OfKind(s, Up) + OfKind(s, Down) + OfKind(s, Exit)
  }

  /** The sorted list runs new, up, down, exit. */
  lemma SortByRankOrders(s: seq<Change>)
    ensures RankSorted(SortByRank(s))
  {
    var a, b, c, d := OfKind(s, Kind.New), OfKind(s, Up), OfKind(s, Down), OfKind(s, Exit);
    SortedJoin(a, b);
    SortedJoin(a + b, c);
    SortedJoin(a + b + c, d);
  }

  /** Sorting neither loses nor duplicates a change. */
  lemma SortByRankPermutes(s: seq<Change>)
    ensures multiset(SortByRank(s)) == multiset(s)
  {
    SplitByKind(s);
  }

  /** The sort is stable: the changes of each kind keep their order. */
  lemma SortByRankStable(s: seq<Change>, k: Kind)
    ensures OfKind(SortByRank(s), k) == OfKind(s, k)
  {
    var a, b, c, d := OfKind(s, Kind.New), OfKind(s, Up), OfKind(s, Down), OfKind(s, Exit);
    var ka, kb, kc, kd := OfKind(a, k), OfKind(b, k), OfKind(c, k), OfKind(d, k);
    assert OfKind(SortByRank(s), k) == ka + kb + kc + kd by {
      OfKindAppend(a + b + c, d, k);
      OfKindAppend(a + b, c, k);
      OfKindAppend(a, b, k);
    }
    OfKindOfKind(s, Kind.New, k);
    OfKindOfKind(s, Up, k);
    OfKindOfKind(s, Down, k);
    OfKindOfKind(s, Exit, k);
    match k
    case New => assert ka + kb + kc + kd == ka + [] + [] + [] == ka;
    case Up => assert ka + kb + kc + kd == [] + kb + [] + [] == kb;
    case Down => assert ka + kb + kc + kd == [] + [] + kc + [] == kc;
    case Exit => assert ka + kb + kc + kd == [] + [] + [] + kd == kd;
  }

  lemma PermutationKeepsChanges(s: seq<Change>, r: seq<Change>)
    requires multiset(r) == multiset(s) && |ChangeCodes(s)| == |s|
    ensures forall c :: c in r <==> c in s
    ensures ChangeCodes(r) == ChangeCodes(s)
    ensures |ChangeCodes(r)| == |r|
  {
    assert |r| == |multiset(r)| == |multiset(s)| == |s|;
    assert forall c :: c in r <==> c in multiset(r);
    assert forall c :: c in s <==> c in multiset(s);
  }

  // ---------------------------------------------------------------------------
  // compare_holdings (981a.py:112-132)
  // ---------------------------------------------------------------------------

  /** Appending the change a fresh code calls for keeps the list sound and one change per code. */
  lemma SoundSnoc(cur: seq<Holding>, before: seq<Holding>, changes: seq<Change>, c: Change)
    requires Sound(cur, before, changes) && |ChangeCodes(changes)| == |changes|
    requires c.code !in ChangeCodes(changes) && ChangeFor(cur, before, c.code) == Some(c)
    ensures Sound(cur, before, changes + [c]) && |ChangeCodes(changes + [c])| == |changes + [c]|
    ensures ChangeCodes(changes + [c]) == ChangeCodes(changes) + {c.code}
  {
    ChangeCodesSnoc(changes, c);
  }

  /**
   * The body of the comparison loops for one code held on at least one of
   * the two days: the change `compare_holdings` appends for it, if any.
   */
  method ChangeOf(cur: seq<Holding>, before: seq<Holding>, code: string) returns (c: Option<Change>)
    requires code in Index(cur) || code in Index(before)
    ensures c == ChangeFor(cur, before, code)
  {
    var newDict, oldDict := Index(cur), Index(before);
    if code !in oldDict {
      c := Some(Change(Kind.New, code, FirstName(cur, code), Bought(newDict[code].qty)));
    } else if code !in newDict {
      c := Some(Change(Exit, code, FirstName(before, code), SoldAll));
    } else {
      var diff := newDict[code].qty - oldDict[code].qty;
      if diff > 0 {
        c := Some(Change(Up, code, FirstName(cur, code), Plus(diff)));
      } else if diff < 0 {
        c := Some(Change(Down, code, FirstName(cur, code), Minus(-diff)));
      } else {
        c := None;
      }
    }
  }

  /**
   * One of the three loops of `compare_holdings`: runs `ChangeOf` over a
   * group of codes none of which is recorded yet, appending what each calls for.
   */
  method RecordGroup(cur: seq<Holding>, before: seq<Holding>, changes: seq<Change>, group: set<string>)
    returns (out: seq<Change>)
    requires group <= Index(cur).Keys + Index(before).Keys
    requires Sound(cur, before, changes) && |ChangeCodes(changes)| == |changes|
    requires ChangeCodes(changes) !! group
    ensures Sound(cur, before, out) && |ChangeCodes(out)| == |out|
    ensures ChangeCodes(changes) <= ChangeCodes(out) <= ChangeCodes(changes) + group
    ensures forall code :: code in group && ChangeFor(cur, before, code).Some? ==> code in ChangeCodes(out)
  {
    out := changes;
    var todo := group;
    while todo != {}
      invariant todo <= group
      invariant Sound(cur, before, out) && |ChangeCodes(out)| == |out|
      invariant ChangeCodes(changes) <= ChangeCodes(out) <= ChangeCodes(changes) + group
      invariant ChangeCodes(out) !! todo
      invariant forall code :: code in group && code !in todo && ChangeFor(cur, before, code).Some?
                  ==> code in ChangeCodes(out)
      decreases |todo|
    {
      var code :| code in todo;
      var c := ChangeOf(cur, before, code);
      if c.Some? {
        ChangeForMeaning(cur, before, code, c);
        SoundSnoc(cur, before, out, c.value);
        out := out + [c.value];
      }
      todo := todo - {code};
    }
  }

  /**
   * With no previous snapshot (missing, or its read failed and was swallowed)
   * the list is empty. Otherwise it holds exactly the changes the codes call
   * for, one per code, ordered new < up < down < exit.
   */
  method CompareHoldings(cur: seq<Holding>, prev: Option<seq<Holding>>) returns (changes: seq<Change>)
    ensures prev.None? ==> changes == []
    ensures prev.Some? ==> forall c :: c in changes ==> ChangeFor(cur, prev.value, c.code) == Some(c)
    ensures prev.Some? ==> forall code :: ChangeFor(cur, prev.value, code).Some? ==> code in ChangeCodes(changes)
    ensures |ChangeCodes(changes)| == |changes|
    ensures RankSorted(changes)
  {
    changes := [];
    if prev.Some? {
      var before := prev.value;
      var oldKeys, newKeys := Index(before).Keys, Index(cur).Keys;
      changes := RecordGroup(cur, before, changes, newKeys - oldKeys);
      changes := RecordGroup(cur, before, changes, oldKeys - newKeys);
      changes := RecordGroup(cur, before, changes, oldKeys * newKeys);
      forall code | ChangeFor(cur, before, code).Some?
        ensures code in ChangeCodes(changes)
      {
        ChangeForMeaning(cur, before, code, ChangeFor(cur, before, code));
      }
    }
    SortByRankPermutes(changes);
    PermutationKeepsChanges(changes, SortByRank(changes));
    SortByRankOrders(changes);
    changes := SortByRank(changes);
  }

  /**
   * From the fetched rows to the change list (981a.py:155-163): today's
   * share counts are coerced, the saved snapshot's counts are coerced the
   * same way, then `compare_holdings` runs. A saved file that is missing or
   * could not be read is `None`.
   */
  method CompareFetched(fetched: seq<RawHolding>, saved: Option<seq<RawHolding>>) returns (changes: seq<Change>)
    ensures saved.None? ==> changes == []
    ensures saved.Some? ==>
              forall c :: c in changes ==> ChangeFor(Normalise(fetched), Normalise(saved.value), c.code) == Some(c)
    ensures saved.Some? ==>
              forall code :: ChangeFor(Normalise(fetched), Normalise(saved.value), code).Some? ==> code in ChangeCodes(changes)
    ensures |ChangeCodes(changes)| == |changes|
    ensures RankSorted(changes)
  {
    var cur := Normalise(fetched);
    var prev := if saved.Some? then Some(Normalise(saved.value)) else None;
    changes := CompareHoldings(cur, prev);
  }

  // ---------------------------------------------------------------------------
  // Properties
  // ---------------------------------------------------------------------------

  /**
   * Fetching the same rows again the next run reports nothing: the file
   * saved from today's coerced rows reads back as those rows.
   */
  lemma RerunIsQuiet(fetched: seq<RawHolding>, code: string)
    ensures ChangeFor(Normalise(fetched), Normalise(Saved(Normalise(fetched))), code) == None
  {
    SavedReadsBack(Normalise(fetched));
    SelfComparisonIsQuiet(Normalise(fetched), code);
  }

  /** Comparing a snapshot with itself records nothing for any code. */
  lemma SelfComparisonIsQuiet(s: seq<Holding>, code: string)
    ensures ChangeFor(s, s, code) == None
  {
  }

  /** The change kind 981a.py reports for the canonical category, if any. */
  function KindFor(c: Category): Option<Kind> {
    match c
    case New => Some(Kind.New)
    case Exited => Some(Exit)
    case Increased => Some(Up)
    case Decreased => Some(Down)
    case Unchanged => None
  }

  /**
   * When every share count is positive, classifying by presence agrees with
   * the quantity-based classification of the other scripts (a missing side
   * counting as 0 shares).
   */
  lemma PresenceAgreesWithQuantities(cur: seq<Holding>, prev: seq<Holding>, code: string)
    requires forall h :: h in cur ==> h.qty > 0
    requires forall h :: h in prev ==> h.qty > 0
    ensures var c := ChangeFor(cur, prev, code);
            (if c.Some? then Some(c.value.kind) else None)
              == KindFor(Classify(QtyOr0(Lookup(Index(prev), code)), QtyOr0(Lookup(Index(cur), code))))
  {
  }

  /**
   * With zero share counts they part ways: a code held at 0 shares yesterday
   * and absent today is an `exit` here, while the quantity rule sees 0 to 0,
   * unchanged.
   */
  lemma ZeroHoldingStillExits(cur: seq<Holding>, prev: seq<Holding>, code: string)
    requires code !in Codes(cur) && code in Codes(prev) && Index(prev)[code].qty == 0
    ensures ChangeFor(cur, prev, code).Some? && ChangeFor(cur, prev, code).value.kind == Exit
    ensures Classify(QtyOr0(Lookup(Index(prev), code)), QtyOr0(Lookup(Index(cur), code))) == Unchanged
  {
  }
}
