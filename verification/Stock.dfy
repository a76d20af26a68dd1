// The table villages_resource_types: how many of each resource or unit type a village holds, and the
// set-based update `UPDATE ... FROM (values ...)` through which the services change it.

module Stock {
  datatype Kind = Food | Iron | Wood | Mkc | Unit(id: nat)
  datatype Row = Row(village: nat, kind: Kind, count: int)
  datatype Amount = Amount(kind: Kind, count: int)

  /** One village, or the whole table. */
  datatype Place = Everywhere | At(village: nat)

  predicate IsBase(k: Kind) {
    k.Food? || k.Iron? || k.Wood?
  }

  predicate IsAt(r: Row, v: nat, k: Kind) {
    r.village == v && r.kind == k
  }

  predicate Has(rows: seq<Row>, v: nat, k: Kind) {
    exists r <- rows :: IsAt(r, v, k)
  }

  /** No two rows for the same village and type. */
  predicate Keyed(rows: seq<Row>) {
    forall i, j :: 0 <= i < j < |rows| ==> !IsAt(rows[i], rows[j].village, rows[j].kind)
  }

  predicate NonNegative(rows: seq<Row>) {
    forall r <- rows :: r.count >= 0
  }

  /** The rows a join on village and type returns. */
  function Matching(rows: seq<Row>, v: nat, k: Kind): seq<Row> {
    if rows == [] then []
    else
      var last := rows[|rows| - 1];
      Matching(rows[..|rows| - 1], v, k) + if IsAt(last, v, k) then [last] else []
  }

  function Tally(rows: seq<Row>, at: Place, k: Kind): int {
    if rows == [] then 0
    else
      var last := rows[|rows| - 1];
      Tally(rows[..|rows| - 1], at, k) +
      if last.kind == k && (at.Everywhere? || at.village == last.village) then last.count else 0
  }

  /** The entry for type `k` in a list of values; 0 when there is none. */
  function AmountOf(values: seq<Amount>, k: Kind): int {
    if values == [] then 0
    else if values[0].kind == k then values[0].count
    else AmountOf(values[1..], k)
  }

  predicate OneEach(values: seq<Amount>) {
    forall i, j :: 0 <= i < j < |values| ==> values[i].kind != values[j].kind
  }

  /** What all entries for type `k` in a list of values add up to. */
  function SumOf(values: seq<Amount>, k: Kind): int {
    if values == [] then 0
    else
      var last := values[|values| - 1];
      SumOf(values[..|values| - 1], k) + if last.kind == k then last.count else 0
  }

  function Min(a: int, b: int): int {
    if a <= b then a else b
  }

  function Signed(add: bool, n: int): int {
    if add then n else -n
  }

  /** UPDATE villages_resource_types SET count = count +/- v.amount FROM (values ...) AS v
      WHERE village_id = village AND resource_type_id = v.type. */
  function UpdateFrom(rows: seq<Row>, village: nat, values: seq<Amount>, add: bool): (rows': seq<Row>)
    ensures |rows'| == |rows|
    ensures forall i :: 0 <= i < |rows| ==> rows'[i].village == rows[i].village && rows'[i].kind == rows[i].kind
  {
    seq(|rows|, i requires 0 <= i < |rows| =>
      if rows[i].village != village then rows[i]
      else rows[i].(count := rows[i].count + Signed(add, AmountOf(values, rows[i].kind))))
  }

  lemma UpdateKeepsKeys(rows: seq<Row>, village: nat, values: seq<Amount>, add: bool)
    ensures var rows' := UpdateFrom(rows, village, values, add);
      && (Keyed(rows) ==> Keyed(rows'))
      && forall v, k :: Has(rows', v, k) <==> Has(rows, v, k)
  {
    var rows' := UpdateFrom(rows, village, values, add);
    forall v, k ensures Has(rows', v, k) <==> Has(rows, v, k) {
      forall i | 0 <= i < |rows| ensures IsAt(rows[i], v, k) <==> IsAt(rows'[i], v, k) {
        assert rows[i] in rows && rows'[i] in rows';
      }
    }
  }

  lemma HasLast(rows: seq<Row>, v: nat, k: Kind)
    requires rows != []
    ensures var n := |rows| - 1;
      && (Has(rows, v, k) <==> Has(rows[..n], v, k) || IsAt(rows[n], v, k))
      && (Keyed(rows) && IsAt(rows[n], v, k) ==> !Has(rows[..n], v, k))
  {
  }

  /** In a table with unique keys an update moves each total by its value, if the row exists at all. */
  lemma {:induction false} UpdateTally(rows: seq<Row>, village: nat, values: seq<Amount>, add: bool, at: Place, k: Kind)
    requires Keyed(rows)
    ensures Tally(UpdateFrom(rows, village, values, add), at, k) == Tally(rows, at, k) +
      if Has(rows, village, k) && (at.Everywhere? || at.village == village)
      then Signed(add, AmountOf(values, k)) else 0
  {
    if rows != [] {
      var n := |rows| - 1;
      var rows' := UpdateFrom(rows, village, values, add);
      assert rows'[..n] == UpdateFrom(rows[..n], village, values, add);
      UpdateTally(rows[..n], village, values, add, at, k);
      HasLast(rows, village, k);
    }
  }

  lemma AppendTally(rows: seq<Row>, r: Row, at: Place, k: Kind)
    ensures Tally(rows + [r], at, k) == Tally(rows, at, k) +
      if r.kind == k && (at.Everywhere? || at.village == r.village) then r.count else 0
  {
  }

  lemma AppendKeeps(rows: seq<Row>, r: Row)
    requires Keyed(rows) && !Has(rows, r.village, r.kind)
    ensures Keyed(rows + [r])
    ensures forall v, k :: Has(rows + [r], v, k) <==> Has(rows, v, k) || IsAt(r, v, k)
  {
  }

  /** The tally of one village and type is the count in its row. */
  lemma {:induction false} MatchingKeyed(rows: seq<Row>, v: nat, k: Kind)
    requires Keyed(rows)
    ensures |Matching(rows, v, k)| == if Has(rows, v, k) then 1 else 0
    ensures !Has(rows, v, k) ==> Tally(rows, At(v), k) == 0
    ensures forall r <- rows :: IsAt(r, v, k) ==> Matching(rows, v, k) == [r] && Tally(rows, At(v), k) == r.count
  {
    if rows != [] {
      var n := |rows| - 1;
      MatchingKeyed(rows[..n], v, k);
      HasLast(rows, v, k);
      assert rows == rows[..n] + [rows[n]];
    }
  }

  /** An update that takes no more than is there leaves no negative count. */
  lemma TakeKeepsNonNegative(rows: seq<Row>, village: nat, values: seq<Amount>)
    requires NonNegative(rows)
    requires forall r <- rows :: r.village == village ==> AmountOf(values, r.kind) <= r.count
    ensures NonNegative(UpdateFrom(rows, village, values, false))
  {
  }

  lemma {:induction false} AmountsNonNegative(values: seq<Amount>, k: Kind)
    requires forall a <- values :: a.count >= 0
    ensures AmountOf(values, k) >= 0
  {
    if values != [] {
      AmountsNonNegative(values[1..], k);
    }
  }

  lemma GiveKeepsNonNegative(rows: seq<Row>, village: nat, values: seq<Amount>)
    requires NonNegative(rows)
    requires forall a <- values :: a.count >= 0
    ensures NonNegative(UpdateFrom(rows, village, values, true))
  {
    forall k ensures AmountOf(values, k) >= 0 {
      AmountsNonNegative(values, k);
    }
  }

  lemma SingleAmount(kind: Kind, n: int, k: Kind)
    ensures AmountOf([Amount(kind, n)], k) == if k == kind then n else 0
  {
  }

  lemma {:induction false} AmountAt(values: seq<Amount>, i: nat)
    requires OneEach(values) && i < |values|
    ensures AmountOf(values, values[i].kind) == values[i].count
  {
    if i > 0 {
      AmountAt(values[1..], i - 1);
    }
  }

  lemma {:induction false} AmountAbsent(values: seq<Amount>, k: Kind)
    requires forall a <- values :: a.kind != k
    ensures AmountOf(values, k) == 0
  {
    if values != [] {
      AmountAbsent(values[1..], k);
    }
  }

  lemma {:induction false} AmountLast(values: seq<Amount>, k: Kind)
    requires OneEach(values) && values != []
    ensures var n := |values| - 1;
      AmountOf(values, k) == if values[n].kind == k then values[n].count else AmountOf(values[..n], k)
  {
    var n := |values| - 1;
    if n > 0 {
      assert values[1..][..n - 1] == values[..n][1..];
      AmountLast(values[1..], k);
    }
  }

  /** Where each type is listed once, its entry is its sum. */
  lemma {:induction false} SumOfOneEach(values: seq<Amount>, k: Kind)
    requires OneEach(values)
    ensures SumOf(values, k) == AmountOf(values, k)
  {
    if values != [] {
      var n := |values| - 1;
      AmountLast(values, k);
      SumOfOneEach(values[..n], k);
      if values[n].kind == k {
        AmountAbsent(values[..n], k);
      }
    }
  }

  /** An update leaves a sound table sound if and only if each row of the village can take its value. */
  lemma UpdateNonNegative(rows: seq<Row>, village: nat, values: seq<Amount>, add: bool)
    requires Keyed(rows) && NonNegative(rows)
    ensures NonNegative(UpdateFrom(rows, village, values, add)) <==>
      forall k :: Has(rows, village, k) ==> Tally(rows, At(village), k) + Signed(add, AmountOf(values, k)) >= 0
  {
    var rows' := UpdateFrom(rows, village, values, add);
    if NonNegative(rows') {
      forall k | Has(rows, village, k) ensures Tally(rows, At(village), k) + Signed(add, AmountOf(values, k)) >= 0 {
        var i :| 0 <= i < |rows| && IsAt(rows[i], village, k);
        MatchingKeyed(rows, village, k);
        assert rows'[i] in rows';
      }
    }
    if forall k :: Has(rows, village, k) ==> Tally(rows, At(village), k) + Signed(add, AmountOf(values, k)) >= 0 {
      forall i | 0 <= i < |rows| ensures rows'[i].count >= 0 {
        assert rows[i] in rows;
        if rows[i].village == village {
          assert IsAt(rows[i], village, rows[i].kind);
          MatchingKeyed(rows, village, rows[i].kind);
        }
      }
    }
  }

  lemma TallyNonNegative(rows: seq<Row>, v: nat, k: Kind)
    requires Keyed(rows) && NonNegative(rows)
    ensures Tally(rows, At(v), k) >= 0
  {
    MatchingKeyed(rows, v, k);
  }
}
