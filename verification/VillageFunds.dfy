// Paying for a new village out of all villages a user has: a sum check over all of them, then a greedy
// deduction that empties row after row until the price is met.

module VillageFunds {
  import opened Stock

  const RESOURCES_NEEDED_NEW_VILLAGE: int := 35000

  /** What is still to be removed of each base resource. */
  datatype Left = Left(food: int, iron: int, wood: int) {
    function Of(k: Kind): int {
      match k
      case Food => food
      case Iron => iron
      case Wood => wood
      case _ => 0
    }

    function Less(k: Kind, n: int): Left {
      match k
      case Food => this.(food := food - n)
      case Iron => this.(iron := iron - n)
      case Wood => this.(wood := wood - n)
      case _ => this
    }
  }

  const PRICE: Left :=
    Left(RESOURCES_NEEDED_NEW_VILLAGE, RESOURCES_NEEDED_NEW_VILLAGE, RESOURCES_NEEDED_NEW_VILLAGE)

  function Max(a: int, b: int): int {
    if a >= b then a else b
  }

  /** What is taken from one row while `left` is owed. */
  function Taken(left: Left, r: Row): int {
    if IsBase(r.kind) && left.Of(r.kind) > 0 && r.count > 0 then Min(r.count, left.Of(r.kind)) else 0
  }

  /** Rows and debt after working through `rows` from the front. */
  function Deduct(rows: seq<Row>, left: Left): (d: (seq<Row>, Left))
    ensures |d.0| == |rows|
  {
    if rows == [] then ([], left)
    else
      var r := rows[|rows| - 1];
      var (before, owed) := Deduct(rows[..|rows| - 1], left);
      (before + [r.(count := r.count - Taken(owed, r))], owed.Less(r.kind, Taken(owed, r)))
  }

  function DeductAll(villages: seq<seq<Row>>, left: Left): (d: (seq<seq<Row>>, Left))
    ensures |d.0| == |villages|
  {
    if villages == [] then ([], left)
    else
      var (before, owed) := DeductAll(villages[..|villages| - 1], left);
      var (rows, rest) := Deduct(villages[|villages| - 1], owed);
      (before + [rows], rest)
  }

  /** All there is of type `k`, and all of it in rows that are not overdrawn. */
  function Funds(villages: seq<seq<Row>>, k: Kind): int {
    if villages == [] then 0
    else Funds(villages[..|villages| - 1], k) + Tally(villages[|villages| - 1], Everywhere, k)
  }

  function Spendable(rows: seq<Row>, k: Kind): nat {
    if rows == [] then 0
    else
      var r := rows[|rows| - 1];
      Spendable(rows[..|rows| - 1], k) + if r.kind == k then Max(r.count, 0) else 0
  }

  function SpendableAll(villages: seq<seq<Row>>, k: Kind): nat {
    if villages == [] then 0
    else SpendableAll(villages[..|villages| - 1], k) + Spendable(villages[|villages| - 1], k)
  }

  predicate Affordable(villages: seq<seq<Row>>) {
    && Funds(villages, Wood) >= RESOURCES_NEEDED_NEW_VILLAGE
    && Funds(villages, Iron) >= RESOURCES_NEEDED_NEW_VILLAGE
    && Funds(villages, Food) >= RESOURCES_NEEDED_NEW_VILLAGE
  }

  /// What the deduction does

  lemma {:induction false} DeductTakes(rows: seq<Row>, left: Left, k: Kind)
    requires IsBase(k) && left.Of(k) >= 0
    ensures var (after, owed) := Deduct(rows, left);
      && owed.Of(k) == Max(0, left.Of(k) - Spendable(rows, k))
      && Tally(rows, Everywhere, k) - Tally(after, Everywhere, k) == left.Of(k) - owed.Of(k)
  {
    if rows != [] {
      var n := |rows| - 1;
      DeductTakes(rows[..n], left, k);
      var (after, owed) := Deduct(rows, left);
      assert after[..n] == Deduct(rows[..n], left).0;
    }
  }

  lemma {:induction false} DeductAllTakes(villages: seq<seq<Row>>, left: Left, k: Kind)
    requires IsBase(k) && left.Of(k) >= 0
    ensures var (after, owed) := DeductAll(villages, left);
      && owed.Of(k) == Max(0, left.Of(k) - SpendableAll(villages, k))
      && Funds(villages, k) - Funds(after, k) == left.Of(k) - owed.Of(k)
  {
    if villages != [] {
      var n := |villages| - 1;
      DeductAllTakes(villages[..n], left, k);
      var owed := DeductAll(villages[..n], left).1;
      DeductTakes(villages[n], owed, k);
      assert DeductAll(villages, left).0[..n] == DeductAll(villages[..n], left).0;
    }
  }

  /** Row by row: same village and type, never more than before, never pushed below zero, and untouched
      unless it is a positive count of a base resource. */
  predicate Reduced(r: Row, r': Row) {
    && r'.village == r.village && r'.kind == r.kind
    && r'.count <= r.count
    && (r.count >= 0 ==> r'.count >= 0)
    && (r'.count != r.count ==> IsBase(r.kind) && r.count > 0)
  }

  predicate VillageReduced(rows: seq<Row>, rows': seq<Row>) {
    |rows'| == |rows| && forall i :: 0 <= i < |rows| ==> Reduced(rows[i], rows'[i])
  }

  lemma {:induction false} DeductReduces(rows: seq<Row>, left: Left)
    ensures VillageReduced(rows, Deduct(rows, left).0)
  {
    if rows != [] {
      DeductReduces(rows[..|rows| - 1], left);
    }
  }

  lemma {:induction false} DeductAllReduces(villages: seq<seq<Row>>, left: Left)
    ensures var after := DeductAll(villages, left).0;
      forall v | 0 <= v < |villages| :: VillageReduced(villages[v], after[v])
  {
    if villages != [] {
      var n := |villages| - 1;
      DeductAllReduces(villages[..n], left);
      DeductReduces(villages[n], DeductAll(villages[..n], left).1);
    }
  }

  lemma {:induction false} SpendableCovers(rows: seq<Row>, k: Kind)
    ensures Tally(rows, Everywhere, k) <= Spendable(rows, k)
  {
    if rows != [] {
      SpendableCovers(rows[..|rows| - 1], k);
    }
  }

  lemma {:induction false} SpendableAllCovers(villages: seq<seq<Row>>, k: Kind)
    ensures Funds(villages, k) <= SpendableAll(villages, k)
  {
    if villages != [] {
      SpendableAllCovers(villages[..|villages| - 1], k);
      SpendableCovers(villages[|villages| - 1], k);
    }
  }

  /** The deduction removes exactly the price of a resource if and only if the rows that are not overdrawn
      hold it. */
  lemma RemovesPriceExactly(villages: seq<seq<Row>>, k: Kind)
    requires IsBase(k)
    ensures Funds(villages, k) - Funds(DeductAll(villages, PRICE).0, k) == 35000
      <==> SpendableAll(villages, k) >= 35000
  {
    DeductAllTakes(villages, PRICE, k);
  }

  /** If the check passes, the price of each base resource is removed to the unit, whatever the villages
      and rows, and no row is driven below zero. */
  lemma CheckedMeansPaid(villages: seq<seq<Row>>, k: Kind)
    requires IsBase(k) && forall b :: IsBase(b) ==> Funds(villages, b) >= 35000
    ensures var after := DeductAll(villages, PRICE).0;
      && Funds(after, k) == Funds(villages, k) - 35000
      && forall v | 0 <= v < |villages| :: VillageReduced(villages[v], after[v])
  {
    SpendableAllCovers(villages, k);
    RemovesPriceExactly(villages, k);
    DeductAllReduces(villages, PRICE);
  }

  /** What creating a village leaves of a user's villages; unchanged when it is refused for lack of funds.
      The check applies from the second village on, the deduction only from the third. */
  function AfterCreation(villages: seq<seq<Row>>): seq<seq<Row>> {
    if |villages| > 1 && Affordable(villages) then DeductAll(villages, PRICE).0 else villages
  }

  /** A new village costs 35000 of each base resource if and only if the user has two villages or more and all of
      them together hold as much of each; otherwise nothing is taken. */
  lemma PaidFromTheThird(villages: seq<seq<Row>>, k: Kind)
    requires IsBase(k)
    ensures var after := AfterCreation(villages);
      if |villages| >= 2 && (forall b :: IsBase(b) ==> Funds(villages, b) >= 35000)
      then Funds(after, k) == Funds(villages, k) - 35000
      else after == villages
  {
    if forall b :: IsBase(b) ==> Funds(villages, b) >= 35000 {
      CheckedMeansPaid(villages, k);
    }
  }

  /** Rows are used up in order: a later row of the same resource gives only when the earlier one has nothing left. */
  lemma {:induction false} EarlierRowsFirst(rows: seq<Row>, left: Left, i: nat, j: nat)
    requires i < j < |rows| && rows[i].kind == rows[j].kind
    ensures var after := Deduct(rows, left).0;
      after[j] != rows[j] ==> after[i].count <= 0
    decreases |rows|
  {
    var n := |rows| - 1;
    assert Deduct(rows, left).0[..n] == Deduct(rows[..n], left).0;
    if j < n {
      EarlierRowsFirst(rows[..n], left, i, j);
    } else if IsBase(rows[i].kind) {
      OwedMeansEmpty(rows[..n], left, i);
    }
  }

  /** And a later village gives of a resource only when no row of it is left in the earlier ones. */
  lemma {:induction false} EarlierVillagesFirst(villages: seq<seq<Row>>, left: Left, v: nat, i: nat, x: nat, j: nat)
    requires v < x < |villages| && i < |villages[v]| && j < |villages[x]|
    requires villages[v][i].kind == villages[x][j].kind
    ensures var after := DeductAll(villages, left).0;
      |after[v]| == |villages[v]| && |after[x]| == |villages[x]|
      && (after[x][j] != villages[x][j] ==> after[v][i].count <= 0)
  {
    var n := |villages| - 1;
    DeductAllReduces(villages, left);
    assert DeductAll(villages, left).0[..n] == DeductAll(villages[..n], left).0;
    if x < n {
      EarlierVillagesFirst(villages[..n], left, v, i, x, j);
    } else if IsBase(villages[v][i].kind) {
      OwedMeansAllEmpty(villages[..n], left, v, i);
      OwedStays(villages[n], DeductAll(villages[..n], left).1, j);
    } else {
      OwedStays(villages[n], DeductAll(villages[..n], left).1, j);
    }
  }

  /** A row changes only while its resource is owed. */
  lemma {:induction false} OwedStays(rows: seq<Row>, left: Left, j: nat)
    requires j < |rows|
    ensures Deduct(rows, left).0[j] != rows[j] ==> IsBase(rows[j].kind) && left.Of(rows[j].kind) > 0
  {
    var n := |rows| - 1;
    assert Deduct(rows, left).0[..n] == Deduct(rows[..n], left).0;
    if j < n {
      OwedStays(rows[..n], left, j);
    } else if IsBase(rows[j].kind) && left.Of(rows[j].kind) <= 0 {
      NothingOwed(rows[..n], left, rows[j].kind);
    }
  }

  lemma {:induction false} NothingOwed(rows: seq<Row>, left: Left, k: Kind)
    requires IsBase(k) && left.Of(k) <= 0
    ensures Deduct(rows, left).1.Of(k) <= 0
  {
    if rows != [] {
      NothingOwed(rows[..|rows| - 1], left, k);
    }
  }

  lemma {:induction false} OwedMeansAllEmpty(villages: seq<seq<Row>>, left: Left, v: nat, i: nat)
    requires v < |villages| && i < |villages[v]| && IsBase(villages[v][i].kind)
    ensures var (after, owed) := DeductAll(villages, left);
      |after[v]| == |villages[v]| && (owed.Of(villages[v][i].kind) > 0 ==> after[v][i].count <= 0)
  {
    var n := |villages| - 1;
    DeductAllReduces(villages, left);
    assert DeductAll(villages, left).0[..n] == DeductAll(villages[..n], left).0;
    if v < n {
      OwedMeansAllEmpty(villages[..n], left, v, i);
      if DeductAll(villages[..n], left).1.Of(villages[v][i].kind) <= 0 {
        NothingOwed(villages[n], DeductAll(villages[..n], left).1, villages[v][i].kind);
      }
    } else {
      OwedMeansEmpty(villages[n], DeductAll(villages[..n], left).1, i);
    }
  }

  lemma {:induction false} OwedMeansEmpty(rows: seq<Row>, left: Left, i: nat)
    requires i < |rows| && IsBase(rows[i].kind)
    ensures var (after, owed) := Deduct(rows, left);
      owed.Of(rows[i].kind) > 0 ==> after[i].count <= 0
  {
    var n := |rows| - 1;
    assert Deduct(rows, left).0[..n] == Deduct(rows[..n], left).0;
    if i < n {
      OwedMeansEmpty(rows[..n], left, i);
    }
  }

  /** So the second village is free: a user with one village of 35000 of each keeps all of it. */
  lemma SecondVillageIsFree() returns (villages: seq<seq<Row>>)
    ensures |villages| == 1 && Affordable(villages) && AfterCreation(villages) == villages
    ensures forall k :: IsBase(k) ==> Funds(AfterCreation(villages), k) == 35000
  {
    var n := RESOURCES_NEEDED_NEW_VILLAGE;
    var rows := [Row(1, Food, n), Row(1, Iron, n), Row(1, Wood, n)];
    villages := [rows];
    forall k | IsBase(k) ensures Funds(villages, k) == n {
      assert rows == [] + [rows[0]] + [rows[1]] + [rows[2]];
      AppendTally([], rows[0], Everywhere, k);
      AppendTally([] + [rows[0]], rows[1], Everywhere, k);
      AppendTally([] + [rows[0]] + [rows[1]], rows[2], Everywhere, k);
      assert Funds(villages, k) == Funds([], k) + Tally(rows, Everywhere, k);
    }
    PaidFromTheThird(villages, Food);
  }

  /// The two methods of the village service

  class VillagesService {
    var villages: seq<seq<Row>>

    constructor (villages: seq<seq<Row>>)
      ensures this.villages == villages
    {
      this.villages := villages;
    }

    method CheckIfHasEnoughResources() returns (enough: bool)
      ensures enough == Affordable(villages)
    {
      var totalWood, totalIron, totalFood := 0, 0, 0;
      for v := 0 to |villages|
        invariant totalWood == Funds(villages[..v], Wood)
        invariant totalIron == Funds(villages[..v], Iron)
        invariant totalFood == Funds(villages[..v], Food)
      {
        var rows := villages[v];
        ghost var wood, iron, food := totalWood, totalIron, totalFood;
        for i := 0 to |rows|
          invariant totalWood == wood + Tally(rows[..i], Everywhere, Wood)
          invariant totalIron == iron + Tally(rows[..i], Everywhere, Iron)
          invariant totalFood == food + Tally(rows[..i], Everywhere, Food)
        {
          assert rows[..i + 1][..i] == rows[..i];
          match rows[i].kind
          case Food => totalFood := totalFood + rows[i].count;
          case Iron => totalIron := totalIron + rows[i].count;
          case Wood => totalWood := totalWood + rows[i].count;
          case _ =>
        }
        assert rows[..|rows|] == rows && villages[..v + 1][..v] == villages[..v];
      }
      assert villages[..|villages|] == villages;
      enough := totalWood >= RESOURCES_NEEDED_NEW_VILLAGE && totalIron >= RESOURCES_NEEDED_NEW_VILLAGE
        && totalFood >= RESOURCES_NEEDED_NEW_VILLAGE;
    }

    method RemoveResourcesForVillageCreation()
      modifies this
      ensures villages == DeductAll(old(villages), PRICE).0
    {
      var leftToRemove := PRICE;
      for v := 0 to |villages|
        invariant |villages| == |old(villages)|
        invariant forall j :: v <= j < |villages| ==> villages[j] == old(villages)[j]
        invariant (villages[..v], leftToRemove) == DeductAll(old(villages)[..v], PRICE)
      {
        var rows := villages[v];
        assert rows == old(villages)[v];
        ghost var owed := leftToRemove;
        var after := [];
        for i := 0 to |rows|
          invariant (after, leftToRemove) == Deduct(rows[..i], owed)
        {
          assert rows[..i + 1][..i] == rows[..i];
          var res := rows[i];
          if IsBase(res.kind) && leftToRemove.Of(res.kind) > 0 && res.count > 0 {
            var shouldRemove := Min(res.count, leftToRemove.Of(res.kind));
            leftToRemove := leftToRemove.Less(res.kind, shouldRemove);
            res := res.(count := Max(res.count - shouldRemove, 0));
          }
          after := after + [res];
        }
        assert rows[..|rows|] == rows && old(villages)[..v + 1][..v] == old(villages)[..v];
        villages := villages[v := after];
        assert villages[..v + 1] == villages[..v] + [after];
      }
      assert villages[..|villages|] == villages && old(villages)[..|villages|] == old(villages);
    }
  }
}
