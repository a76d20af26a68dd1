// The outcome of a battle. The winner's losses are n * (L/W)^(3/2), rounded to the nearest integer, where
// W and L are the winner's and the loser's points; here that number is pinned down by integer inequalities.

module AttackReport {
  import opened Options
  import opened Stock

  datatype UnitInfo = UnitInfo(kind: Kind, damage: nat, defense: nat, pierceDefense: nat)

  datatype Report = Report(attackerWon: bool, attackerDead: seq<Amount>, defenderDead: seq<Amount>)

  /** The part of an army that dies: all of it, or (loser/winner)^(3/2) of it. */
  datatype Ratio = Everything | ThreeHalves(loser: int, winner: int)

  predicate Army(units: seq<Amount>) {
    OneEach(units) && forall a <- units :: a.count >= 0
  }

  function Points(units: seq<Amount>, attacking: bool, infos: seq<UnitInfo>): int {
    if infos == [] then 0
    else
      var info := infos[0];
      var worth := if attacking then info.damage else info.defense + info.pierceDefense;
      AmountOf(units, info.kind) * worth + Points(units, attacking, infos[1..])
  }

  function Cube(x: int): int {
    x * x * x
  }

  function Odd(j: int, w: int): int {
    j * j * Cube(w)
  }

  function Even(n: int, l: int): int {
    4 * n * n * Cube(l)
  }

  /** k is n * (l/w)^(3/2) rounded half up: 2k-1 <= 2n(l/w)^(3/2) < 2k+1, squared and cleared of
      denominators. */
  predicate IsRounded(k: int, n: nat, w: nat, l: nat) {
    && k >= 0
    && Even(n, l) < Odd(2 * k + 1, w)
    && (k > 0 ==> Odd(2 * k - 1, w) <= Even(n, l))
  }

  function Rounded(n: nat, w: int, l: int, k: nat): (r: nat)
    ensures r <= k
  {
    if k == 0 || Odd(2 * k - 1, w) <= Even(n, l) then k else Rounded(n, w, l, k - 1)
  }

  /** Losses are clamped to the army: a negative count, or a ratio that is no number, yields the count. */
  function Losses(n: int, ratio: Ratio): (k: int)
    ensures n >= 0 ==> 0 <= k <= n
  {
    match ratio
    case Everything => n
    case ThreeHalves(l, w) => if n < 0 || l < 0 then n else Rounded(n, w, l, n)
  }

  function Casualties(units: seq<Amount>, ratio: Ratio): (dead: seq<Amount>)
    ensures |dead| == |units|
    ensures forall i :: 0 <= i < |units| ==>
      dead[i].kind == units[i].kind && (units[i].count >= 0 ==> 0 <= dead[i].count <= units[i].count)
  {
    seq(|units|, i requires 0 <= i < |units| => Amount(units[i].kind, Losses(units[i].count, ratio)))
  }

  /** The whole report: who won and who died. */
  function Battle(attackers: seq<Amount>, defenders: seq<Amount>, infos: seq<UnitInfo>): Report {
    var a := Points(attackers, true, infos);
    var d := Points(defenders, false, infos);
    if a == d then
      Report(false, Casualties(attackers, Everything), Casualties(defenders, Everything))
    else if a > d then
      Report(true, Casualties(attackers, ThreeHalves(d, a)), Casualties(defenders, Everything))
    else
      Report(false, Casualties(attackers, Everything), Casualties(defenders, ThreeHalves(a, d)))
  }

  lemma {:induction false} PointsNonNegative(units: seq<Amount>, attacking: bool, infos: seq<UnitInfo>)
    requires forall a <- units :: a.count >= 0
    ensures Points(units, attacking, infos) >= 0
  {
    if infos != [] {
      AmountsNonNegative(units, infos[0].kind);
      PointsNonNegative(units, attacking, infos[1..]);
    }
  }

  /// Arithmetic

  lemma CubeOrder(x: nat, y: nat)
    requires x <= y
    ensures Cube(x) <= Cube(y)
    ensures x < y ==> Cube(x) < Cube(y)
  {
  }

  lemma ProductOrder(p: nat, q: nat, c: nat, d: nat)
    requires p <= q && c <= d
    ensures p * c <= q * d
  {
  }

  lemma OddOrder(i: nat, j: nat, v: nat, w: nat)
    requires i <= j && v <= w
    ensures Odd(i, v) <= Odd(j, w)
  {
    CubeOrder(v, w);
    CubeOrder(0, v);
    ProductOrder(i, j, i, j);
    ProductOrder(i * i, j * j, Cube(v), Cube(w));
  }

  lemma EvenOrder(n: nat, m: nat, l: nat, k: nat)
    requires n <= m && l <= k
    ensures Even(n, l) <= Even(m, k)
  {
    OddOrder(2 * n, 2 * m, l, k);
    assert Even(n, l) == Odd(2 * n, l) && Even(m, k) == Odd(2 * m, k);
  }

  /** The computed losses are the rounded value. */
  lemma {:induction false} RoundedMeets(n: nat, w: nat, l: nat, k: nat)
    requires Even(n, l) < Odd(2 * k + 1, w)
    ensures IsRounded(Rounded(n, w, l, k), n, w, l)
  {
    if k > 0 && Odd(2 * k - 1, w) > Even(n, l) {
      RoundedMeets(n, w, l, k - 1);
    }
  }

  /** Whenever the winner has more points than the loser, the losses are the rounded value and do not
      exceed the army, so the source's clamp never cuts anything off. */
  lemma WinnerLosses(n: nat, w: nat, l: nat)
    requires l < w
    ensures w > 0
    ensures IsRounded(Losses(n, ThreeHalves(l, w)), n, w, l)
  {
    CubeOrder(l, w);
    CubeOrder(0, w);
    OddOrder(2 * n, 2 * n, l, w);
    assert Even(n, l) == Odd(2 * n, l);
    var p, q, c := 2 * n * (2 * n), (2 * n + 1) * (2 * n + 1), Cube(w);
    assert p < q;
    assert p * c < q * c;
    RoundedMeets(n, w, l, n);
  }

  /** Larger armies and stronger losers cost the winner no less, stronger winners no more. */
  lemma RoundedOrder(k: int, n: nat, w: nat, l: nat, k': int, n': nat, w': nat, l': nat)
    requires IsRounded(k, n, w, l) && IsRounded(k', n', w', l')
    requires n <= n' && l <= l' && w' <= w
    ensures k <= k'
  {
    if k > k' {
      EvenOrder(n, n', l, l');
      OddOrder(2 * k' + 1, 2 * k - 1, w', w);
      assert false;
    }
  }

  /** The inequalities have one solution, so they define the losses. */
  lemma RoundedUnique(k: int, k': int, n: nat, w: nat, l: nat)
    requires IsRounded(k, n, w, l) && IsRounded(k', n, w, l)
    ensures k == k'
  {
    RoundedOrder(k, n, w, l, k', n, w, l);
    RoundedOrder(k', n, w, l, k, n, w, l);
  }

  lemma LossesOrdered(n: nat, w: nat, l: nat, n': nat, w': nat, l': nat)
    requires l < w && l' < w' && n <= n' && l <= l' && w' <= w
    ensures Losses(n, ThreeHalves(l, w)) <= Losses(n', ThreeHalves(l', w'))
  {
    WinnerLosses(n, w, l);
    WinnerLosses(n', w', l');
    RoundedOrder(Losses(n, ThreeHalves(l, w)), n, w, l, Losses(n', ThreeHalves(l', w')), n', w', l');
  }

  lemma Scale(j: int, w: int, c: int)
    ensures Odd(j, c * w) == Odd(j, w) * Cube(c)
  {
  }

  lemma Multiplied(x: int, y: int, f: int)
    requires f > 0
    ensures x < y ==> x * f < y * f
    ensures x <= y ==> x * f <= y * f
  {
  }

  lemma RoundedScales(k: int, n: nat, w: nat, l: nat, c: nat)
    requires IsRounded(k, n, w, l) && c > 0
    ensures IsRounded(k, n, c * w, c * l)
  {
    CubeOrder(0, c);
    Scale(2 * k + 1, w, c);
    Scale(2 * k - 1, w, c);
    Scale(2 * n, l, c);
    Multiplied(Odd(2 * n, l), Odd(2 * k + 1, w), Cube(c));
    Multiplied(Odd(2 * k - 1, w), Odd(2 * n, l), Cube(c));
    assert Even(n, l) == Odd(2 * n, l);
    assert Even(n, c * l) == Odd(2 * n, c * l);
  }

  /** Only the ratio of the points matters: scaling both sides changes no loss. */
  lemma LossesScaleFree(n: nat, w: nat, l: nat, c: nat)
    requires l < w && c > 0
    ensures c * l < c * w
    ensures Losses(n, ThreeHalves(c * l, c * w)) == Losses(n, ThreeHalves(l, w))
  {
    var w', l' := c * w, c * l;
    assert l' < w';
    WinnerLosses(n, w, l);
    WinnerLosses(n, w', l');
    var k: int := Losses(n, ThreeHalves(l, w));
    RoundedScales(k, n, w, l, c);
    RoundedUnique(k, Losses(n, ThreeHalves(l', w')), n, w', l');
  }

  /** The report in terms of the points computed for both sides. */
  lemma ByPoints(attackers: seq<Amount>, defenders: seq<Amount>, infos: seq<UnitInfo>)
    requires Army(attackers) && Army(defenders)
    ensures var a, d := Points(attackers, true, infos), Points(defenders, false, infos);
      var r := Battle(attackers, defenders, infos);
      && a >= 0 && d >= 0
      && (r.attackerWon <==> a > d)
      && |r.attackerDead| == |attackers| && |r.defenderDead| == |defenders|
      && (a <= d ==> r.attackerDead == attackers)
      && (d <= a ==> r.defenderDead == defenders)
      && (forall i | 0 <= i < |attackers| ::
            && r.attackerDead[i].kind == attackers[i].kind
            && 0 <= r.attackerDead[i].count <= attackers[i].count
            && (a > d ==> IsRounded(r.attackerDead[i].count, attackers[i].count, a, d)))
      && (forall i | 0 <= i < |defenders| ::
            && r.defenderDead[i].kind == defenders[i].kind
            && 0 <= r.defenderDead[i].count <= defenders[i].count
            && (d > a ==> IsRounded(r.defenderDead[i].count, defenders[i].count, d, a)))
  {
    var a, d := Points(attackers, true, infos), Points(defenders, false, infos);
    PointsNonNegative(attackers, true, infos);
    PointsNonNegative(defenders, false, infos);
    if a > d {
      forall i | 0 <= i < |attackers| { WinnerLosses(attackers[i].count, a, d); }
    } else if d > a {
      forall i | 0 <= i < |defenders| { WinnerLosses(defenders[i].count, d, a); }
    }
  }

  /// What an army is worth

  function InfoOf(infos: seq<UnitInfo>, k: Kind): Option<UnitInfo> {
    if infos == [] then None else if infos[0].kind == k then Some(infos[0]) else InfoOf(infos[1..], k)
  }

  predicate KindsDistinct(infos: seq<UnitInfo>) {
    forall i, j :: 0 <= i < j < |infos| ==> infos[i].kind != infos[j].kind
  }

  /** Every unit sent adds its damage, and every defending unit its defense and its pierce defense; units that
      are not described add nothing. */
  function AttackStrength(units: seq<Amount>, infos: seq<UnitInfo>): int {
    if units == [] then 0
    else
      var info := InfoOf(infos, units[0].kind);
      (if info.Some? then units[0].count * info.value.damage else 0) + AttackStrength(units[1..], infos)
  }

  function DefenseStrength(units: seq<Amount>, infos: seq<UnitInfo>): int {
    if units == [] then 0
    else
      var info := InfoOf(infos, units[0].kind);
      (if info.Some? then units[0].count * info.value.defense + units[0].count * info.value.pierceDefense else 0)
      + DefenseStrength(units[1..], infos)
  }

  lemma {:induction false} InfoOfMember(infos: seq<UnitInfo>, k: Kind)
    ensures InfoOf(infos, k).None? <==> forall info <- infos :: info.kind != k
  {
    if infos != [] {
      InfoOfMember(infos[1..], k);
      assert infos == [infos[0]] + infos[1..];
    }
  }

  /** Describing one more type adds what the army has of it. */
  lemma {:induction false} OneMoreInfo(units: seq<Amount>, infos: seq<UnitInfo>)
    requires OneEach(units) && infos != [] && KindsDistinct(infos)
    ensures var info, n := infos[0], AmountOf(units, infos[0].kind);
      && AttackStrength(units, infos) == n * info.damage + AttackStrength(units, infos[1..])
      && DefenseStrength(units, infos) == n * (info.defense + info.pierceDefense) + DefenseStrength(units, infos[1..])
  {
    var info := infos[0];
    if units != [] {
      OneMoreInfo(units[1..], infos);
      if units[0].kind == info.kind {
        InfoOfMember(infos[1..], info.kind);
        AmountAbsent(units[1..], info.kind);
        assert AmountOf(units[1..], info.kind) == 0;
      }
      Spread(units[0].count, info.defense, info.pierceDefense);
    }
  }

  lemma Spread(n: int, x: int, y: int)
    ensures n * (x + y) == n * x + n * y
  {
  }

  /** The points of an army are the sum over its units. */
  lemma {:induction false} PointsAreStrength(units: seq<Amount>, infos: seq<UnitInfo>)
    requires OneEach(units) && KindsDistinct(infos)
    ensures Points(units, true, infos) == AttackStrength(units, infos)
    ensures Points(units, false, infos) == DefenseStrength(units, infos)
  {
    if infos == [] {
      WorthNothing(units);
    } else {
      OneMoreInfo(units, infos);
      PointsAreStrength(units, infos[1..]);
    }
  }

  lemma {:induction false} WorthNothing(units: seq<Amount>)
    ensures AttackStrength(units, []) == DefenseStrength(units, []) == 0
  {
    if units != [] {
      WorthNothing(units[1..]);
    }
  }

  /** `k` of `n` units die where the winner is worth `w` and the loser `l`: n * (l/w)^(3/2), rounded half up. */
  predicate RoundedLoss(k: int, n: int, w: int, l: int) {
    && 0 <= k <= n
    && 4 * n * n * (l * l * l) < (2 * k + 1) * (2 * k + 1) * (w * w * w)
    && (k > 0 ==> (2 * k - 1) * (2 * k - 1) * (w * w * w) <= 4 * n * n * (l * l * l))
  }

  /** The side whose units are worth strictly more wins and its losses of every type are the rounded three-halves
      power; the loser loses everything, and in a tie so do both. Nobody loses more than was there. */
  lemma BattleOutcome(attackers: seq<Amount>, defenders: seq<Amount>, infos: seq<UnitInfo>)
    requires Army(attackers) && Army(defenders) && KindsDistinct(infos)
    ensures var a, d := AttackStrength(attackers, infos), DefenseStrength(defenders, infos);
      var r := Battle(attackers, defenders, infos);
      && (r.attackerWon <==> a > d)
      && |r.attackerDead| == |attackers| && |r.defenderDead| == |defenders|
      && (a <= d ==> r.attackerDead == attackers)
      && (d <= a ==> r.defenderDead == defenders)
      && (forall i | 0 <= i < |attackers| :: r.attackerDead[i].kind == attackers[i].kind
            && (a > d ==> RoundedLoss(r.attackerDead[i].count, attackers[i].count, a, d)))
      && (forall i | 0 <= i < |defenders| :: r.defenderDead[i].kind == defenders[i].kind
            && (d > a ==> RoundedLoss(r.defenderDead[i].count, defenders[i].count, d, a)))
  {
    PointsAreStrength(attackers, infos);
    PointsAreStrength(defenders, infos);
    ByPoints(attackers, defenders, infos);
    var a, d := Points(attackers, true, infos), Points(defenders, false, infos);
    var r := Battle(attackers, defenders, infos);
    forall i | 0 <= i < |attackers| && a > d ensures RoundedLoss(r.attackerDead[i].count, attackers[i].count, a, d) {
      WrittenOut(r.attackerDead[i].count, attackers[i].count, a, d);
    }
    forall i | 0 <= i < |defenders| && d > a ensures RoundedLoss(r.defenderDead[i].count, defenders[i].count, d, a) {
      WrittenOut(r.defenderDead[i].count, defenders[i].count, d, a);
    }
  }

  lemma WrittenOut(k: int, n: nat, w: nat, l: nat)
    ensures RoundedLoss(k, n, w, l) <==> k <= n && IsRounded(k, n, w, l)
  {
    assert Cube(w) == w * w * w && Cube(l) == l * l * l;
    assert Even(n, l) == 4 * n * n * (l * l * l);
    assert Odd(2 * k + 1, w) == (2 * k + 1) * (2 * k + 1) * (w * w * w);
    assert Odd(2 * k - 1, w) == (2 * k - 1) * (2 * k - 1) * (w * w * w);
  }

  /** Ten units attack ten of the same type, worth 10 each in attack and 8 + 8 in defense: 100 against 160, so the
      defender wins and loses 10 * (5/8)^(3/2), which is 4.94. */
  lemma TenAgainstTen()
    ensures var infos, ten := [UnitInfo(Unit(0), 10, 8, 8)], [Amount(Unit(0), 10)];
      Battle(ten, ten, infos) == Report(false, ten, [Amount(Unit(0), 5)])
  {
    var infos, ten := [UnitInfo(Unit(0), 10, 8, 8)], [Amount(Unit(0), 10)];
    assert infos[1..] == [] && ten[1..] == [];
    assert InfoOf(infos, Unit(0)) == Some(infos[0]);
    assert AttackStrength(ten, infos) == 100 && DefenseStrength(ten, infos) == 160;
    BattleOutcome(ten, ten, infos);
    var dead := Battle(ten, ten, infos).defenderDead;
    WrittenOut(dead[0].count, 10, 160, 100);
    WrittenOut(5, 10, 160, 100);
    RoundedUnique(dead[0].count, 5, 10, 160, 100);
  }

  /** A half is rounded up: of a hundred units winning with 1000 points against 250, 12.5 die, so 13. */
  lemma HalvesRoundUp()
    ensures Losses(100, ThreeHalves(250, 1000)) == 13
  {
    WinnerLosses(100, 1000, 250);
    RoundedUnique(Losses(100, ThreeHalves(250, 1000)), 13, 100, 1000, 250);
  }

  /** A negative count "dies" as a whole, on either side and whoever wins. */
  lemma NegativeCountsDie(attackers: seq<Amount>, defenders: seq<Amount>, infos: seq<UnitInfo>)
    ensures var r := Battle(attackers, defenders, infos);
      && |r.attackerDead| == |attackers| && |r.defenderDead| == |defenders|
      && (forall i | 0 <= i < |attackers| && attackers[i].count < 0 :: r.attackerDead[i] == attackers[i])
      && (forall i | 0 <= i < |defenders| && defenders[i].count < 0 :: r.defenderDead[i] == defenders[i])
  {
  }

  /** Nobody dies against an army worth nothing. */
  lemma NoLossesAgainstNobody(n: nat, w: nat)
    requires w > 0
    ensures Losses(n, ThreeHalves(0, w)) == 0
  {
    WinnerLosses(n, w, 0);
    CubeOrder(0, w);
    assert Even(n, 0) == 0;
    RoundedUnique(Losses(n, ThreeHalves(0, w)), 0, n, w, 0);
  }

  /** A winner loses all its units of a type if and only if n * (l/w)^(3/2) is at least n - 1/2. */
  lemma AllDieExactly(n: nat, w: nat, l: nat)
    requires n > 0 && l < w
    ensures Losses(n, ThreeHalves(l, w)) == n <==> (2 * n - 1) * (2 * n - 1) * Cube(w) <= 4 * n * n * Cube(l)
  {
    assert Odd(2 * n - 1, w) == (2 * n - 1) * (2 * n - 1) * Cube(w);
  }

  /** All `n` units die: n * (l/w)^(3/2) is at least n - 1/2. */
  predicate DiesOut(n: int, w: int, l: int) {
    (2 * n - 1) * (2 * n - 1) * (w * w * w) <= 4 * n * n * (l * l * l)
  }

  /** A winning army dies to the last unit if and only if that holds of each type it brought. */
  lemma WinnerIsWipedOut(attackers: seq<Amount>, defenders: seq<Amount>, infos: seq<UnitInfo>)
    requires Army(attackers) && Army(defenders) && KindsDistinct(infos)
    requires Battle(attackers, defenders, infos).attackerWon
    ensures var w, l := AttackStrength(attackers, infos), DefenseStrength(defenders, infos);
      Battle(attackers, defenders, infos).attackerDead == attackers <==>
        forall u <- attackers :: u.count > 0 ==> DiesOut(u.count, w, l)
  {
    var w, l := Points(attackers, true, infos), Points(defenders, false, infos);
    PointsAreStrength(attackers, infos);
    PointsAreStrength(defenders, infos);
    var dead := Battle(attackers, defenders, infos).attackerDead;
    ByPoints(attackers, defenders, infos);
    forall i | 0 <= i < |attackers| && attackers[i].count > 0
      ensures dead[i] == attackers[i] <==> DiesOut(attackers[i].count, w, l)
    {
      AllDieExactly(attackers[i].count, w, l);
      assert Cube(w) == w * w * w && Cube(l) == l * l * l;
    }
    if forall u <- attackers :: u.count > 0 ==> DiesOut(u.count, w, l) {
      forall i | 0 <= i < |attackers| ensures dead[i] == attackers[i] {
        assert attackers[i] in attackers;
      }
    }
  }

  /** So it happens: one unit worth 10 points against 9. */
  lemma WinnersMayAllDie()
    ensures Losses(1, ThreeHalves(9, 10)) == 1
  {
  }
}
