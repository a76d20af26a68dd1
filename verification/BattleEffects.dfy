// What a launch and a battle do, told from what is asked for and from the stock: who may attack, who wins, who dies
// and what is taken.

module BattleEffects {
  import opened Options
  import opened Stock
  import opened DelayedQueue
  import opened AttackReport
  import opened Battles

  /// Launching

  /** An attack goes ahead between villages of two users without truce, for at least one unit, if every entry with a
      positive count stands under the key of a unit and the village has as many of its id. */
  predicate Admissible(w: World, av: nat, dv: nat, wanted: seq<Entry>, truce: bool) {
    && av in w.ownerOf && dv in w.ownerOf && w.ownerOf[av] != w.ownerOf[dv] && !truce
    && (exists e <- wanted :: e.count > 0)
    && forall e <- wanted :: e.count > 0 ==>
         e.name.Unit? && Has(w.rows, av, e.id) && Tally(w.rows, At(av), e.id) >= e.count
  }

  lemma AdmissibleMeans(w: World, av: nat, dv: nat, wanted: seq<Entry>, truce: bool)
    requires Keyed(w.rows)
    ensures MayLaunch(w, av, dv, Positive(wanted), truce) <==> Admissible(w, av, dv, wanted, truce)
  {
    PositiveMembers(wanted);
    forall e: Entry ensures Available(w.rows, av, e) <==>
      Has(w.rows, av, e.id) && Tally(w.rows, At(av), e.id) >= e.count
    {
      MatchingKeyed(w.rows, av, e.id);
    }
    if exists e <- wanted :: e.count > 0 {
      var e :| e in wanted && e.count > 0;
      assert e in Positive(wanted);
    }
    if Positive(wanted) != [] {
      assert Positive(wanted)[0] in Positive(wanted);
    }
  }

  /** An admissible attack is entered with the positive entries and announced for the end of its way; one ticket comes
      due at that very moment; and the units leave the rows of their keys. Any other changes nothing. */
  lemma LaunchExactly(w: World, av: nat, dv: nat, wanted: seq<Entry>, travel: nat, truce: bool)
    requires Keyed(w.rows) && KeysDistinct(wanted)
    ensures var w', n := Launched(w, av, dv, wanted, travel, truce), |w.attacks|;
      if Admissible(w, av, dv, wanted, truce) then
        && |w'.attacks| == n + 1 && w'.attacks[..n] == w.attacks && w'.returning == w.returning && w'.now == w.now
        && var a := w'.attacks[n];
        && a == Attack(av, dv, a.sent, travel, w.now + travel, true, false, false, None, None)
        && (forall e :: e in a.sent <==> e in wanted && e.count > 0)
        && w'.normal.pending == w.normal.pending
        && w'.normal.delayed == w.normal.delayed[March(n, travel, av, dv, a.sent) := w.now + travel]
        && LeavesOnly(w.rows, w'.rows, av, wanted)
      else w' == w
  {
    AdmissibleMeans(w, av, dv, wanted, truce);
    if Admissible(w, av, dv, wanted, truce) {
      LaunchedForm(w, av, dv, wanted, travel, truce);
      PositiveMembers(wanted);
      UnitsLeave(w.rows, av, wanted);
    }
  }

  lemma LaunchedForm(w: World, av: nat, dv: nat, wanted: seq<Entry>, travel: nat, truce: bool)
    requires MayLaunch(w, av, dv, Positive(wanted), truce)
    ensures var sent, n := Positive(wanted), |w.attacks|;
      Launched(w, av, dv, wanted, travel, truce) == World(
        UpdateFrom(w.rows, av, Named(sent), false), w.ownerOf,
        w.attacks + [Attack(av, dv, sent, travel, w.now + travel, true, false, false, None, None)],
        Queue(w.normal.delayed[March(n, travel, av, dv, sent) := w.now + travel], w.normal.pending),
        w.returning, w.now)
  {
  }

  /** Of each type named by a positive entry its count is gone from village `v`, where it has a row; nothing else
      changes. */
  ghost predicate LeavesOnly(rows: seq<Row>, rows': seq<Row>, v: nat, wanted: seq<Entry>) {
    && (forall e <- wanted :: e.count > 0 && Has(rows, v, e.name) ==>
          Tally(rows', At(v), e.name) == Tally(rows, At(v), e.name) - e.count)
    && (forall x, k :: (x == v && exists e <- wanted :: e.count > 0 && e.name == k)
          || Tally(rows', At(x), k) == Tally(rows, At(x), k))
  }

  lemma UnitsLeave(rows: seq<Row>, v: nat, wanted: seq<Entry>)
    requires Keyed(rows) && KeysDistinct(wanted)
    ensures LeavesOnly(rows, UpdateFrom(rows, v, Named(Positive(wanted)), false), v, wanted)
  {
    var sent := Positive(wanted);
    var rows' := UpdateFrom(rows, v, Named(sent), false);
    forall e | e in wanted && e.count > 0 && Has(rows, v, e.name)
      ensures Tally(rows', At(v), e.name) == Tally(rows, At(v), e.name) - e.count
    {
      UpdateTally(rows, v, Named(sent), false, At(v), e.name);
      SentOf(wanted, e.name);
    }
    forall x, k ensures (x == v && exists e <- wanted :: e.count > 0 && e.name == k)
      || Tally(rows', At(x), k) == Tally(rows, At(x), k)
    {
      UpdateTally(rows, v, Named(sent), false, At(x), k);
      SentOf(wanted, k);
    }
  }

  /** What is sent under a key: the count of its positive entry, or nothing. */
  lemma SentOf(wanted: seq<Entry>, k: Kind)
    requires KeysDistinct(wanted)
    ensures forall e <- wanted :: e.count > 0 && e.name == k ==> AmountOf(Named(Positive(wanted)), k) == e.count
    ensures (forall e <- wanted :: e.count > 0 ==> e.name != k) ==> AmountOf(Named(Positive(wanted)), k) == 0
  {
    var sent := Positive(wanted);
    PositiveMembers(wanted);
    forall e | e in wanted && e.count > 0 && e.name == k ensures AmountOf(Named(sent), k) == e.count {
      var i :| 0 <= i < |sent| && sent[i] == e;
      AmountAt(Named(sent), i);
    }
    if forall e <- wanted :: e.count > 0 ==> e.name != k {
      NotSent(sent, k);
    }
  }

  lemma NotSent(sent: seq<Entry>, k: Kind)
    requires forall e <- sent :: e.name != k
    ensures AmountOf(Named(sent), k) == 0
  {
    forall a | a in Named(sent) ensures a.kind != k {
      var i :| 0 <= i < |sent| && Named(sent)[i] == a;
      assert sent[i] in sent;
    }
    AmountAbsent(Named(sent), k);
  }

  /// The battle

  /** What the units that lie in a village are worth in defense. */
  function Garrison(rows: seq<Row>, v: nat, infos: seq<UnitInfo>): int {
    if rows == [] then 0
    else
      var r, info := rows[0], InfoOf(infos, rows[0].kind);
      (if r.village == v && r.kind.Unit? && info.Some?
       then r.count * info.value.defense + r.count * info.value.pierceDefense else 0)
      + Garrison(rows[1..], v, infos)
  }

  lemma {:induction false} GarrisonIsSelected(rows: seq<Row>, v: nat, infos: seq<UnitInfo>)
    ensures DefenseStrength(Select(rows, v, Units), infos) == Garrison(rows, v, infos)
  {
    if rows != [] {
      GarrisonIsSelected(rows[1..], v, infos);
      var rest := Select(rows[1..], v, Units);
      if rows[0].village == v && rows[0].kind.Unit? {
        assert Select(rows, v, Units)[1..] == rest;
      } else {
        assert Select(rows, v, Units) == rest;
      }
    }
  }

  /** The next battle is that of attack `id`. */
  ghost predicate UpNext(w: World, id: nat) {
    Running(w) && w.normal.pending != [] && w.normal.pending[0].attackId == id
  }

  ghost predicate Fighting(infos: seq<UnitInfo>, w: World, id: nat) {
    UpNext(w, id) && NonNegative(w.rows) && KindsDistinct(infos)
  }

  lemma NextMarch(w: World, id: nat)
    requires UpNext(w, id)
    ensures id < |w.attacks| && w.normal.pending[0] == MarchOf(w.attacks[id], id)
    ensures Army(Named(w.attacks[id].sent))
    ensures NonNegative(w.rows) ==> Army(Select(w.rows, w.attacks[id].defenderVillage, Units))
  {
    assert Holds(w.normal, w.normal.pending[0]);
    assert w.attacks[id] in w.attacks && AttackOk(w.rows, w.attacks[id]);
    if NonNegative(w.rows) {
      SelectIsArmy(w.rows, w.attacks[id].defenderVillage, Units);
    }
  }

  /** The attackers win if and only if the damage of all they sent exceeds the defense of all units that lie in the
      village when they arrive; of each type sent the rounded three-halves power dies then, and otherwise all. */
  lemma BattleDecided(infos: seq<UnitInfo>, w: World, id: nat)
    requires Fighting(infos, w, id)
    ensures id < |w.attacks| == |Resolved(w, infos).attacks|
    ensures var a, b := w.attacks[id], Resolved(w, infos).attacks[id];
      var attack, defense := AttackStrength(Named(a.sent), infos), Garrison(w.rows, a.defenderVillage, infos);
      && !b.underAttack && (b.troopHome <==> attack <= defense) && b.report.Some?
      && (b.report.value.attackerWon <==> attack > defense)
      && |b.report.value.attackerDead| == |a.sent|
      && forall i | 0 <= i < |a.sent| ::
           var dead, n := b.report.value.attackerDead[i], a.sent[i].count;
           && dead.kind == a.sent[i].name
           && if attack > defense then RoundedLoss(dead.count, n, attack, defense) else dead.count == n
  {
    NextMarch(w, id);
    var a := w.attacks[id];
    GarrisonIsSelected(w.rows, a.defenderVillage, infos);
    BattleOutcome(Named(a.sent), Select(w.rows, a.defenderVillage, Units), infos);
  }

  /** The units in the defending village die likewise: all, unless they are worth strictly more. */
  lemma GarrisonLosses(infos: seq<UnitInfo>, w: World, id: nat, k: Kind) returns (lost: int)
    requires Fighting(infos, w, id) && k.Unit?
    ensures id < |w.attacks|
    ensures var a := w.attacks[id];
      var attack, defense := AttackStrength(Named(a.sent), infos), Garrison(w.rows, a.defenderVillage, infos);
      var there := Tally(w.rows, At(a.defenderVillage), k);
      && Tally(Resolved(w, infos).rows, At(a.defenderVillage), k) == there - lost
      && if attack < defense && Has(w.rows, a.defenderVillage, k) then RoundedLoss(lost, there, defense, attack)
         else lost == there
  {
    NextMarch(w, id);
    var a := w.attacks[id];
    if Has(w.rows, a.defenderVillage, k) {
      var i := DeadOf(infos, w, id, k);
      GarrisonReport(infos, w, id, i);
      lost := BattleOf(w, MarchOf(a, id), infos).defenderDead[i].count;
    } else {
      StockAfter(infos, w, id, a.defenderVillage, k);
      MatchingKeyed(w.rows, a.defenderVillage, k);
      lost := 0;
    }
  }

  lemma GarrisonReport(infos: seq<UnitInfo>, w: World, id: nat, i: nat)
    requires Fighting(infos, w, id) && id < |w.attacks| && i < |Select(w.rows, w.attacks[id].defenderVillage, Units)|
    ensures var a := w.attacks[id];
      var attack, defense := AttackStrength(Named(a.sent), infos), Garrison(w.rows, a.defenderVillage, infos);
      var defenders, dead := Select(w.rows, a.defenderVillage, Units), BattleOf(w, MarchOf(a, id), infos).defenderDead;
      && i < |dead|
      && if attack < defense then RoundedLoss(dead[i].count, defenders[i].count, defense, attack)
         else dead[i].count == defenders[i].count
  {
    NextMarch(w, id);
    var a := w.attacks[id];
    GarrisonIsSelected(w.rows, a.defenderVillage, infos);
    BattleOutcome(Named(a.sent), Select(w.rows, a.defenderVillage, Units), infos);
  }

  /** Where the dead of type `k` stand in the report. */
  lemma DeadOf(infos: seq<UnitInfo>, w: World, id: nat, k: Kind) returns (i: nat)
    requires UpNext(w, id) && k.Unit? && id < |w.attacks| && Has(w.rows, w.attacks[id].defenderVillage, k)
    ensures var v := w.attacks[id].defenderVillage;
      var defenders, dead := Select(w.rows, v, Units), BattleOf(w, MarchOf(w.attacks[id], id), infos).defenderDead;
      && i < |defenders| == |dead| && defenders[i] == Amount(k, Tally(w.rows, At(v), k))
      && Tally(Resolved(w, infos).rows, At(v), k) == Tally(w.rows, At(v), k) - dead[i].count
  {
    NextMarch(w, id);
    var v := w.attacks[id].defenderVillage;
    StockAfter(infos, w, id, v, k);
    i := SelectedAt(w.rows, v, k);
    DeadAt(BattleOf(w, MarchOf(w.attacks[id], id), infos).defenderDead, Select(w.rows, v, Units), i);
  }

  lemma SelectedAt(rows: seq<Row>, v: nat, k: Kind) returns (i: nat)
    requires Keyed(rows) && Has(rows, v, k) && k.Unit?
    ensures i < |Select(rows, v, Units)| && Select(rows, v, Units)[i] == Amount(k, Tally(rows, At(v), k))
    ensures OneEach(Select(rows, v, Units))
  {
    var r :| r in rows && IsAt(r, v, k);
    MatchingKeyed(rows, v, k);
    SelectKeyed(rows, v, Units);
    var all := Select(rows, v, Units);
    if forall a <- all :: a.kind != k {
      UnitListed(rows, v, r);
    }
    i :| 0 <= i < |all| && all[i].kind == k;
    AmountAt(all, i);
  }

  lemma {:induction false} UnitListed(rows: seq<Row>, v: nat, r: Row)
    requires r in rows && r.village == v && r.kind.Unit?
    ensures exists a <- Select(rows, v, Units) :: a.kind == r.kind
  {
    var all, rest := Select(rows, v, Units), Select(rows[1..], v, Units);
    if rows[0] == r {
      assert all[0].kind == r.kind;
    } else {
      UnitListed(rows[1..], v, r);
      var a :| a in rest && a.kind == r.kind;
      assert a in all;
    }
  }

  lemma DeadAt(dead: seq<Amount>, army: seq<Amount>, i: nat)
    requires |dead| == |army| && OneEach(army) && i < |army|
    requires forall j :: 0 <= j < |army| ==> dead[j].kind == army[j].kind
    ensures AmountOf(dead, army[i].kind) == dead[i].count
  {
    AmountAt(dead, i);
  }

  /** The share of what `units` can carry, at 60 each, that goes to one resource. */
  function Share(units: int, k: Kind): int {
    if k.Mkc? then 60 * units / 4 / 100 else 60 * units / 4
  }

  lemma {:induction false} CapacityIsSixty(units: seq<Amount>)
    ensures Capacity(units) == 60 * Sum(units)
  {
    if units != [] {
      CapacityIsSixty(units[1..]);
    }
  }

  /** What a battle takes from the stock: dead units, and loot if the attackers won. */
  lemma StockAfter(infos: seq<UnitInfo>, w: World, id: nat, v: nat, k: Kind)
    requires UpNext(w, id)
    ensures id < |w.attacks|
    ensures var t, a := w.normal.pending[0], w.attacks[id];
      var report, loot := BattleOf(w, t, infos), LootOf(w, t, infos);
      Tally(Resolved(w, infos).rows, At(v), k) == Tally(w.rows, At(v), k)
        - (if Has(w.rows, v, k) && v == a.defenderVillage && k.Unit? then AmountOf(report.defenderDead, k) else 0)
        - (if Has(w.rows, v, k) && v == a.defenderVillage && !k.Unit? && report.attackerWon then AmountOf(loot, k)
           else 0)
  {
    NextMarch(w, id);
    var t, d := w.normal.pending[0], w.attacks[id].defenderVillage;
    DeadTaken(w, t, infos, v, k);
    LootMoved(w, t, infos, v, k);
  }

  lemma DeadTaken(w: World, t: March, infos: seq<UnitInfo>, v: nat, k: Kind)
    requires Keyed(w.rows)
    ensures Keyed(AfterBattle(w, t, infos)) && (Has(AfterBattle(w, t, infos), v, k) <==> Has(w.rows, v, k))
    ensures Tally(AfterBattle(w, t, infos), At(v), k) == Tally(w.rows, At(v), k)
      - if Has(w.rows, v, k) && v == t.defenderVillage && k.Unit? then AmountOf(BattleOf(w, t, infos).defenderDead, k)
        else 0
  {
    var dead := BattleOf(w, t, infos).defenderDead;
    UpdateKeepsKeys(w.rows, t.defenderVillage, dead, false);
    UpdateTally(w.rows, t.defenderVillage, dead, false, At(v), k);
    DeadAreUnits(w.rows, t.defenderVillage, dead);
    if !k.Unit? {
      AmountAbsent(dead, k);
    }
  }

  lemma LootMoved(w: World, t: March, infos: seq<UnitInfo>, v: nat, k: Kind)
    requires Keyed(AfterBattle(w, t, infos))
    ensures var rows, loot := AfterBattle(w, t, infos), LootOf(w, t, infos);
      Tally(UpdateFrom(rows, t.defenderVillage, loot, false), At(v), k) == Tally(rows, At(v), k)
        - if Has(rows, v, k) && v == t.defenderVillage && !k.Unit? then AmountOf(loot, k) else 0
  {
    var rows, loot := AfterBattle(w, t, infos), LootOf(w, t, infos);
    UpdateTally(rows, t.defenderVillage, loot, false, At(v), k);
    SelectMembers(rows, t.defenderVillage, Lootable(Capacity(Named(t.units))));
    if k.Unit? {
      AmountAbsent(loot, k);
    }
  }

  lemma DeadAreUnits(rows: seq<Row>, v: nat, dead: seq<Amount>)
    requires |dead| == |Select(rows, v, Units)|
    requires forall i :: 0 <= i < |dead| ==> dead[i].kind == Select(rows, v, Units)[i].kind
    ensures forall a <- dead :: a.kind.Unit?
  {
    SelectMembers(rows, v, Units);
    forall a | a in dead ensures a.kind.Unit? {
      var i :| 0 <= i < |dead| && dead[i] == a;
      assert Select(rows, v, Units)[i] in Select(rows, v, Units);
    }
  }

  /** A garrison that was driven below zero is back at zero after the battle, whoever wins: its losses are cut to its
      count. */
  lemma OverdrawnGarrison(infos: seq<UnitInfo>, w: World, id: nat, k: Kind)
    requires UpNext(w, id) && k.Unit?
    ensures id < |w.attacks|
    ensures var v := w.attacks[id].defenderVillage;
      Tally(w.rows, At(v), k) < 0 ==> Tally(Resolved(w, infos).rows, At(v), k) == 0
  {
    NextMarch(w, id);
    MatchingKeyed(w.rows, w.attacks[id].defenderVillage, k);
    if Tally(w.rows, At(w.attacks[id].defenderVillage), k) < 0 {
      var i := DeadOf(infos, w, id, k);
      var a := w.attacks[id];
      NegativeCountsDie(Named(a.sent), Select(w.rows, a.defenderVillage, Units), infos);
    }
  }

  /** If the attackers win, every resource row of the defender gives the share of the units sent, or all it has, and
      the attack records it; otherwise nothing is taken. No other village changes. */
  lemma Plundered(infos: seq<UnitInfo>, w: World, id: nat, v: nat, k: Kind)
    requires Fighting(infos, w, id)
    ensures id < |w.attacks| == |Resolved(w, infos).attacks|
    ensures var a, b := w.attacks[id], Resolved(w, infos).attacks[id];
      var won := AttackStrength(Named(a.sent), infos) > Garrison(w.rows, a.defenderVillage, infos);
      var there, left := Tally(w.rows, At(v), k), Tally(Resolved(w, infos).rows, At(v), k);
      && (b.stolen.Some? <==> won)
      && (v != a.defenderVillage ==> left == there)
      && (v == a.defenderVillage && !k.Unit? ==>
            && left == there - (if won && Has(w.rows, v, k) then Min(Share(Sum(Named(a.sent)), k), there) else 0)
            && (won ==> AmountOf(b.stolen.value, k) == there - left))
  {
    NextMarch(w, id);
    BattleDecided(infos, w, id);
    StockAfter(infos, w, id, v, k);
    var t, a := w.normal.pending[0], w.attacks[id];
    assert AttackOk(w.rows, a);
    if v == a.defenderVillage && !k.Unit? {
      LootTaken(infos, w, id, k);
    }
  }

  lemma LootTaken(infos: seq<UnitInfo>, w: World, id: nat, k: Kind)
    requires UpNext(w, id) && !k.Unit?
    ensures id < |w.attacks|
    ensures var a := w.attacks[id];
      AmountOf(LootOf(w, w.normal.pending[0], infos), k) ==
        if Has(w.rows, a.defenderVillage, k)
        then Min(Share(Sum(Named(a.sent)), k), Tally(w.rows, At(a.defenderVillage), k)) else 0
  {
    NextMarch(w, id);
    var t, d := w.normal.pending[0], w.attacks[id].defenderVillage;
    var dead, rows := BattleOf(w, t, infos).defenderDead, AfterBattle(w, t, infos);
    var sel := Lootable(Capacity(Named(t.units)));
    DeadAreUnits(w.rows, d, dead);
    AmountAbsent(dead, k);
    UpdateKeepsKeys(w.rows, d, dead, false);
    UpdateTally(w.rows, d, dead, false, At(d), k);
    CapacityIsSixty(Named(t.units));
    MatchingKeyed(rows, d, k);
    SelectKeyed(rows, d, sel);
    SelectMembers(rows, d, sel);
    if r :| r in rows && IsAt(r, d, k) {
      assert AmountOf(LootOf(w, t, infos), k) == Take(sel, r);
    } else {
      AmountAbsent(LootOf(w, t, infos), k);
    }
  }
}
