// The attack service and the battles manager as they run, proved to take exactly the steps of Battles.

module BattleServices {
  import opened Options
  import opened Stock
  import opened DelayedQueue
  import opened AttackReport
  import opened Battles

  class BattleBackend {
    const infos: seq<UnitInfo>
    const ownerOf: map<nat, nat>
    var rows: seq<Row>
    var attacks: seq<Attack>
    var normal: Queue<March>
    var returning: Queue<Homecoming>
    var now: int

    ghost function State(): World
      reads this
    {
      World(rows, ownerOf, attacks, normal, returning, now)
    }

    constructor (infos: seq<UnitInfo>, ownerOf: map<nat, nat>, rows: seq<Row>, now: int)
      requires Keyed(rows) && NonNegative(rows)
      ensures AtPeace(State()) && this.infos == infos && this.ownerOf == ownerOf
    {
      this.infos, this.ownerOf, this.rows, this.now := infos, ownerOf, rows, now;
      attacks, normal, returning := [], Queue(map[], []), Queue(map[], []);
    }

    /** Drops the units requested at zero or less. */
    static method FilterUnits(wanted: seq<Entry>) returns (sent: seq<Entry>)
      ensures sent == Positive(wanted)
    {
      sent := [];
      for i := 0 to |wanted|
        invariant sent + Positive(wanted[i..]) == Positive(wanted)
      {
        assert wanted[i..][1..] == wanted[i + 1..];
        if wanted[i].count > 0 {
          sent := sent + [wanted[i]];
        }
      }
    }

    /** Checks each entry against the village's row of its id, stopping at the first that falls short or
        stands under a key that is no unit. */
    method HasUnits(village: nat, sent: seq<Entry>) returns (enough: bool)
      ensures enough <==> forall e <- sent :: e.name.Unit? && Available(rows, village, e)
    {
      for i := 0 to |sent|
        invariant forall k :: 0 <= k < i ==> sent[k].name.Unit? && Available(rows, village, sent[k])
      {
        if !sent[i].name.Unit? || !Available(rows, village, sent[i]) {
          return false;
        }
      }
      return true;
    }

    method Create(av: nat, dv: nat, wanted: seq<Entry>, travel: nat, truce: bool) returns (launched: bool)
      modifies this
      ensures State() == Launched(old(State()), av, dv, wanted, travel, truce)
      ensures launched <==> |attacks| == |old(attacks)| + 1
    {
      if av !in ownerOf || dv !in ownerOf || ownerOf[av] == ownerOf[dv] || truce {
        return false;
      }
      var sent := FilterUnits(wanted);
      if sent == [] {
        return false;
      }
      launched := HasUnits(av, sent);
      if launched {
        var id := |attacks|;
        attacks := attacks + [Attack(av, dv, sent, travel, now + travel, true, false, false, None, None)];
        normal := Zadd(normal, March(id, travel, av, dv, sent), now + travel);
        rows := UpdateFrom(rows, av, Named(sent), false);
      }
    }

    static method LoadCapacity(units: seq<Amount>) returns (totalLoadCapacity: int)
      ensures totalLoadCapacity == Capacity(units)
    {
      totalLoadCapacity := 0;
      for i := 0 to |units|
        invariant totalLoadCapacity + Capacity(units[i..]) == Capacity(units)
      {
        assert units[i..][1..] == units[i + 1..];
        totalLoadCapacity := totalLoadCapacity + units[i].count * GENERIC_LOAD_CAPACITY;
      }
    }

    /** Goes through the defender's resource rows and takes from each what it has and what the limit allows. */
    method CollectLoot(defender: nat, capacity: int) returns (stolen: seq<Amount>)
      ensures stolen == Select(rows, defender, Lootable(capacity))
    {
      stolen := [];
      for i := 0 to |rows|
        invariant stolen + Select(rows[i..], defender, Lootable(capacity)) == Select(rows, defender, Lootable(capacity))
      {
        var r := rows[i];
        assert rows[i..][0] == r && rows[i..][1..] == rows[i + 1..];
        ghost var before, rest := stolen, Select(rows[i + 1..], defender, Lootable(capacity));
        if r.village == defender && !r.kind.Unit? {
          stolen := stolen + [Amount(r.kind, Min(LootLimit(capacity, r.kind), r.count))];
          assert stolen + rest == before + ([Amount(r.kind, Min(LootLimit(capacity, r.kind), r.count))] + rest);
        }
      }
    }

    /** Takes the loot out of the defender's rows and records it. */
    method UpdateDefenderStolenResources(attackId: nat, defender: nat, units: seq<Amount>) returns (stolen: seq<Amount>)
      modifies this`rows, this`attacks
      ensures stolen == Select(old(rows), defender, Lootable(Capacity(units)))
      ensures rows == UpdateFrom(old(rows), defender, stolen, false)
      ensures attacks == if attackId < |old(attacks)|
        then old(attacks)[attackId := old(attacks)[attackId].(stolen := Some(stolen))] else old(attacks)
    {
      var totalLoadCapacity := LoadCapacity(units);
      stolen := CollectLoot(defender, totalLoadCapacity);
      rows := UpdateFrom(rows, defender, stolen, false);
      if attackId < |attacks| {
        attacks := attacks[attackId := attacks[attackId].(stolen := Some(stolen))];
      }
    }

    method UpdateDb(t: March, report: Report)
      modifies this`rows, this`attacks, this`returning
      ensures var fought := UpdateFrom(old(rows), t.defenderVillage, report.defenderDead, false);
        var loot := Select(fought, t.defenderVillage, Lootable(Capacity(Named(t.units))));
        && rows == (if report.attackerWon then UpdateFrom(fought, t.defenderVillage, loot, false) else fought)
        && attacks == (if t.attackId < |old(attacks)|
             then old(attacks)[t.attackId := Fought(old(attacks)[t.attackId], report, loot)] else old(attacks))
        && returning == (if report.attackerWon
             then Zadd(old(returning), Homecoming(t.attackId, t.attackerVillage, t.defenderVillage, t.units,
                                                  Tagged(t.units, report.attackerDead), loot), now + t.travel)
             else old(returning))
    {
      rows := UpdateFrom(rows, t.defenderVillage, report.defenderDead, false);
      if t.attackId < |attacks| {
        attacks := attacks[t.attackId := attacks[t.attackId].(report := Some(report), underAttack := false,
                                                              troopHome := !report.attackerWon)];
      }
      if report.attackerWon {
        var stolen := UpdateDefenderStolenResources(t.attackId, t.defenderVillage, Named(t.units));
        var home := Homecoming(t.attackId, t.attackerVillage, t.defenderVillage, t.units,
                               Tagged(t.units, report.attackerDead), stolen);
        returning := Zadd(returning, home, now + t.travel);
      }
    }

    /** The village gains the loot of every type it has a row for; the other villages gain nothing. */
    method GiveResourcesToAttacker(stolen: seq<Amount>, village: nat)
      modifies this`rows
      ensures rows == UpdateFrom(old(rows), village, stolen, true)
      ensures Keyed(old(rows)) ==> forall at, k ::
        Tally(rows, at, k) == Tally(old(rows), at, k)
          + (if Has(old(rows), village, k) && (at.Everywhere? || at.village == village) then AmountOf(stolen, k) else 0)
    {
      ghost var before := rows;
      rows := UpdateFrom(rows, village, stolen, true);
      forall at, k | Keyed(before) {
        UpdateTally(before, village, stolen, true, at, k);
      }
    }

    /** The village gains the units left over; the attack is closed as won and keeps its report and loot. */
    method UpdateAttackerValuesAfterReturn(left: seq<Amount>, village: nat, attackId: nat)
      modifies this`rows, this`attacks
      ensures rows == UpdateFrom(old(rows), village, left, true)
      ensures Keyed(old(rows)) ==> forall at, k ::
        Tally(rows, at, k) == Tally(old(rows), at, k)
          + (if Has(old(rows), village, k) && (at.Everywhere? || at.village == village) then AmountOf(left, k) else 0)
      ensures attacks == if attackId < |old(attacks)|
        then old(attacks)[attackId := Home(old(attacks)[attackId])] else old(attacks)
    {
      ghost var before := rows;
      rows := UpdateFrom(rows, village, left, true);
      forall at, k | Keyed(before) {
        UpdateTally(before, village, left, true, at, k);
      }
      if attackId < |attacks| {
        attacks := attacks[attackId := attacks[attackId].(troopHome := true, attackerWon := true)];
      }
    }

    /** Fights the next battle that is due. */
    method Fight()
      modifies this
      ensures State() == Resolved(old(State()), infos)
    {
      if normal.pending != [] {
        var t := normal.pending[0];
        normal := Lpop(normal);
        var defenders := Select(rows, t.defenderVillage, Units);
        UpdateDb(t, Battle(Named(t.units), defenders, infos));
      }
    }

    /** Takes each casualty off the entry whose key it names and gives the survivors by id; None where the source
        throws. */
    static method RemoveCasualties(t: Homecoming) returns (left: Option<seq<Amount>>)
      ensures left == if Recognized(t) then Some(Left(t.units, t.casualties)) else None
    {
      var units := t.units;
      for i := 0 to |t.casualties|
        invariant |units| == |t.units|
        invariant forall k :: 0 <= k < |units| ==>
          units[k] == t.units[k].(count := t.units[k].count - SumOf(t.casualties[..i], t.units[k].name))
        invariant forall k :: 0 <= k < i ==> exists e <- t.units :: e.name == t.casualties[k].kind
      {
        var c := t.casualties[i];
        if !exists e <- t.units :: e.name == c.kind {
          return None;
        }
        assert t.casualties[..i + 1][..i] == t.casualties[..i];
        units := seq(|units|, k requires 0 <= k < |units| =>
          if units[k].name == c.kind then units[k].(count := units[k].count - c.count) else units[k]);
      }
      assert t.casualties[..|t.casualties|] == t.casualties;
      assert Claimed(units) == Left(t.units, t.casualties);
      return Some(Claimed(units));
    }

    /** One round: fight at most one battle, then bring at most one army home. Of several entries under one id the
        database applies those at `applied`. */
    method Handle(applied: seq<nat>)
      requires MayApply(State(), applied)
      modifies this
      ensures MayApply(Resolved(old(State()), infos), applied)
      ensures State() == Returned(Resolved(old(State()), infos), applied)
    {
      Fight();
      if returning.pending == [] {
        return;
      }
      var t := returning.pending[0];
      returning := Lpop(returning);
      var left := RemoveCasualties(t);
      if left.None? {
        return;
      }
      GiveResourcesToAttacker(t.stolen, t.attackerVillage);
      UpdateAttackerValuesAfterReturn(Applied(left.value, applied), t.attackerVillage, t.attackId);
    }
  }
}
