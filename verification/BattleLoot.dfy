// How much an attack can loot, who can carry it, and two raids in which something is lost or made up.

module BattleLoot {
  import opened Options
  import opened Stock
  import opened DelayedQueue
  import opened AttackReport
  import opened Battles
  import opened BattleAccounts

  /** In every run, the loot an attack records never exceeds what the units sent can carry; in an honest run in
      which no other service drives a count below zero, none of it is negative. */
  lemma LootWithinCapacity(infos: seq<UnitInfo>, w: World, es: seq<Event>, id: nat)
    requires AtPeace(w) && Legal(infos, w, es) && id < |Run(infos, w, es).attacks|
    ensures var a := Run(infos, w, es).attacks[id];
      a.stolen.Some? ==>
        && Sum(a.stolen.value) <= Capacity(Named(a.sent))
        && (AllHonest(es) && AllGentle(infos, w, es) ==> forall x <- a.stolen.value :: x.count >= 0)
  {
    AtPeaceHolds(w);
    RunRuns(infos, w, es);
    var w' := Run(infos, w, es);
    assert w'.attacks[id] in w'.attacks && AttackOk(w'.rows, w'.attacks[id]);
    if AllHonest(es) && AllGentle(infos, w, es) {
      RunKeeps(infos, w, es);
    }
  }

  /** A stock from which the full limit of every resource is taken. */
  lemma FullLoot(v: nat, c: nat) returns (stock: seq<Row>)
    ensures Keyed(stock) && NonNegative(stock)
    ensures Sum(Select(stock, v, Lootable(c))) == 3 * (c / 4) + c / 4 / 100
  {
    var n, m := c / 4, c / 4 / 100;
    var rows3 := [Row(v, Mkc, m)];
    var rows2 := [Row(v, Wood, n)] + rows3;
    var rows1 := [Row(v, Iron, n)] + rows2;
    stock := [Row(v, Food, n)] + rows1;
    assert stock[1..] == rows1 && rows1[1..] == rows2 && rows2[1..] == rows3 && rows3[1..] == [];
    var loot3 := [Amount(Mkc, m)];
    var loot2 := [Amount(Wood, n)] + loot3;
    var loot1 := [Amount(Iron, n)] + loot2;
    assert Select(rows3, v, Lootable(c)) == loot3;
    assert Select(rows2, v, Lootable(c)) == loot2;
    assert Select(rows1, v, Lootable(c)) == loot1;
    assert Select(stock, v, Lootable(c)) == [Amount(Food, n)] + loot1;
    assert ([Amount(Food, n)] + loot1)[1..] == loot1 && loot1[1..] == loot2 && loot2[1..] == loot3 && loot3[1..] == [];
    assert Sum(loot3) == m;
    assert Sum(loot2) == n + m;
    assert Sum(loot1) == n + n + m;
  }

  /** The survivors can carry the loot of every possible stock if and only if what all the units sent may take
      in the best case fits what the survivors can carry. */
  lemma LootFitsSurvivors(units: seq<Entry>, casualties: seq<Amount>, v: nat)
    requires Army(Named(units))
    ensures var c, s := Capacity(Named(units)), Capacity(Left(units, casualties));
      (forall stock :: Keyed(stock) && NonNegative(stock) ==> Sum(Select(stock, v, Lootable(c))) <= s)
      <==> 3 * (c / 4) + c / 4 / 100 <= s
  {
    var c, s := Capacity(Named(units)), Capacity(Left(units, casualties));
    CapacityNonNegative(Named(units));
    forall stock | Keyed(stock) ensures Sum(Select(stock, v, Lootable(c))) <= 3 * (c / 4) + c / 4 / 100 {
      LootBound(stock, v, c);
    }
    var full := FullLoot(v, c);
  }

  /** An entry of a request in which all names agree. */
  function Plain(k: Kind, n: int): Entry {
    Entry(k, k, k, n)
  }

  /** So it can fail: a single unit that dies winning still loots 15 food. */
  lemma TheDeadCarryLoot() returns (w: World, t: March, infos: seq<UnitInfo>)
    ensures Keyed(w.rows) && NonNegative(w.rows) && WellNamed(t.units) && Army(Named(t.units))
    ensures BattleOf(w, t, infos).attackerWon
    ensures Capacity(Left(t.units, Tagged(t.units, BattleOf(w, t, infos).attackerDead))) == 0
    ensures Sum(LootOf(w, t, infos)) == 15
  {
    infos := [UnitInfo(Unit(0), 10, 9, 0)];
    w := World([Row(2, Unit(0), 1), Row(2, Food, 100)], map[], [], Queue(map[], []), Queue(map[], []), 0);
    t := March(0, 0, 1, 2, [Plain(Unit(0), 1)]);
    Skirmish(w, t, infos);
    NoneLeft();
    assert [Amount(Food, 15)][1..] == [];
  }

  lemma Skirmish(w: World, t: March, infos: seq<UnitInfo>)
    requires infos == [UnitInfo(Unit(0), 10, 9, 0)] && w.rows == [Row(2, Unit(0), 1), Row(2, Food, 100)]
    requires t.units == [Plain(Unit(0), 1)] && t.defenderVillage == 2
    ensures var one := [Amount(Unit(0), 1)];
      BattleOf(w, t, infos) == Report(true, one, one) && LootOf(w, t, infos) == [Amount(Food, 15)]
  {
    var one := [Amount(Unit(0), 1)];
    assert Named(t.units) == one && one[1..] == [];
    TwoRows(1);
    TwoRows(0);
    SkirmishReport(infos);
    UpdateTwo(Row(2, Unit(0), 1), Row(2, Food, 100), 2, Unit(0), 1, false);
  }

  lemma NoneLeft()
    ensures var units, one := [Plain(Unit(0), 1)], [Amount(Unit(0), 1)];
      Named(units) == one && Capacity(Left(units, Tagged(units, one))) == 0
  {
    var units, one := [Plain(Unit(0), 1)], [Amount(Unit(0), 1)];
    assert Tagged(units, one) == one && one[..0] == [];
    assert Left(units, one) == [Amount(Unit(0), 0)];
    assert [Amount(Unit(0), 0)][1..] == [];
  }

  lemma TwoRows(n: nat)
    ensures var rows := [Row(2, Unit(0), n), Row(2, Food, 100)];
      Select(rows, 2, Units) == [Amount(Unit(0), n)] && Select(rows, 2, Lootable(60)) == [Amount(Food, 15)]
  {
    var rows, food := [Row(2, Unit(0), n), Row(2, Food, 100)], [Row(2, Food, 100)];
    assert rows[1..] == food && food[1..] == [];
    assert Select(food, 2, Units) == [] && Select(food, 2, Lootable(60)) == [Amount(Food, 15)];
  }

  lemma SkirmishReport(infos: seq<UnitInfo>)
    requires infos == [UnitInfo(Unit(0), 10, 9, 0)]
    ensures var one := [Amount(Unit(0), 1)]; Battle(one, one, infos) == Report(true, one, one)
  {
    var one := [Amount(Unit(0), 1)];
    assert infos[1..] == [];
    assert Points(one, true, infos) == 10 && Points(one, false, infos) == 9;
    WinnersMayAllDie();
    assert Casualties(one, ThreeHalves(9, 10)) == one == Casualties(one, Everything);
  }

  /// Raids on an undefended village

  lemma RunCons(infos: seq<UnitInfo>, w: World, e: Event, es: seq<Event>)
    requires Enabled(w, e) && Legal(infos, Next(infos, w, e), es)
    ensures Legal(infos, w, [e] + es) && Run(infos, w, [e] + es) == Run(infos, Next(infos, w, e), es)
  {
    assert ([e] + es)[1..] == es;
  }

  /** A single delayed entry that is due moves. */
  lemma MoveOne<T>(q: Queue<T>, t: T, now: int)
    requires q == Queue(map[t := now], [])
    ensures Ranking(q.delayed, MOVE_LIMIT, [t]) && MoveDue(q, [t], now) == Queue(map[], [t])
  {
    assert q.delayed.Keys == {t};
    assert [t][..1] == [t];
    assert q.delayed - Elements([t]) == map[];
  }

  lemma {:induction false} SelectNone(rows: seq<Row>, v: nat, sel: Selector)
    requires forall r <- rows :: r.village == v ==> !Chosen(sel, r.kind)
    ensures Select(rows, v, sel) == []
  {
    if rows != [] {
      assert rows[0] in rows;
      SelectNone(rows[1..], v, sel);
    }
  }

  lemma {:induction false} SumOfZeros(values: seq<Amount>, k: Kind)
    requires forall a <- values :: a.count == 0
    ensures SumOf(values, k) == 0
  {
    if values != [] {
      assert values[|values| - 1] in values;
      SumOfZeros(values[..|values| - 1], k);
    }
  }

  /** Against no defenders nobody dies, and the units left are those claimed. */
  lemma NobodyDies(units: seq<Entry>, infos: seq<UnitInfo>)
    requires Army(Named(units)) && Points(Named(units), true, infos) > 0
    ensures var report := Battle(Named(units), [], infos);
      && report.attackerWon && report.defenderDead == []
      && |report.attackerDead| == |units|
      && Left(units, Tagged(units, report.attackerDead)) == Claimed(units)
  {
    var report := Battle(Named(units), [], infos);
    var w := Points(Named(units), true, infos);
    NoPoints(infos);
    forall i | 0 <= i < |units| ensures report.attackerDead[i].count == 0 {
      assert Named(units)[i] in Named(units);
      NoLossesAgainstNobody(units[i].count, w);
    }
    var tagged := Tagged(units, report.attackerDead);
    forall k ensures SumOf(tagged, k) == 0 {
      SumOfZeros(tagged, k);
    }
  }

  lemma {:induction false} NoPoints(infos: seq<UnitInfo>)
    ensures Points([], false, infos) == 0
  {
    if infos != [] {
      NoPoints(infos[1..]);
    }
  }

  lemma NothingTaken(rows: seq<Row>, v: nat, add: bool)
    ensures UpdateFrom(rows, v, [], add) == rows
  {
  }

  predicate Undefended(rows: seq<Row>, v: nat) {
    forall r <- rows :: r.village == v ==> !r.kind.Unit?
  }

  /** What a raid needs: units of one type that may be launched and that the battle counts. */
  predicate MayRaid(infos: seq<UnitInfo>, w: World, av: nat, dv: nat, units: seq<Entry>) {
    && AtPeace(w) && |units| == 1 && Positive(units) == units
    && MayLaunch(w, av, dv, units, false)
    && Undefended(w.rows, dv)
    && Points(Named(units), true, infos) > 0
  }

  lemma FirstTicket<T>(t: T, score: int)
    ensures Zadd(Queue(map[], []), t, score) == Queue(map[t := score], [])
  {
  }

  lemma StaysUndefended(rows: seq<Row>, v: nat, values: seq<Amount>, add: bool, dv: nat)
    requires Undefended(rows, dv)
    ensures Undefended(UpdateFrom(rows, v, values, add), dv)
  {
    var rows' := UpdateFrom(rows, v, values, add);
    forall r | r in rows' && r.village == dv ensures !r.kind.Unit? {
      var i :| 0 <= i < |rows'| && rows'[i] == r;
      assert rows[i] in rows;
    }
  }

  lemma ArmySent(wanted: seq<Entry>)
    requires KeysDistinct(wanted)
    ensures Army(Named(Positive(wanted)))
  {
    var sent := Positive(wanted);
    PositiveMembers(wanted);
    forall a | a in Named(sent) ensures a.count >= 0 {
      var i :| 0 <= i < |sent| && Named(sent)[i] == a;
      assert sent[i] in sent;
    }
  }

  lemma RaidLaunch(infos: seq<UnitInfo>, w: World, av: nat, dv: nat, units: seq<Entry>)
    requires MayRaid(infos, w, av, dv, units)
    ensures var w' := Launched(w, av, dv, units, 0, false);
      && w'.rows == UpdateFrom(w.rows, av, Named(units), false) && Undefended(w'.rows, dv) && w'.now == w.now
      && w'.attacks == [Attack(av, dv, units, 0, w.now, true, false, false, None, None)]
      && w'.normal == Queue(map[March(0, 0, av, dv, units) := w.now], []) && w'.returning == Queue(map[], [])
  {
    StaysUndefended(w.rows, av, Named(units), false, dv);
    FirstTicket(March(0, 0, av, dv, units), w.now);
  }

  /** A battle without defenders, and the loot. */
  lemma RaidBattle(infos: seq<UnitInfo>, w: World, t: March)
    requires Army(Named(t.units)) && Points(Named(t.units), true, infos) > 0 && Undefended(w.rows, t.defenderVillage)
    ensures var report := BattleOf(w, t, infos);
      && report.attackerWon && AfterBattle(w, t, infos) == w.rows && report.defenderDead == []
      && (forall d <- report.attackerDead :: exists e <- t.units :: e.name == d.kind)
      && |report.attackerDead| == |t.units| && Left(t.units, Tagged(t.units, report.attackerDead)) == Claimed(t.units)
      && LootOf(w, t, infos) == Select(w.rows, t.defenderVillage, Lootable(Capacity(Named(t.units))))
  {
    SelectNone(w.rows, t.defenderVillage, Units);
    NobodyDies(t.units, infos);
    var dead := BattleOf(w, t, infos).attackerDead;
    forall d | d in dead ensures exists e <- t.units :: e.name == d.kind {
      var i :| 0 <= i < |dead| && dead[i] == d;
      assert t.units[i] in t.units;
    }
    NothingTaken(w.rows, t.defenderVillage, false);
  }

  lemma RaidFight(infos: seq<UnitInfo>, w: World, t: March)
    requires w.normal.pending == [t] && w.returning == Queue(map[], []) && t.attackId == 0 && t.travel == 0
    requires |w.attacks| == 1 && w.attacks[0].underAttack && MarchOf(w.attacks[0], 0) == t
    requires BattleOf(w, t, infos).attackerWon && AfterBattle(w, t, infos) == w.rows
    ensures var w' := Resolved(w, infos);
      var a := Fought(w.attacks[0], BattleOf(w, t, infos), LootOf(w, t, infos));
      && w'.rows == UpdateFrom(w.rows, t.defenderVillage, LootOf(w, t, infos), false) && w'.now == w.now
      && w'.attacks == [a] && Travelling(a)
      && w'.returning == Queue(map[HomecomingOf(a, 0) := w.now], [])
  {
    var a := Fought(w.attacks[0], BattleOf(w, t, infos), LootOf(w, t, infos));
    FirstTicket(HomecomingOf(a, 0), w.now);
  }

  lemma OnlyOne(units: seq<Entry>, values: seq<Amount>)
    requires |units| == |values| == 1
    ensures Applies(units, [0]) && Applied(values, [0]) == values
  {
    assert units[[0][0]] == units[0];
    assert IdApplied(units, [0], units[0].id);
  }

  function HomeRows(rows: seq<Row>, a: Attack): seq<Row>
    requires a.stolen.Some?
  {
    UpdateFrom(UpdateFrom(rows, a.attackerVillage, a.stolen.value, true), a.attackerVillage, Claimed(a.sent), true)
  }

  /** The next ticket is that of attack `a`, the only one, with a single entry. */
  predicate OneReturns(w: World, a: Attack) {
    && w.attacks == [a] && Travelling(a) && w.returning == Queue(map[], [HomecomingOf(a, 0)])
    && |a.report.value.attackerDead| == |a.sent| == 1
    && Left(a.sent, HomecomingOf(a, 0).casualties) == Claimed(a.sent)
  }

  lemma RaidTicket(w: World, a: Attack)
    requires OneReturns(w, a)
    ensures MayApply(w, [0])
    ensures Recognized(w.returning.pending[0]) <==> Labelled(a.sent)
    ensures Applied(Left(a.sent, HomecomingOf(a, 0).casualties), [0]) == Claimed(a.sent)
  {
    RecognizedExactly(a, 0);
    OnlyOne(a.sent, Claimed(a.sent));
  }

  lemma RaidReturn(w: World, a: Attack)
    requires OneReturns(w, a) && MayApply(w, [0])
    requires Recognized(w.returning.pending[0]) <==> Labelled(a.sent)
    requires Applied(Left(a.sent, HomecomingOf(a, 0).casualties), [0]) == Claimed(a.sent)
    ensures Returned(w, [0]).returning == Queue(map[], [])
    ensures !Labelled(a.sent) ==> Returned(w, [0]).rows == w.rows && Returned(w, [0]).attacks == [a]
    ensures Labelled(a.sent) ==> Returned(w, [0]).rows == HomeRows(w.rows, a) && Returned(w, [0]).attacks == [Home(a)]
  {
  }

  lemma ReturnAlone(infos: seq<UnitInfo>, w: World)
    requires MayApply(w, [0])
    ensures Legal(infos, w, [Return([0])]) && Run(infos, w, [Return([0])]) == Returned(w, [0])
  {
    RunCons(infos, w, Return([0]), []);
  }

  lemma RaidHome(infos: seq<UnitInfo>, w: World, a: Attack) returns (es: seq<Event>)
    requires w.attacks == [a] && Travelling(a) && w.returning == Queue(map[HomecomingOf(a, 0) := w.now], [])
    requires OneReturns(w.(returning := Queue(map[], [HomecomingOf(a, 0)])), a)
    ensures Legal(infos, w, es) && forall e <- es :: !e.Launch?
    ensures var w' := Run(infos, w, es);
      && w'.returning == Queue(map[], [])
      && (!Labelled(a.sent) ==> w'.rows == w.rows && w'.attacks == [a])
      && (Labelled(a.sent) ==> w'.rows == HomeRows(w.rows, a) && w'.attacks == [Home(a)])
  {
    var home := HomecomingOf(a, 0);
    var w1 := w.(returning := Queue(map[], [home]));
    RaidTicket(w1, a);
    RaidReturn(w1, a);
    MoveThenReturn(infos, w, home);
    es := [MoveReturning([home])] + [Return([0])];
  }

  lemma MoveThenReturn(infos: seq<UnitInfo>, w: World, home: Homecoming)
    requires w.returning == Queue(map[home := w.now], []) && MayApply(w.(returning := Queue(map[], [home])), [0])
    ensures var w1, es := w.(returning := Queue(map[], [home])), [MoveReturning([home])] + [Return([0])];
      Legal(infos, w, es) && Run(infos, w, es) == Returned(w1, [0])
  {
    MoveOne(w.returning, home, w.now);
    ReturnAlone(infos, w.(returning := Queue(map[], [home])));
    RunCons(infos, w, MoveReturning([home]), [Return([0])]);
  }

  /** What a raid leaves, told from the rows after the launch: the army is home or lost, and no ticket is left. */
  predicate Raided(rows: seq<Row>, w: World, av: nat, dv: nat, units: seq<Entry>) {
    var loot := Select(rows, dv, Lootable(Capacity(Named(units))));
    var looted := UpdateFrom(rows, dv, loot, false);
    && w.rows == (if Labelled(units)
                  then UpdateFrom(UpdateFrom(looted, av, loot, true), av, Claimed(units), true) else looted)
    && |w.attacks| == 1 && w.attacks[0].attackerVillage == av && w.attacks[0].stolen == Some(loot)
    && !w.attacks[0].underAttack && w.attacks[0].sent == units
    && w.attacks[0].report.Some? && w.attacks[0].report.value.defenderDead == []
    && (forall d <- w.attacks[0].report.value.attackerDead :: exists e <- units :: e.name == d.kind)
    && (w.attacks[0].attackerWon <==> Labelled(units)) && (w.attacks[0].troopHome <==> Labelled(units))
    && w.returning == Queue(map[], [])
  }

  lemma RaidStrike(infos: seq<UnitInfo>, w: World, t: March) returns (es: seq<Event>)
    requires w.normal == Queue(map[], [t]) && w.returning == Queue(map[], []) && t.attackId == 0 && t.travel == 0
    requires |w.attacks| == 1 && w.attacks[0].underAttack && MarchOf(w.attacks[0], 0) == t
    requires Army(Named(t.units)) && Points(Named(t.units), true, infos) > 0 && Undefended(w.rows, t.defenderVillage)
    requires !w.attacks[0].attackerWon && |t.units| == 1
    ensures Legal(infos, w, es) && forall e <- es :: !e.Launch?
    ensures Raided(w.rows, Run(infos, w, es), t.attackerVillage, t.defenderVillage, t.units)
  {
    RaidBattle(infos, w, t);
    RaidFight(infos, w, t);
    var a := Fought(w.attacks[0], BattleOf(w, t, infos), LootOf(w, t, infos));
    assert a.sent == t.units && a.attackerVillage == t.attackerVillage;
    var rest := RaidHome(infos, Resolved(w, infos), a);
    RunCons(infos, w, Resolve, rest);
    es := [Resolve] + rest;
  }

  lemma RaidMarch(infos: seq<UnitInfo>, w: World, t: March) returns (es: seq<Event>)
    requires w.normal == Queue(map[t := w.now], []) && w.returning == Queue(map[], [])
    requires t.attackId == 0 && t.travel == 0
    requires |w.attacks| == 1 && w.attacks[0].underAttack && MarchOf(w.attacks[0], 0) == t
    requires Army(Named(t.units)) && Points(Named(t.units), true, infos) > 0 && Undefended(w.rows, t.defenderVillage)
    requires !w.attacks[0].attackerWon && |t.units| == 1
    ensures Legal(infos, w, es) && forall e <- es :: !e.Launch?
    ensures Raided(w.rows, Run(infos, w, es), t.attackerVillage, t.defenderVillage, t.units)
  {
    MoveOne(w.normal, t, w.now);
    var rest := RaidStrike(infos, w.(normal := Queue(map[], [t])), t);
    RunCons(infos, w, MoveNormal([t]), rest);
    es := [MoveNormal([t])] + rest;
  }

  /** From peace, a raid over no distance on a village without units is a legal run, and this is its outcome. */
  lemma Raid(infos: seq<UnitInfo>, w: World, av: nat, dv: nat, units: seq<Entry>) returns (es: seq<Event>)
    requires MayRaid(infos, w, av, dv, units)
    ensures Legal(infos, w, es) && (WellNamed(units) ==> AllHonest(es))
    ensures Raided(UpdateFrom(w.rows, av, Named(units), false), Run(infos, w, es), av, dv, units)
  {
    var launch := Launch(av, dv, units, 0, false);
    RaidLaunch(infos, w, av, dv, units);
    ArmySent(units);
    var rest := RaidMarch(infos, Launched(w, av, dv, units, 0, false), March(0, 0, av, dv, units));
    RunCons(infos, w, launch, rest);
    es := [launch] + rest;
  }

  /** The same when another service changes the defender's stock after the launch. */
  lemma AdjustedRaid(infos: seq<UnitInfo>, w: World, av: nat, dv: nat, units: seq<Entry>, k: Kind, change: int)
    returns (es: seq<Event>)
    requires MayRaid(infos, w, av, dv, units)
    requires Undefended(Adjusted(UpdateFrom(w.rows, av, Named(units), false), dv, k, change), dv)
    ensures Legal(infos, w, es) && (WellNamed(units) ==> AllHonest(es))
    ensures var rows := Adjusted(UpdateFrom(w.rows, av, Named(units), false), dv, k, change);
      Raided(rows, Run(infos, w, es), av, dv, units)
  {
    var launch, adjust := Launch(av, dv, units, 0, false), Adjust(dv, k, change);
    RaidLaunch(infos, w, av, dv, units);
    ArmySent(units);
    var w1 := Launched(w, av, dv, units, 0, false);
    var rest := RaidMarch(infos, w1.(rows := Adjusted(w1.rows, dv, k, change)), March(0, 0, av, dv, units));
    RunCons(infos, w1, adjust, rest);
    RunCons(infos, w, launch, [adjust] + rest);
    es := [launch] + ([adjust] + rest);
  }

  lemma OneEntry(e: Entry, infos: seq<UnitInfo>)
    requires infos == [UnitInfo(Unit(0), 10, 0, 0)] && e.count > 0
    ensures Positive([e]) == [e] && Named([e]) == [Amount(e.name, e.count)] && Claimed([e]) == [Amount(e.id, e.count)]
    ensures Capacity(Named([e])) == 60 * e.count
    ensures e.name == Unit(0) ==> Points(Named([e]), true, infos) == 10 * e.count
  {
    assert [e][1..] == [] && infos[1..] == [];
    assert Named([e])[1..] == [];
  }

  /** A table of two rows after the count of one type in one village changes. */
  lemma UpdateTwo(r: Row, s: Row, v: nat, k: Kind, n: int, add: bool)
    ensures UpdateFrom([r, s], v, [Amount(k, n)], add) ==
      [if IsAt(r, v, k) then r.(count := r.count + Signed(add, n)) else r,
       if IsAt(s, v, k) then s.(count := s.count + Signed(add, n)) else s]
  {
    SingleAmount(k, n, r.kind);
    SingleAmount(k, n, s.kind);
  }

  /** Loot does vanish: 34 units sent by a village without an mkc row bring home 5 mkc that nobody gets. */
  lemma LootCanVanish() returns (infos: seq<UnitInfo>, w: World, es: seq<Event>)
    ensures AtPeace(w) && Legal(infos, w, es) && AllHonest(es)
    ensures Worth(Run(infos, w, es), Mkc) == Worth(w, Mkc) - 5
  {
    infos := [UnitInfo(Unit(0), 10, 0, 0)];
    var apes, mkc, sent := Row(1, Unit(0), 34), Row(2, Mkc, 5), Plain(Unit(0), 34);
    w := World([apes, mkc], map[1 := 1, 2 := 2], [], Queue(map[], []), Queue(map[], []), 0);
    assert w.rows[0] in w.rows && IsAt(apes, 1, Unit(0));
    OneEntry(sent, infos);
    es := Raid(infos, w, 1, 2, [sent]);
    UpdateTwo(apes, mkc, 1, Unit(0), 34, false);
    VanishingLoot();
    var home, empty := Row(1, Unit(0), 0), Row(2, Mkc, 0);
    UpdateTwo(home, mkc, 2, Mkc, 5, false);
    UpdateTwo(home, empty, 1, Mkc, 5, true);
    UpdateTwo(home, empty, 1, Unit(0), 34, true);
    assert sent in [sent] && Labelled([sent]);
    NoMkcOutside(Run(infos, w, es).attacks, [sent]);
    TwoTally(apes, empty);
    TwoTally(apes, mkc);
  }

  lemma VanishingLoot()
    ensures Select([Row(1, Unit(0), 0), Row(2, Mkc, 5)], 2, Lootable(2040)) == [Amount(Mkc, 5)]
  {
    var rows, mkc := [Row(1, Unit(0), 0), Row(2, Mkc, 5)], [Row(2, Mkc, 5)];
    assert rows[1..] == mkc && mkc[1..] == [];
    assert Select(mkc, 2, Lootable(2040)) == [Amount(Mkc, 5)];
  }

  /** A stock that another service drives below zero after the launch is looted as it is: -2 food. */
  lemma NegativeStockIsLooted() returns (infos: seq<UnitInfo>, w: World, es: seq<Event>)
    ensures AtPeace(w) && Legal(infos, w, es) && AllHonest(es)
    ensures var w' := Run(infos, w, es); |w'.attacks| == 1 && w'.attacks[0].stolen == Some([Amount(Food, -2)])
  {
    infos := [UnitInfo(Unit(0), 10, 0, 0)];
    var ape, food, sent := Row(1, Unit(0), 1), Row(2, Food, 0), Plain(Unit(0), 1);
    w := World([ape, food], map[1 := 1, 2 := 2], [], Queue(map[], []), Queue(map[], []), 0);
    assert w.rows[0] in w.rows && IsAt(ape, 1, Unit(0));
    OneEntry(sent, infos);
    UpdateTwo(ape, food, 1, Unit(0), 1, false);
    var away, owing := Row(1, Unit(0), 0), Row(2, Food, -2);
    UpdateTwo(away, food, 2, Food, -2, true);
    assert IsAt([away, food][1], 2, Food) && Adjusted([away, food], 2, Food, -2) == [away, owing];
    es := AdjustedRaid(infos, w, 1, 2, [sent], Food, -2);
    NegativeLoot();
  }

  lemma NegativeLoot()
    ensures Select([Row(1, Unit(0), 0), Row(2, Food, -2)], 2, Lootable(60)) == [Amount(Food, -2)]
  {
    var rows, food := [Row(1, Unit(0), 0), Row(2, Food, -2)], [Row(2, Food, -2)];
    assert rows[1..] == food && food[1..] == [];
    assert Select(food, 2, Lootable(60)) == [Amount(Food, -2)];
  }

  lemma NoMkcOutside(attacks: seq<Attack>, units: seq<Entry>)
    requires |attacks| == 1 && attacks[0].troopHome && !attacks[0].underAttack && attacks[0].report.Some?
    requires attacks[0].report.value.defenderDead == [] && forall e <- units :: e.name.Unit?
    requires forall d <- attacks[0].report.value.attackerDead :: exists e <- units :: e.name == d.kind
    ensures Outside(attacks, Mkc) == 0
  {
    AmountAbsent(attacks[0].report.value.attackerDead, Mkc);
    assert attacks[..0] == [];
  }

  lemma TwoTally(r: Row, s: Row)
    ensures Tally([r, s], Everywhere, Mkc)
      == (if r.kind.Mkc? then r.count else 0) + (if s.kind.Mkc? then s.count else 0)
  {
    assert [r, s] == [] + [r] + [s];
    AppendTally([], r, Everywhere, Mkc);
    AppendTally([] + [r], s, Everywhere, Mkc);
  }

  /** A request under the key of a unit that states the id of food: the food is checked, the units are deducted
      below zero, and food comes home. */
  lemma ForgedRaid() returns (infos: seq<UnitInfo>, w: World, es: seq<Event>)
    ensures AtPeace(w) && Legal(infos, w, es)
    ensures w.rows == [Row(1, Unit(0), 0), Row(1, Food, 1000)]
    ensures Run(infos, w, es).rows == [Row(1, Unit(0), -1000), Row(1, Food, 2000)]
  {
    infos := [UnitInfo(Unit(0), 10, 0, 0)];
    var apes, food, forged := Row(1, Unit(0), 0), Row(1, Food, 1000), Entry(Unit(0), Food, Unit(0), 1000);
    w := World([apes, food], map[1 := 1, 2 := 2], [], Queue(map[], []), Queue(map[], []), 0);
    assert w.rows[1] in w.rows && IsAt(food, 1, Food);
    OneEntry(forged, infos);
    es := Raid(infos, w, 1, 2, [forged]);
    UpdateTwo(apes, food, 1, Unit(0), 1000, false);
    var launched := [apes.(count := -1000), food];
    SelectNone(launched, 2, Lootable(60000));
    NothingTaken(launched, 2, false);
    NothingTaken(launched, 1, true);
    UpdateTwo(apes.(count := -1000), food, 1, Food, 1000, true);
  }

  /** Five units that state a name which is no key win, and are never seen again. */
  lemma StrandedRaid() returns (infos: seq<UnitInfo>, w: World, es: seq<Event>)
    ensures AtPeace(w) && Legal(infos, w, es)
    ensures w.rows == [Row(1, Unit(0), 5), Row(2, Food, 0)]
    ensures var w' := Run(infos, w, es);
      && w'.rows == [Row(1, Unit(0), 0), Row(2, Food, 0)]
      && |w'.attacks| == 1 && !w'.attacks[0].underAttack && !w'.attacks[0].troopHome
      && w'.returning == Queue(map[], [])
  {
    infos := [UnitInfo(Unit(0), 10, 0, 0)];
    var apes, food, sent := Row(1, Unit(0), 5), Row(2, Food, 0), Entry(Unit(0), Unit(0), Unit(1), 5);
    w := World([apes, food], map[1 := 1, 2 := 2], [], Queue(map[], []), Queue(map[], []), 0);
    assert w.rows[0] in w.rows && IsAt(apes, 1, Unit(0));
    OneEntry(sent, infos);
    es := Raid(infos, w, 1, 2, [sent]);
    UpdateTwo(apes, food, 1, Unit(0), 5, false);
    assert sent in [sent] && !Labelled([sent]);
    var launched := [Row(1, Unit(0), 0), food];
    assert launched[1..] == [food] && [food][1..] == [];
    assert Select([food], 2, Lootable(300)) == [Amount(Food, 0)];
    UpdateTwo(Row(1, Unit(0), 0), food, 2, Food, 0, false);
  }
}
