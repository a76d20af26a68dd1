// The life of an attack: units leave a village, travel, fight and loot, and the survivors travel back with
// the loot. Tickets for both journeys wait in a delayed/pending pair of queues.

module Battles {
  import opened Options
  import opened Stock
  import opened DelayedQueue
  import opened AttackReport

  /** One entry of the units sent: the key it stands under, and the type id, type name and count it states.
      Nothing compares the three names. Availability and homecoming go by the id, the deduction and the battle
      by the key, and casualties by the stated name. */
  datatype Entry = Entry(name: Kind, id: Kind, stated: Kind, count: int)

  /** A row of the attacks table; its id is its position. */
  datatype Attack = Attack(attackerVillage: nat, defenderVillage: nat, sent: seq<Entry>, travel: nat, attackTime: int,
                           underAttack: bool, troopHome: bool, attackerWon: bool,
                           report: Option<Report>, stolen: Option<seq<Amount>>)

  datatype March = March(attackId: nat, travel: nat, attackerVillage: nat, defenderVillage: nat, units: seq<Entry>)

  /** `casualties` are listed under the stated names of the entries. */
  datatype Homecoming = Homecoming(attackId: nat, attackerVillage: nat, defenderVillage: nat,
                                   units: seq<Entry>, casualties: seq<Amount>, stolen: seq<Amount>)

  /** `ownerOf` gives the user of every village that has one. */
  datatype World = World(rows: seq<Row>, ownerOf: map<nat, nat>, attacks: seq<Attack>,
                         normal: Queue<March>, returning: Queue<Homecoming>, now: int)

  const GENERIC_LOAD_CAPACITY: nat := 60

  /** The units by key, and by id. */
  function Named(units: seq<Entry>): (values: seq<Amount>)
    ensures |values| == |units|
    ensures forall i :: 0 <= i < |units| ==> values[i] == Amount(units[i].name, units[i].count)
  {
    seq(|units|, i requires 0 <= i < |units| => Amount(units[i].name, units[i].count))
  }

  function Claimed(units: seq<Entry>): (values: seq<Amount>)
    ensures |values| == |units|
    ensures forall i :: 0 <= i < |units| ==> values[i] == Amount(units[i].id, units[i].count)
  {
    seq(|units|, i requires 0 <= i < |units| => Amount(units[i].id, units[i].count))
  }

  /** Key, id and stated name of every entry agree, as in the requests of the game's own clients. */
  predicate WellNamed(units: seq<Entry>) {
    forall e <- units :: e.id == e.name && e.stated == e.name
  }

  /** Every stated name is one of the keys. */
  predicate Labelled(units: seq<Entry>) {
    forall e <- units :: exists f <- units :: f.name == e.stated
  }

  /// Launching

  /** Units requested with a count of zero or less are dropped. */
  function Positive(wanted: seq<Entry>): seq<Entry> {
    if wanted == [] then []
    else (if wanted[0].count > 0 then [wanted[0]] else []) + Positive(wanted[1..])
  }

  predicate KeysDistinct(units: seq<Entry>) {
    forall i, j :: 0 <= i < j < |units| ==> units[i].name != units[j].name
  }

  lemma {:induction false} PositiveMembers(wanted: seq<Entry>)
    ensures forall e :: e in Positive(wanted) <==> e in wanted && e.count > 0
    ensures KeysDistinct(wanted) ==> KeysDistinct(Positive(wanted))
  {
    if wanted != [] {
      PositiveMembers(wanted[1..]);
      assert wanted == [wanted[0]] + wanted[1..];
      forall e | e in Positive(wanted[1..]) && KeysDistinct(wanted) ensures e.name != wanted[0].name {
        assert e in wanted[1..];
      }
    }
  }

  predicate Available(rows: seq<Row>, village: nat, e: Entry) {
    exists r <- rows :: IsAt(r, village, e.id) && r.count >= e.count
  }

  predicate MayLaunch(w: World, av: nat, dv: nat, sent: seq<Entry>, truce: bool) {
    && av in w.ownerOf && dv in w.ownerOf && w.ownerOf[av] != w.ownerOf[dv]
    && !truce
    && sent != []
    && forall e <- sent :: e.name.Unit? && Available(w.rows, av, e)
  }

  function Launched(w: World, av: nat, dv: nat, wanted: seq<Entry>, travel: nat, truce: bool): World {
    var sent := Positive(wanted);
    if !MayLaunch(w, av, dv, sent, truce) then w
    else
      w.(rows := UpdateFrom(w.rows, av, Named(sent), false),
         attacks := w.attacks + [Attack(av, dv, sent, travel, w.now + travel, true, false, false, None, None)],
         normal := Zadd(w.normal, March(|w.attacks|, travel, av, dv, sent), w.now + travel))
  }

  /// Fighting

  /** What a query on one village's rows selects: its units, or what can be looted with a capacity. */
  datatype Selector = Units | Lootable(capacity: int)

  predicate Chosen(sel: Selector, k: Kind) {
    if sel.Units? then k.Unit? else !k.Unit?
  }

  function LootLimit(capacity: int, k: Kind): int {
    if k.Mkc? then capacity / 4 / 100 else capacity / 4
  }

  function Take(sel: Selector, r: Row): int {
    match sel
    case Units => r.count
    case Lootable(capacity) => Min(LootLimit(capacity, r.kind), r.count)
  }

  function Select(rows: seq<Row>, v: nat, sel: Selector): seq<Amount> {
    if rows == [] then []
    else
      (if rows[0].village == v && Chosen(sel, rows[0].kind) then [Amount(rows[0].kind, Take(sel, rows[0]))] else [])
      + Select(rows[1..], v, sel)
  }

  /** What the units sent can carry; the dead among them count as well. */
  function Capacity(units: seq<Amount>): int {
    if units == [] then 0 else units[0].count * GENERIC_LOAD_CAPACITY + Capacity(units[1..])
  }

  function Fought(a: Attack, report: Report, loot: seq<Amount>): Attack {
    a.(report := Some(report), underAttack := false, troopHome := !report.attackerWon,
       stolen := if report.attackerWon then Some(loot) else a.stolen)
  }

  function BattleOf(w: World, t: March, infos: seq<UnitInfo>): Report {
    Battle(Named(t.units), Select(w.rows, t.defenderVillage, Units), infos)
  }

  /** The defender's rows without the dead. */
  function AfterBattle(w: World, t: March, infos: seq<UnitInfo>): seq<Row> {
    UpdateFrom(w.rows, t.defenderVillage, BattleOf(w, t, infos).defenderDead, false)
  }

  function LootOf(w: World, t: March, infos: seq<UnitInfo>): seq<Amount> {
    Select(AfterBattle(w, t, infos), t.defenderVillage, Lootable(Capacity(Named(t.units))))
  }

  /** The dead of each entry under the name it states. */
  function Tagged(units: seq<Entry>, dead: seq<Amount>): (values: seq<Amount>)
    ensures |values| == Min(|units|, |dead|)
    ensures forall i :: 0 <= i < |values| ==> values[i] == Amount(units[i].stated, dead[i].count)
  {
    seq(Min(|units|, |dead|), i requires 0 <= i < Min(|units|, |dead|) => Amount(units[i].stated, dead[i].count))
  }

  function Resolved(w: World, infos: seq<UnitInfo>): World {
    if w.normal.pending == [] then w
    else
      var t := w.normal.pending[0];
      var report := BattleOf(w, t, infos);
      var loot := LootOf(w, t, infos);
      var fought := w.(
        normal := Lpop(w.normal),
        rows := AfterBattle(w, t, infos),
        attacks := if t.attackId < |w.attacks|
                   then w.attacks[t.attackId := Fought(w.attacks[t.attackId], report, loot)] else w.attacks);
      if !report.attackerWon then fought
      else
        var home := Homecoming(t.attackId, t.attackerVillage, t.defenderVillage, t.units,
                               Tagged(t.units, report.attackerDead), loot);
        fought.(rows := UpdateFrom(fought.rows, t.defenderVillage, loot, false),
                returning := Zadd(w.returning, home, w.now + t.travel))
  }

  /// Coming home

  /** The survivors of each entry, under its id. */
  function Left(units: seq<Entry>, dead: seq<Amount>): (values: seq<Amount>)
    ensures |values| == |units|
    ensures forall i :: 0 <= i < |units| ==>
      values[i] == Amount(units[i].id, units[i].count - SumOf(dead, units[i].name))
  {
    seq(|units|, i requires 0 <= i < |units| => Amount(units[i].id, units[i].count - SumOf(dead, units[i].name)))
  }

  /** Casualties are taken off the entry whose key they name; the source throws when there is none. */
  predicate Recognized(t: Homecoming) {
    forall c <- t.casualties :: exists e <- t.units :: e.name == c.kind
  }

  function Home(a: Attack): Attack {
    a.(troopHome := true, attackerWon := true)
  }

  /** Of several entries under one id the database applies one; `applied` says which, for each id once. */
  predicate Applies(units: seq<Entry>, applied: seq<nat>) {
    && (forall j :: 0 <= j < |applied| ==> applied[j] < |units|)
    && (forall i, j :: 0 <= i < j < |applied| ==> units[applied[i]].id != units[applied[j]].id)
    && (forall e <- units :: IdApplied(units, applied, e.id))
  }

  predicate IdApplied(units: seq<Entry>, applied: seq<nat>, id: Kind)
    requires forall j :: 0 <= j < |applied| ==> applied[j] < |units|
  {
    exists j :: 0 <= j < |applied| && units[applied[j]].id == id
  }

  function Applied(values: seq<Amount>, applied: seq<nat>): (r: seq<Amount>)
    requires forall j :: 0 <= j < |applied| ==> applied[j] < |values|
    ensures |r| == |applied| && forall j :: 0 <= j < |r| ==> r[j] == values[applied[j]]
  {
    seq(|applied|, j requires 0 <= j < |applied| => values[applied[j]])
  }

  predicate MayApply(w: World, applied: seq<nat>) {
    w.returning.pending != [] ==> Applies(w.returning.pending[0].units, applied)
  }

  /** The ticket is gone even when the handler throws. */
  function Returned(w: World, applied: seq<nat>): World
    requires MayApply(w, applied)
  {
    if w.returning.pending == [] then w
    else
      var t := w.returning.pending[0];
      if !Recognized(t) then w.(returning := Lpop(w.returning))
      else
        var looted := UpdateFrom(w.rows, t.attackerVillage, t.stolen, true);
        w.(returning := Lpop(w.returning),
           rows := UpdateFrom(looted, t.attackerVillage, Applied(Left(t.units, t.casualties), applied), true),
           attacks := if t.attackId < |w.attacks|
                      then w.attacks[t.attackId := Home(w.attacks[t.attackId])] else w.attacks)
  }

  /// Runs

  /** What the other services do to the stock: orders, deliveries, production, exchanges, vaults and new villages
      change the count in a row, or add the row. */
  function Adjusted(rows: seq<Row>, v: nat, k: Kind, change: int): seq<Row> {
    if Has(rows, v, k) then UpdateFrom(rows, v, [Amount(k, change)], true) else rows + [Row(v, k, change)]
  }

  datatype Event =
    | Launch(av: nat, dv: nat, wanted: seq<Entry>, travel: nat, truce: bool)
    | MoveNormal(marches: seq<March>)
    | MoveReturning(homecomings: seq<Homecoming>)
    | Resolve
    | Return(applied: seq<nat>)
    | Adjust(village: nat, kind: Kind, change: int)
    | Found(settled: nat, user: nat)
    | Tick(elapsed: nat)

  const MOVE_LIMIT: nat := 21

  /** The keys of the requested units are distinct, as in any JSON object. */
  ghost predicate Enabled(w: World, e: Event) {
    && (e.Launch? ==> KeysDistinct(e.wanted))
    && (e.Return? ==> MayApply(w, e.applied))
    && (e.Found? ==> e.settled !in w.ownerOf)
    && (e.MoveNormal? ==> Ranking(w.normal.delayed, MOVE_LIMIT, e.marches))
    && (e.MoveReturning? ==> Ranking(w.returning.delayed, MOVE_LIMIT, e.homecomings))
  }

  ghost function Next(infos: seq<UnitInfo>, w: World, e: Event): World
    requires Enabled(w, e)
  {
    match e
    case Launch(av, dv, wanted, travel, truce) => Launched(w, av, dv, wanted, travel, truce)
    case MoveNormal(listing) => w.(normal := MoveDue(w.normal, listing, w.now))
    case MoveReturning(listing) => w.(returning := MoveDue(w.returning, listing, w.now))
    case Resolve => Resolved(w, infos)
    case Return(applied) => Returned(w, applied)
    case Adjust(v, k, n) => w.(rows := Adjusted(w.rows, v, k, n))
    case Found(v, user) => w.(ownerOf := w.ownerOf[v := user])
    case Tick(d) => w.(now := w.now + d)
  }

  ghost predicate Legal(infos: seq<UnitInfo>, w: World, es: seq<Event>)
    decreases |es|
  {
    es == [] || (Enabled(w, es[0]) && Legal(infos, Next(infos, w, es[0]), es[1..]))
  }

  ghost function Run(infos: seq<UnitInfo>, w: World, es: seq<Event>): World
    requires Legal(infos, w, es)
    decreases |es|
  {
    if es == [] then w else Run(infos, Next(infos, w, es[0]), es[1..])
  }

  predicate AtPeace(w: World) {
    && Keyed(w.rows) && NonNegative(w.rows)
    && w.attacks == [] && w.normal == Queue(map[], []) && w.returning == Queue(map[], [])
  }

  /** No launch misnames a unit it sends. */
  predicate Honest(e: Event) {
    e.Launch? ==> WellNamed(Positive(e.wanted))
  }

  predicate AllHonest(es: seq<Event>) {
    forall e <- es :: Honest(e)
  }

  /** A change by another service leaves its count non-negative. */
  predicate Gentle(w: World, e: Event) {
    e.Adjust? ==> Tally(w.rows, At(e.village), e.kind) + e.change >= 0
  }

  ghost predicate AllGentle(infos: seq<UnitInfo>, w: World, es: seq<Event>)
    requires Legal(infos, w, es)
    decreases |es|
  {
    es == [] || (Gentle(w, es[0]) && AllGentle(infos, Next(infos, w, es[0]), es[1..]))
  }

  /// The invariant of every run

  /** `part` lists the same types as `whole` and no more of any. */
  predicate PartOf(part: seq<Amount>, whole: seq<Amount>) {
    && |part| == |whole|
    && forall i :: 0 <= i < |whole| ==> part[i].kind == whole[i].kind && 0 <= part[i].count <= whole[i].count
  }

  function Sum(values: seq<Amount>): int {
    if values == [] then 0 else values[0].count + Sum(values[1..])
  }

  /** What every attack keeps, whatever its entries are called. */
  predicate AttackOk(rows: seq<Row>, a: Attack) {
    && Army(Named(a.sent))
    && (forall e <- a.sent :: Has(rows, a.attackerVillage, e.id))
    && (a.underAttack ==> !a.troopHome)
    && (a.report.Some? <==> !a.underAttack)
    && (a.report.Some? ==> PartOf(a.report.value.attackerDead, Named(a.sent)))
    && (a.report.Some? && !a.report.value.attackerWon ==>
          a.troopHome && a.report.value.attackerDead == Named(a.sent))
    && (a.attackerWon <==> a.troopHome && a.report.Some? && a.report.value.attackerWon)
    && (a.stolen.Some? <==> a.report.Some? && a.report.value.attackerWon)
    && (a.stolen.Some? ==> LootOk(a.stolen.value, Capacity(Named(a.sent))))
  }

  /** Loot lists each resource once and fits the capacity. */
  predicate LootOk(loot: seq<Amount>, capacity: int) {
    OneEach(loot) && (forall x <- loot :: !x.kind.Unit?) && Sum(loot) <= capacity
  }

  function MarchOf(a: Attack, id: nat): March {
    March(id, a.travel, a.attackerVillage, a.defenderVillage, a.sent)
  }

  predicate Travelling(a: Attack) {
    !a.underAttack && !a.troopHome && a.report.Some? && a.stolen.Some?
  }

  function HomecomingOf(a: Attack, id: nat): Homecoming
    requires Travelling(a)
  {
    Homecoming(id, a.attackerVillage, a.defenderVillage, a.sent, Tagged(a.sent, a.report.value.attackerDead),
               a.stolen.value)
  }

  ghost predicate AttacksOk(w: World) {
    forall a <- w.attacks :: AttackOk(w.rows, a) && a.attackerVillage in w.ownerOf
  }

  /** A march ticket is live exactly while its attack is under way, and no ticket exists twice. */
  ghost predicate MarchesOk(w: World) {
    && Single(w.normal)
    && (forall t | Holds(w.normal, t) ::
          && t.attackId < |w.attacks| && w.attacks[t.attackId].underAttack
          && t == MarchOf(w.attacks[t.attackId], t.attackId))
    && (forall id: nat | id < |w.attacks| && w.attacks[id].underAttack ::
          Holds(w.normal, MarchOf(w.attacks[id], id)))
  }

  /** A return ticket is live only while the survivors of a won attack travel home, and always if every name
      stated in the attack is one of its keys. */
  ghost predicate HomecomingsOk(w: World) {
    && Single(w.returning)
    && (forall t | Holds(w.returning, t) ::
          && t.attackId < |w.attacks| && Travelling(w.attacks[t.attackId])
          && t == HomecomingOf(w.attacks[t.attackId], t.attackId))
    && (forall id: nat | id < |w.attacks| && Travelling(w.attacks[id]) && Labelled(w.attacks[id].sent) ::
          Holds(w.returning, HomecomingOf(w.attacks[id], id)))
  }

  ghost predicate Running(w: World) {
    Keyed(w.rows) && AttacksOk(w) && MarchesOk(w) && HomecomingsOk(w)
  }

  /// The invariant of honest runs

  /** In every attack key, id and stated name agree. */
  ghost predicate Sincere(w: World) {
    Running(w) && forall a <- w.attacks :: WellNamed(a.sent)
  }

  /** They agree, and nothing negative is carried. */
  predicate SoundAttack(a: Attack) {
    WellNamed(a.sent) && (a.stolen.Some? ==> forall x <- a.stolen.value :: x.count >= 0)
  }

  ghost predicate Inv(w: World) {
    Running(w) && NonNegative(w.rows) && forall a <- w.attacks :: SoundAttack(a)
  }

  /// Amounts

  lemma {:induction false} PartAmount(part: seq<Amount>, whole: seq<Amount>, k: Kind)
    requires PartOf(part, whole)
    ensures 0 <= AmountOf(part, k) <= AmountOf(whole, k)
  {
    if whole != [] {
      PartAmount(part[1..], whole[1..], k);
    }
  }

  lemma NamesAgree(units: seq<Entry>)
    requires WellNamed(units)
    ensures Claimed(units) == Named(units)
  {
    forall i | 0 <= i < |units| ensures units[i].id == units[i].name {
      assert units[i] in units;
    }
  }

  /** With agreeing names casualties are listed under the keys, and each finds its entry. */
  lemma TaggedAgrees(units: seq<Entry>, dead: seq<Amount>)
    requires WellNamed(units) && PartOf(dead, Named(units))
    ensures Tagged(units, dead) == dead
    ensures forall c <- dead :: exists e <- units :: e.name == c.kind
  {
    forall i | 0 <= i < |units| ensures Tagged(units, dead)[i] == dead[i] {
      assert units[i] in units;
    }
    forall c | c in dead ensures exists e <- units :: e.name == c.kind {
      var i :| 0 <= i < |dead| && dead[i] == c;
      assert units[i] in units;
    }
  }

  lemma LeftCounts(units: seq<Entry>, dead: seq<Amount>, i: nat)
    requires WellNamed(units) && OneEach(Named(units)) && PartOf(dead, Named(units)) && i < |units|
    ensures Left(units, dead)[i] == Amount(units[i].name, units[i].count - AmountOf(dead, units[i].name))
    ensures Left(units, dead)[i].count >= 0
  {
    assert units[i] in units;
    forall j, k | 0 <= j < k < |dead| ensures dead[j].kind != dead[k].kind {
      assert Named(units)[j].kind != Named(units)[k].kind;
    }
    SumOfOneEach(dead, units[i].name);
    PartAmount(dead, Named(units), units[i].name);
    AmountAt(Named(units), i);
  }

  /** Then the survivors of each type are those sent less those dead, and there are no fewer than none. */
  lemma Survivors(units: seq<Entry>, dead: seq<Amount>, k: Kind)
    requires WellNamed(units) && OneEach(Named(units)) && PartOf(dead, Named(units))
    ensures var left := Left(units, Tagged(units, dead));
      && AmountOf(left, k) == AmountOf(Named(units), k) - AmountOf(dead, k)
      && forall a <- left :: a.count >= 0
  {
    TaggedAgrees(units, dead);
    var left := Left(units, dead);
    forall i | 0 <= i < |units|
      ensures left[i] == Amount(units[i].name, units[i].count - AmountOf(dead, units[i].name)) && left[i].count >= 0
    {
      LeftCounts(units, dead, i);
    }
    SurvivorsOf(units, left, dead, k);
    PartAmount(dead, Named(units), k);
  }

  lemma {:induction false} SurvivorsOf(units: seq<Entry>, left: seq<Amount>, dead: seq<Amount>, k: Kind)
    requires |left| == |units| && forall i :: 0 <= i < |units| ==>
      left[i] == Amount(units[i].name, units[i].count - AmountOf(dead, units[i].name))
    ensures AmountOf(left, k) == if exists e <- units :: e.name == k
      then AmountOf(Named(units), k) - AmountOf(dead, k) else 0
    ensures (forall e <- units :: e.name != k) ==> AmountOf(Named(units), k) == 0
  {
    if units != [] {
      assert Named(units)[1..] == Named(units[1..]);
      assert units == [units[0]] + units[1..];
      SurvivorsOf(units[1..], left[1..], dead, k);
    }
  }

  lemma {:induction false} SelectMembers(rows: seq<Row>, v: nat, sel: Selector)
    ensures forall a <- Select(rows, v, sel) ::
      Chosen(sel, a.kind) && exists r <- rows :: IsAt(r, v, a.kind) && a.count == Take(sel, r)
  {
    if rows != [] {
      SelectMembers(rows[1..], v, sel);
      assert forall r <- rows[1..] :: r in rows;
      assert rows[0] in rows;
    }
  }

  lemma {:induction false} SelectOneEach(rows: seq<Row>, v: nat, sel: Selector)
    requires Keyed(rows)
    ensures OneEach(Select(rows, v, sel))
  {
    if rows != [] {
      var rest := Select(rows[1..], v, sel);
      SelectOneEach(rows[1..], v, sel);
      SelectMembers(rows[1..], v, sel);
      if rows[0].village == v {
        forall a | a in rest ensures a.kind != rows[0].kind {
          var r :| r in rows[1..] && IsAt(r, v, a.kind) && a.count == Take(sel, r);
        }
      }
    }
  }

  lemma {:induction false} SelectValue(rows: seq<Row>, v: nat, sel: Selector, i: nat)
    requires Keyed(rows) && i < |rows| && rows[i].village == v && Chosen(sel, rows[i].kind)
    ensures AmountOf(Select(rows, v, sel), rows[i].kind) == Take(sel, rows[i])
  {
    var rest := Select(rows[1..], v, sel);
    if rows[0].village == v && Chosen(sel, rows[0].kind) {
      assert Select(rows, v, sel)[1..] == rest;
    } else {
      assert Select(rows, v, sel) == rest;
    }
    if i > 0 {
      assert !IsAt(rows[0], rows[i].village, rows[i].kind);
      SelectValue(rows[1..], v, sel, i - 1);
    }
  }

  /** With unique keys a selection lists each type once, with the value taken from its row. */
  lemma SelectKeyed(rows: seq<Row>, v: nat, sel: Selector)
    requires Keyed(rows)
    ensures OneEach(Select(rows, v, sel))
    ensures forall r <- rows :: r.village == v && Chosen(sel, r.kind) ==>
      AmountOf(Select(rows, v, sel), r.kind) == Take(sel, r)
  {
    SelectOneEach(rows, v, sel);
    forall r | r in rows && r.village == v && Chosen(sel, r.kind)
      ensures AmountOf(Select(rows, v, sel), r.kind) == Take(sel, r)
    {
      var i :| 0 <= i < |rows| && rows[i] == r;
      SelectValue(rows, v, sel, i);
    }
  }

  lemma {:induction false} AmountBound(values: seq<Amount>, k: Kind, bound: int)
    requires bound >= 0 && forall a <- values :: a.kind == k ==> a.count <= bound
    ensures AmountOf(values, k) <= bound
  {
    if values != [] {
      AmountBound(values[1..], k, bound);
    }
  }

  lemma {:induction false} CapacityNonNegative(units: seq<Amount>)
    requires forall a <- units :: a.count >= 0
    ensures Capacity(units) >= 0
  {
    if units != [] {
      CapacityNonNegative(units[1..]);
    }
  }

  lemma SelectIsArmy(rows: seq<Row>, v: nat, sel: Selector)
    requires Keyed(rows) && NonNegative(rows) && (sel.Lootable? ==> sel.capacity >= 0)
    ensures Army(Select(rows, v, sel))
  {
    SelectKeyed(rows, v, sel);
    SelectMembers(rows, v, sel);
    forall a | a in Select(rows, v, sel) ensures a.count >= 0 {
      var r :| r in rows && IsAt(r, v, a.kind) && a.count == Take(sel, r);
    }
  }

  /** Taking any part of what a query selected leaves a sound table. */
  lemma TakeSelected(rows: seq<Row>, v: nat, sel: Selector, part: seq<Amount>)
    requires Keyed(rows) && NonNegative(rows)
    requires PartOf(part, Select(rows, v, sel))
    ensures var rows' := UpdateFrom(rows, v, part, false);
      Keyed(rows') && NonNegative(rows') && forall x, k :: Has(rows', x, k) <==> Has(rows, x, k)
  {
    UpdateKeepsKeys(rows, v, part, false);
    SelectKeyed(rows, v, sel);
    SelectMembers(rows, v, sel);
    forall r | r in rows && r.village == v ensures AmountOf(part, r.kind) <= r.count {
      PartAmount(part, Select(rows, v, sel), r.kind);
      if !Chosen(sel, r.kind) {
        AmountAbsent(Select(rows, v, sel), r.kind);
      }
    }
    TakeKeepsNonNegative(rows, v, part);
  }

  lemma PartOfItself(values: seq<Amount>)
    requires forall a <- values :: a.count >= 0
    ensures PartOf(values, values)
  {
  }


  /// What a fight does

  /** Losers die to the last unit, and nobody loses more than was sent. */
  lemma AttackersDead(w: World, t: March, infos: seq<UnitInfo>)
    requires Army(Named(t.units))
    ensures var report := BattleOf(w, t, infos);
      && PartOf(report.attackerDead, Named(t.units))
      && (!report.attackerWon ==> report.attackerDead == Named(t.units))
  {
    var sent := Named(t.units);
    forall i | 0 <= i < |sent| ensures sent[i].count >= 0 {
      assert sent[i] in sent;
    }
    assert Casualties(sent, Everything) == sent;
  }

  lemma {:induction false} SumByType(values: seq<Amount>)
    requires OneEach(values) && forall a <- values :: !a.kind.Unit?
    ensures Sum(values) ==
      AmountOf(values, Food) + AmountOf(values, Iron) + AmountOf(values, Wood) + AmountOf(values, Mkc)
  {
    if values != [] {
      SumByType(values[1..]);
      AmountAbsent(values[1..], values[0].kind);
    }
  }

  /** What can be looted with a capacity, whatever the stock. */
  lemma LootBound(rows: seq<Row>, v: nat, c: int)
    requires Keyed(rows) && c >= 0
    ensures LootOk(Select(rows, v, Lootable(c)), c)
    ensures Sum(Select(rows, v, Lootable(c))) <= 3 * (c / 4) + c / 4 / 100
  {
    var loot := Select(rows, v, Lootable(c));
    SelectOneEach(rows, v, Lootable(c));
    SelectMembers(rows, v, Lootable(c));
    SumByType(loot);
    AmountBound(loot, Food, LootLimit(c, Food));
    AmountBound(loot, Iron, LootLimit(c, Iron));
    AmountBound(loot, Wood, LootLimit(c, Wood));
    AmountBound(loot, Mkc, LootLimit(c, Mkc));
  }

  /** In a non-negative table a fight leaves sound tables and sound loot. */
  lemma FightFacts(w: World, t: March, infos: seq<UnitInfo>)
    requires Keyed(w.rows) && NonNegative(w.rows) && Army(Named(t.units))
    ensures var report, loot, rows := BattleOf(w, t, infos), LootOf(w, t, infos), AfterBattle(w, t, infos);
      && PartOf(report.defenderDead, Select(w.rows, t.defenderVillage, Units))
      && Army(loot)
      && Keyed(rows) && NonNegative(rows)
      && NonNegative(UpdateFrom(rows, t.defenderVillage, loot, false))
  {
    var defenders := Select(w.rows, t.defenderVillage, Units);
    SelectIsArmy(w.rows, t.defenderVillage, Units);
    ByPoints(Named(t.units), defenders, infos);
    TakeSelected(w.rows, t.defenderVillage, Units, BattleOf(w, t, infos).defenderDead);
    var rows := AfterBattle(w, t, infos);
    var sel := Lootable(Capacity(Named(t.units)));
    CapacityNonNegative(Named(t.units));
    SelectIsArmy(rows, t.defenderVillage, sel);
    PartOfItself(LootOf(w, t, infos));
    TakeSelected(rows, t.defenderVillage, sel, LootOf(w, t, infos));
  }

  /// Every run keeps attacks and tickets

  lemma AttacksFollowRows(w: World, rows: seq<Row>)
    requires AttacksOk(w) && forall v, k :: Has(w.rows, v, k) ==> Has(rows, v, k)
    ensures AttacksOk(w.(rows := rows))
  {
  }

  /** Attacks stay sound when one of them is replaced. */
  lemma ReplaceAttack(w: World, rows: seq<Row>, id: nat, b: Attack)
    requires AttacksOk(w) && id < |w.attacks| && (forall v, k :: Has(w.rows, v, k) ==> Has(rows, v, k))
    requires AttackOk(rows, b) && b.attackerVillage in w.ownerOf
    ensures AttacksOk(w.(rows := rows, attacks := w.attacks[id := b]))
  {
    AttacksFollowRows(w, rows);
    forall x | x in w.attacks[id := b] ensures AttackOk(rows, x) && x.attackerVillage in w.ownerOf {
      if x != b {
        assert x in w.attacks;
      }
    }
  }

  lemma AdjustKeepsRows(rows: seq<Row>, v: nat, k: Kind, n: int)
    ensures var rows' := Adjusted(rows, v, k, n);
      && (Keyed(rows) ==> Keyed(rows'))
      && (forall x, y :: Has(rows', x, y) <==> Has(rows, x, y) || (x == v && y == k))
  {
    if Has(rows, v, k) {
      UpdateKeepsKeys(rows, v, [Amount(k, n)], true);
    } else {
      var r := Row(v, k, n);
      assert forall x :: x in rows + [r] <==> x in rows || x == r;
      assert IsAt(r, v, k);
      if Keyed(rows) { AppendKeeps(rows, r); }
    }
  }

  lemma AdjustTally(rows: seq<Row>, v: nat, k: Kind, n: int, at: Place, y: Kind)
    requires Keyed(rows)
    ensures Tally(Adjusted(rows, v, k, n), at, y) == Tally(rows, at, y)
      + if y == k && (at.Everywhere? || at.village == v) then n else 0
  {
    if Has(rows, v, k) {
      UpdateTally(rows, v, [Amount(k, n)], true, at, y);
      SingleAmount(k, n, y);
    } else {
      AppendTally(rows, Row(v, k, n), at, y);
    }
  }

  /** No event drops a stock row or an owner. */
  lemma StepKeepsRows(infos: seq<UnitInfo>, w: World, e: Event)
    requires Enabled(w, e)
    ensures forall v <- w.ownerOf :: v in Next(infos, w, e).ownerOf
    ensures Keyed(w.rows) ==> Keyed(Next(infos, w, e).rows)
    ensures forall v, k :: Has(w.rows, v, k) ==> Has(Next(infos, w, e).rows, v, k)
  {
    match e
    case Launch(av, _, wanted, _, _) => UpdateKeepsKeys(w.rows, av, Named(Positive(wanted)), false);
    case MoveNormal(_) =>
    case MoveReturning(_) =>
    case Tick(_) =>
    case Found(_, _) =>
    case Adjust(v, k, n) => AdjustKeepsRows(w.rows, v, k, n);
    case Resolve => ResolveKeepsRows(infos, w);
    case Return(applied) => ReturnKeepsRows(w, applied);
  }

  lemma ResolveKeepsRows(infos: seq<UnitInfo>, w: World)
    ensures Keyed(w.rows) ==> Keyed(Resolved(w, infos).rows)
    ensures forall v, k :: Has(Resolved(w, infos).rows, v, k) <==> Has(w.rows, v, k)
  {
    if w.normal.pending != [] {
      var t := w.normal.pending[0];
      UpdateKeepsKeys(w.rows, t.defenderVillage, BattleOf(w, t, infos).defenderDead, false);
      UpdateKeepsKeys(AfterBattle(w, t, infos), t.defenderVillage, LootOf(w, t, infos), false);
    }
  }

  lemma ReturnKeepsRows(w: World, applied: seq<nat>)
    requires MayApply(w, applied)
    ensures Keyed(w.rows) ==> Keyed(Returned(w, applied).rows)
    ensures forall v, k :: Has(Returned(w, applied).rows, v, k) <==> Has(w.rows, v, k)
  {
    if w.returning.pending != [] {
      var t := w.returning.pending[0];
      UpdateKeepsKeys(w.rows, t.attackerVillage, t.stolen, true);
      var looted := UpdateFrom(w.rows, t.attackerVillage, t.stolen, true);
      if Recognized(t) {
        UpdateKeepsKeys(looted, t.attackerVillage, Applied(Left(t.units, t.casualties), applied), true);
      }
    }
  }

  lemma LaunchMarches(w: World, av: nat, dv: nat, wanted: seq<Entry>, travel: nat, truce: bool)
    requires MarchesOk(w)
    ensures MarchesOk(Launched(w, av, dv, wanted, travel, truce))
  {
  }

  lemma LaunchHomecomings(w: World, av: nat, dv: nat, wanted: seq<Entry>, travel: nat, truce: bool)
    requires HomecomingsOk(w)
    ensures HomecomingsOk(Launched(w, av, dv, wanted, travel, truce))
  {
  }

  lemma LaunchAttacks(w: World, av: nat, dv: nat, wanted: seq<Entry>, travel: nat, truce: bool)
    requires AttacksOk(w) && KeysDistinct(wanted)
    ensures AttacksOk(Launched(w, av, dv, wanted, travel, truce))
  {
    var w' := Launched(w, av, dv, wanted, travel, truce);
    if w' != w {
      var sent := Positive(wanted);
      PositiveMembers(wanted);
      UpdateKeepsKeys(w.rows, av, Named(sent), false);
      AttacksFollowRows(w, w'.rows);
      forall e | e in sent ensures Has(w'.rows, av, e.id) {
        assert Available(w.rows, av, e) && Has(w.rows, av, e.id);
      }
      forall a | a in Named(sent) ensures a.count >= 0 {
        var i :| 0 <= i < |sent| && Named(sent)[i] == a;
        assert sent[i] in sent;
      }
      var b := w'.attacks[|w.attacks|];
      assert AttackOk(w'.rows, b);
      assert forall x :: x in w'.attacks <==> x in w.attacks || x == b;
    }
  }

  /** The march is gone ... */
  lemma ResolveMarches(infos: seq<UnitInfo>, w: World)
    requires MarchesOk(w) && w.normal.pending != []
    ensures MarchesOk(Resolved(w, infos))
  {
    var t := w.normal.pending[0];
    var w' := Resolved(w, infos);
    assert Holds(w.normal, t);
    assert forall x :: Holds(w'.normal, x) <==> Holds(w.normal, x) && x != t;
    assert forall x | Holds(w.normal, x) && x != t :: x.attackId != t.attackId;
    assert forall id: nat | id < |w.attacks| && id != t.attackId :: w'.attacks[id] == w.attacks[id];
  }

  /** ... and if the attack was won a return ticket takes its place. */
  lemma ResolveHomecomings(infos: seq<UnitInfo>, w: World)
    requires MarchesOk(w) && HomecomingsOk(w) && w.normal.pending != []
    ensures HomecomingsOk(Resolved(w, infos))
  {
    var t := w.normal.pending[0];
    var w' := Resolved(w, infos);
    assert Holds(w.normal, t);
    var b := w'.attacks[t.attackId];
    if b.report.value.attackerWon {
      assert Travelling(b);
      assert w'.returning.delayed.Keys == w.returning.delayed.Keys + {HomecomingOf(b, t.attackId)};
    }
  }

  lemma ResolveAttacks(infos: seq<UnitInfo>, w: World)
    requires Keyed(w.rows) && AttacksOk(w) && MarchesOk(w) && w.normal.pending != []
    ensures AttacksOk(Resolved(w, infos))
  {
    var t := w.normal.pending[0];
    assert Holds(w.normal, t);
    var a := w.attacks[t.attackId];
    assert a in w.attacks && AttackOk(w.rows, a);
    AttackersDead(w, t, infos);
    UpdateKeepsKeys(w.rows, t.defenderVillage, BattleOf(w, t, infos).defenderDead, false);
    CapacityNonNegative(Named(t.units));
    LootBound(AfterBattle(w, t, infos), t.defenderVillage, Capacity(Named(t.units)));
    ResolveKeepsRows(infos, w);
    var w' := Resolved(w, infos);
    ReplaceAttack(w, w'.rows, t.attackId, w'.attacks[t.attackId]);
  }

  /** The ticket of an attack finds all its casualties exactly when each stated name is a key. */
  lemma RecognizedExactly(a: Attack, id: nat)
    requires Travelling(a) && |a.report.value.attackerDead| == |a.sent|
    ensures Recognized(HomecomingOf(a, id)) <==> Labelled(a.sent)
  {
    var t := HomecomingOf(a, id);
    forall i | 0 <= i < |a.sent| ensures a.sent[i] in a.sent && t.casualties[i] in t.casualties {
    }
    if Recognized(t) {
      forall e | e in a.sent ensures exists f <- a.sent :: f.name == e.stated {
        var i :| 0 <= i < |a.sent| && a.sent[i] == e;
        assert t.casualties[i].kind == e.stated;
      }
    }
  }

  lemma ReturnTickets(w: World, applied: seq<nat>)
    requires MayApply(w, applied) && AttacksOk(w) && MarchesOk(w) && HomecomingsOk(w) && w.returning.pending != []
    ensures MarchesOk(Returned(w, applied)) && HomecomingsOk(Returned(w, applied))
  {
    var t := w.returning.pending[0];
    assert Holds(w.returning, t);
    var a := w.attacks[t.attackId];
    assert a in w.attacks && AttackOk(w.rows, a);
    RecognizedExactly(a, t.attackId);
    ReturnMarches(w, applied);
    ReturnHomecomings(w, applied);
  }

  lemma ReturnMarches(w: World, applied: seq<nat>)
    requires MayApply(w, applied) && MarchesOk(w) && HomecomingsOk(w) && w.returning.pending != []
    ensures MarchesOk(Returned(w, applied))
  {
    assert Holds(w.returning, w.returning.pending[0]);
  }

  lemma ReturnHomecomings(w: World, applied: seq<nat>)
    requires MayApply(w, applied) && HomecomingsOk(w) && w.returning.pending != []
    requires var t := w.returning.pending[0];
      t.attackId < |w.attacks| && (Recognized(t) <==> Labelled(w.attacks[t.attackId].sent))
    ensures HomecomingsOk(Returned(w, applied))
  {
    var t := w.returning.pending[0];
    var w' := Returned(w, applied);
    assert Holds(w.returning, t);
    assert forall x :: Holds(w'.returning, x) <==> Holds(w.returning, x) && x != t;
    assert forall x | Holds(w.returning, x) && x != t :: x.attackId != t.attackId;
  }

  lemma ReturnAttacks(w: World, applied: seq<nat>)
    requires MayApply(w, applied) && AttacksOk(w) && HomecomingsOk(w) && w.returning.pending != []
    ensures AttacksOk(Returned(w, applied))
  {
    var t := w.returning.pending[0];
    assert Holds(w.returning, t);
    var a := w.attacks[t.attackId];
    assert a in w.attacks && AttackOk(w.rows, a);
    ReturnKeepsRows(w, applied);
    var w' := Returned(w, applied);
    AttacksFollowRows(w, w'.rows);
    if Recognized(t) {
      ReplaceAttack(w, w'.rows, t.attackId, Home(a));
    }
  }

  lemma MoveRuns(infos: seq<UnitInfo>, w: World, e: Event)
    requires Running(w) && Enabled(w, e) && (e.MoveNormal? || e.MoveReturning?)
    ensures Running(Next(infos, w, e))
  {
    if e.MoveNormal? {
      MoveKeepsSingle(w.normal, e.marches, w.now);
    } else {
      MoveKeepsSingle(w.returning, e.homecomings, w.now);
    }
  }

  /** Every event keeps attacks and tickets consistent, whatever the requests call their units. */
  lemma NextRuns(infos: seq<UnitInfo>, w: World, e: Event)
    requires Running(w) && Enabled(w, e)
    ensures Running(Next(infos, w, e))
  {
    StepKeepsRows(infos, w, e);
    match e
    case Launch(av, dv, wanted, travel, truce) =>
      LaunchAttacks(w, av, dv, wanted, travel, truce);
      LaunchMarches(w, av, dv, wanted, travel, truce);
      LaunchHomecomings(w, av, dv, wanted, travel, truce);
    case MoveNormal(_) => MoveRuns(infos, w, e);
    case MoveReturning(_) => MoveRuns(infos, w, e);
    case Resolve =>
      if w.normal.pending != [] {
        ResolveAttacks(infos, w);
        ResolveMarches(infos, w);
        ResolveHomecomings(infos, w);
      }
    case Return(applied) =>
      if w.returning.pending != [] {
        ReturnAttacks(w, applied);
        ReturnTickets(w, applied);
      }
    case Adjust(_, _, _) => AttacksFollowRows(w, Next(infos, w, e).rows);
    case Found(_, _) =>
    case Tick(_) =>
  }

  lemma {:induction false} RunRuns(infos: seq<UnitInfo>, w: World, es: seq<Event>)
    requires Running(w) && Legal(infos, w, es)
    ensures Running(Run(infos, w, es))
    decreases |es|
  {
    if es != [] {
      NextRuns(infos, w, es[0]);
      RunRuns(infos, Next(infos, w, es[0]), es[1..]);
    }
  }

  lemma AtPeaceHolds(w: World)
    requires AtPeace(w)
    ensures Inv(w) && Sincere(w)
  {
  }

  /// Honest runs keep counts non-negative

  /** What a launch takes from the row of type `k`. */
  function Deducted(rows: seq<Row>, av: nat, sent: seq<Entry>, k: Kind): int {
    if Has(rows, av, k) then AmountOf(Named(sent), k) else 0
  }

  /** The check looks at the row of the id, the deduction at the row of the key. So an accepted launch leaves
      no negative count if and only if the rows of the keys, where they exist, hold what is sent. */
  lemma LaunchNonNegative(w: World, av: nat, dv: nat, wanted: seq<Entry>, travel: nat, truce: bool)
    requires Keyed(w.rows) && NonNegative(w.rows) && KeysDistinct(wanted)
    requires MayLaunch(w, av, dv, Positive(wanted), truce)
    ensures NonNegative(Launched(w, av, dv, wanted, travel, truce).rows) <==>
      forall e <- Positive(wanted) :: Has(w.rows, av, e.name) ==> e.count <= Tally(w.rows, At(av), e.name)
  {
    PositiveMembers(wanted);
    UpdateNonNegative(w.rows, av, Named(Positive(wanted)), false);
    RowsHold(w.rows, av, Positive(wanted));
  }

  lemma RowsHold(rows: seq<Row>, av: nat, sent: seq<Entry>)
    requires Keyed(rows) && NonNegative(rows) && KeysDistinct(sent)
    ensures (forall k :: Has(rows, av, k) ==> Tally(rows, At(av), k) - AmountOf(Named(sent), k) >= 0) <==>
      forall e <- sent :: Has(rows, av, e.name) ==> e.count <= Tally(rows, At(av), e.name)
  {
    forall i | 0 <= i < |sent| ensures AmountOf(Named(sent), sent[i].name) == sent[i].count && sent[i] in sent {
      AmountAt(Named(sent), i);
    }
    forall k | !exists i :: 0 <= i < |sent| && sent[i].name == k
      ensures AmountOf(Named(sent), k) == 0 && Tally(rows, At(av), k) >= 0
    {
      AmountAbsent(Named(sent), k);
      TallyNonNegative(rows, av, k);
    }
  }

  /** With agreeing names the check is enough. */
  lemma LaunchKeeps(w: World, av: nat, dv: nat, wanted: seq<Entry>, travel: nat, truce: bool)
    requires Inv(w) && KeysDistinct(wanted) && WellNamed(Positive(wanted))
    ensures var w' := Launched(w, av, dv, wanted, travel, truce);
      NonNegative(w'.rows) && forall a <- w'.attacks :: SoundAttack(a)
  {
    var w' := Launched(w, av, dv, wanted, travel, truce);
    if w' != w {
      LaunchNonNegative(w, av, dv, wanted, travel, truce);
      forall e | e in Positive(wanted) ensures e.count <= Tally(w.rows, At(av), e.name) {
        var r :| r in w.rows && IsAt(r, av, e.id) && r.count >= e.count;
        MatchingKeyed(w.rows, av, e.name);
      }
    }
  }

  lemma ResolveKeeps(infos: seq<UnitInfo>, w: World)
    requires Inv(w)
    ensures NonNegative(Resolved(w, infos).rows) && forall a <- Resolved(w, infos).attacks :: SoundAttack(a)
  {
    if w.normal.pending != [] {
      var t := w.normal.pending[0];
      var w' := Resolved(w, infos);
      assert Holds(w.normal, t);
      var a := w.attacks[t.attackId];
      assert a in w.attacks && AttackOk(w.rows, a) && SoundAttack(a);
      FightFacts(w, t, infos);
      forall x | x in w'.attacks ensures SoundAttack(x) {
        if x != w'.attacks[t.attackId] {
          assert x in w.attacks;
        }
      }
    }
  }

  lemma AppliedNonNegative(values: seq<Amount>, applied: seq<nat>)
    requires forall j :: 0 <= j < |applied| ==> applied[j] < |values|
    requires forall v <- values :: v.count >= 0
    ensures forall v <- Applied(values, applied) :: v.count >= 0
  {
    forall j | 0 <= j < |applied| ensures Applied(values, applied)[j].count >= 0 {
      assert values[applied[j]] in values;
    }
  }

  lemma ReturnKeeps(w: World, applied: seq<nat>)
    requires MayApply(w, applied) && Inv(w)
    ensures NonNegative(Returned(w, applied).rows)
    ensures forall a <- Returned(w, applied).attacks :: SoundAttack(a)
  {
    if w.returning.pending != [] {
      var t := w.returning.pending[0];
      assert Holds(w.returning, t);
      var a := w.attacks[t.attackId];
      assert a in w.attacks && AttackOk(w.rows, a) && SoundAttack(a);
      Survivors(a.sent, a.report.value.attackerDead, Food);
      AppliedNonNegative(Left(t.units, t.casualties), applied);
      GiveKeepsNonNegative(w.rows, t.attackerVillage, t.stolen);
      GiveKeepsNonNegative(UpdateFrom(w.rows, t.attackerVillage, t.stolen, true), t.attackerVillage,
                           Applied(Left(t.units, t.casualties), applied));
      HomeIsSound(w.attacks, t.attackId);
    }
  }

  lemma HomeIsSound(attacks: seq<Attack>, id: nat)
    requires id < |attacks| && forall a <- attacks :: SoundAttack(a)
    ensures forall a <- attacks[id := Home(attacks[id])] :: SoundAttack(a)
  {
    assert attacks[id] in attacks;
    forall x | x in attacks[id := Home(attacks[id])] ensures SoundAttack(x) {
      if x != Home(attacks[id]) {
        assert x in attacks;
      }
    }
  }

  /** What an attack sent never changes. */
  lemma SentStays(infos: seq<UnitInfo>, w: World, e: Event)
    requires Running(w) && Enabled(w, e)
    ensures var before, after := w.attacks, Next(infos, w, e).attacks;
      && |before| <= |after| <= |before| + 1
      && (forall i | 0 <= i < |before| :: after[i].sent == before[i].sent)
      && (|after| > |before| ==> e.Launch? && after[|before|].sent == Positive(e.wanted))
  {
  }

  /** Names keep agreeing as long as launches are honest, whatever else happens. */
  lemma NextSincere(infos: seq<UnitInfo>, w: World, e: Event)
    requires Sincere(w) && Enabled(w, e) && Honest(e)
    ensures Sincere(Next(infos, w, e))
  {
    NextRuns(infos, w, e);
    SentStays(infos, w, e);
    var attacks := Next(infos, w, e).attacks;
    forall i | 0 <= i < |attacks| ensures WellNamed(attacks[i].sent) {
      if i < |w.attacks| {
        assert w.attacks[i] in w.attacks;
      }
    }
  }

  lemma {:induction false} RunSincere(infos: seq<UnitInfo>, w: World, es: seq<Event>)
    requires Sincere(w) && Legal(infos, w, es) && AllHonest(es)
    ensures Sincere(Run(infos, w, es))
    decreases |es|
  {
    if es != [] {
      assert es[0] in es;
      NextSincere(infos, w, es[0]);
      RunSincere(infos, Next(infos, w, es[0]), es[1..]);
    }
  }

  lemma AdjustKeeps(w: World, v: nat, k: Kind, n: int)
    requires Inv(w)
    ensures NonNegative(Adjusted(w.rows, v, k, n)) <==> Tally(w.rows, At(v), k) + n >= 0
  {
    if Has(w.rows, v, k) {
      UpdateNonNegative(w.rows, v, [Amount(k, n)], true);
      forall y ensures AmountOf([Amount(k, n)], y) == (if y == k then n else 0) && Tally(w.rows, At(v), y) >= 0 {
        SingleAmount(k, n, y);
        TallyNonNegative(w.rows, v, y);
      }
    } else {
      MatchingKeyed(w.rows, v, k);
      assert Row(v, k, n) in w.rows + [Row(v, k, n)];
    }
  }

  lemma NextKeeps(infos: seq<UnitInfo>, w: World, e: Event)
    requires Inv(w) && Enabled(w, e) && Honest(e) && Gentle(w, e)
    ensures Inv(Next(infos, w, e))
  {
    NextRuns(infos, w, e);
    match e
    case Launch(av, dv, wanted, travel, truce) => LaunchKeeps(w, av, dv, wanted, travel, truce);
    case MoveNormal(_) =>
    case MoveReturning(_) =>
    case Resolve => ResolveKeeps(infos, w);
    case Return(applied) => ReturnKeeps(w, applied);
    case Adjust(v, k, n) => AdjustKeeps(w, v, k, n);
    case Found(_, _) =>
    case Tick(_) =>
  }

  lemma {:induction false} RunKeeps(infos: seq<UnitInfo>, w: World, es: seq<Event>)
    requires Inv(w) && Legal(infos, w, es) && AllHonest(es) && AllGentle(infos, w, es)
    ensures Inv(Run(infos, w, es))
    decreases |es|
  {
    if es != [] {
      assert es[0] in es;
      NextKeeps(infos, w, es[0]);
      RunKeeps(infos, Next(infos, w, es[0]), es[1..]);
    }
  }

  /** The table is non-negative now and after every event. */
  ghost predicate NeverNegative(infos: seq<UnitInfo>, w: World, es: seq<Event>)
    requires Legal(infos, w, es)
    decreases |es|
  {
    NonNegative(w.rows) && (es == [] || NeverNegative(infos, Next(infos, w, es[0]), es[1..]))
  }

  /** The exact condition: in a run of honest launches no count is ever negative if and only if each change by
      another service leaves its count non-negative. */
  lemma {:induction false} NeverNegativeExactly(infos: seq<UnitInfo>, w: World, es: seq<Event>)
    requires Inv(w) && Legal(infos, w, es) && AllHonest(es)
    ensures NeverNegative(infos, w, es) <==> AllGentle(infos, w, es)
    decreases |es|
  {
    if es != [] {
      assert es[0] in es;
      var w' := Next(infos, w, es[0]);
      if Gentle(w, es[0]) {
        NextKeeps(infos, w, es[0]);
        NeverNegativeExactly(infos, w', es[1..]);
      } else {
        AdjustKeeps(w, es[0].village, es[0].kind, es[0].change);
      }
    }
  }
}
