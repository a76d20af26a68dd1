// The resource production query. Facilities that are due are grouped by stock row, facility type and level;
// of the groups aimed at one stock row the update applies a single one, which one the database decides;
// the facilities of the applied groups are stamped with the current time.

module ResourceQuery {
  import opened Options
  import opened Stock

  /** `frequency` in seconds for the facility types that produce, `outputs` the resource types of each
      facility type, `amount` what a number of facilities of one type and level adds. */
  datatype Rules = Rules(frequency: map<nat, nat>, outputs: set<(nat, Kind)>, amount: (Group, nat) -> nat)

  datatype Group = Group(ftype: nat, level: nat)

  /** `credits` counts how often the facility was stamped; it is no column but a record for the proofs. */
  datatype Facility = Facility(village: nat, ftype: nat, level: nat, createdAt: int,
                               lastProductionAt: Option<int>, credits: nat)
  {
    function Grp(): Group { Group(ftype, level) }
  }

  /** `owned` are the villages that belong to a user; `now` is in seconds. */
  datatype World = World(rows: seq<Row>, facilities: seq<Facility>, owned: set<nat>, now: int)

  predicate Due(rules: Rules, f: Facility, now: int) {
    && f.ftype in rules.frequency
    && match f.lastProductionAt
       case Some(last) => last < now - rules.frequency[f.ftype]
       case None => f.createdAt < now - rules.frequency[f.ftype]
  }

  /** The joins: the facility produces what the stock row counts, in the same owned village. */
  predicate Feeds(rules: Rules, w: World, i: nat, r: nat)
    requires i < |w.facilities| && r < |w.rows|
  {
    && w.facilities[i].village == w.rows[r].village
    && w.facilities[i].village in w.owned
    && (w.facilities[i].ftype, w.rows[r].kind) in rules.outputs
  }

  /** Facility `i` is due and aimed at stock row `r`. */
  predicate Waits(rules: Rules, w: World, i: nat, r: nat) {
    && i < |w.facilities| && r < |w.rows|
    && Due(rules, w.facilities[i], w.now) && Feeds(rules, w, i, r)
  }

  /** One line of the grouped results: the facilities of group `g` aimed at row `r`. */
  function Members(rules: Rules, w: World, r: nat, g: Group): set<nat> {
    set i: nat | i < |w.facilities| && Waits(rules, w, i, r) && w.facilities[i].Grp() == g
  }

  function DueGroups(rules: Rules, w: World, r: nat): set<Group> {
    set i: nat | i < |w.facilities| && Waits(rules, w, i, r) :: w.facilities[i].Grp()
  }

  /** The group applied to each stock row, for every row that has one. */
  type Choice = map<nat, Group>

  predicate Possible(rules: Rules, w: World, c: Choice) {
    && (forall r <- c :: r < |w.rows| && c[r] in DueGroups(rules, w, r))
    && (forall r: nat | r < |w.rows| && DueGroups(rules, w, r) != {} :: r in c)
  }

  predicate Stamped(rules: Rules, w: World, c: Choice, i: nat) {
    exists r <- c :: i in Members(rules, w, r, c[r])
  }

  function RowAfter(rules: Rules, w: World, c: Choice, r: nat): Row
    requires r < |w.rows|
  {
    if r in c
    then w.rows[r].(count := w.rows[r].count + rules.amount(c[r], |Members(rules, w, r, c[r])|))
    else w.rows[r]
  }

  function FacilityAfter(rules: Rules, w: World, c: Choice, i: nat): Facility
    requires i < |w.facilities|
  {
    var f := w.facilities[i];
    if Stamped(rules, w, c, i) then f.(lastProductionAt := Some(w.now), credits := f.credits + 1) else f
  }

  function Queried(rules: Rules, w: World, c: Choice): World {
    w.(rows := seq(|w.rows|, r requires 0 <= r < |w.rows| => RowAfter(rules, w, c, r)),
       facilities := seq(|w.facilities|, i requires 0 <= i < |w.facilities| => FacilityAfter(rules, w, c, i)))
  }

  /// Credit and stamp

  /** A stock row gains the yield of exactly as many facilities as are stamped on its account; all of them
      are stamped now and no longer due, and a facility of no applied group is untouched, hence as due
      as it was. */
  lemma CreditsWhatItStamps(rules: Rules, w: World, c: Choice, r: nat, i: nat)
    requires Possible(rules, w, c) && r < |w.rows| && i < |w.facilities|
    ensures var w' := Queried(rules, w, c);
      && (r !in c ==> w'.rows[r] == w.rows[r] && DueGroups(rules, w, r) == {})
      && (r in c ==>
            && Members(rules, w, r, c[r]) != {}
            && w'.rows[r].count - w.rows[r].count == rules.amount(c[r], |Members(rules, w, r, c[r])|)
            && forall m <- Members(rules, w, r, c[r]) ::
                 w'.facilities[m].lastProductionAt == Some(w.now) && !Due(rules, w'.facilities[m], w.now))
      && (w'.facilities[i] != w.facilities[i] <==> exists s <- c :: i in Members(rules, w, s, c[s]))
      && (w'.facilities[i] != w.facilities[i] ==> Due(rules, w.facilities[i], w.now))
      && (Due(rules, w'.facilities[i], w.now) <==> Due(rules, w.facilities[i], w.now) && !Stamped(rules, w, c, i))
  {
    if r in c {
      var m: nat :| m < |w.facilities| && Waits(rules, w, m, r) && w.facilities[m].Grp() == c[r];
      assert m in Members(rules, w, r, c[r]);
      forall m | m in Members(rules, w, r, c[r])
        ensures Queried(rules, w, c).facilities[m].lastProductionAt == Some(w.now)
      {
        assert Stamped(rules, w, c, m);
      }
    }
  }

  /** Every stamped facility was credited to every stock row it feeds. */
  ghost predicate Exact(rules: Rules, w: World, c: Choice) {
    forall i: nat, r: nat :: Waits(rules, w, i, r) && Stamped(rules, w, c, i) ==>
      r in c && i in Members(rules, w, r, c[r])
  }

  /** A due facility that feeds two stock rows meets no other group on either. */
  ghost predicate NoRivalry(rules: Rules, w: World) {
    forall i: nat, r: nat, s: nat, j: nat ::
      Waits(rules, w, i, r) && Waits(rules, w, i, s) && r != s && Waits(rules, w, j, s) ==>
        w.facilities[j].Grp() == w.facilities[i].Grp()
  }

  /** The query credits what it stamps, whichever groups the database applies, if and only if no due
      facility with two stock rows has a rival on one of them. */
  lemma ExactWithoutRivalry(rules: Rules, w: World)
    ensures (forall c: Choice :: Possible(rules, w, c) ==> Exact(rules, w, c)) <==> NoRivalry(rules, w)
  {
    if NoRivalry(rules, w) {
      forall c: Choice | Possible(rules, w, c) ensures Exact(rules, w, c) {
        NoRivalryIsExact(rules, w, c);
      }
    } else {
      var c := RivalryIsInexact(rules, w);
    }
  }

  /** With a rival, the database may apply the facility's group on one row and the rival's on the other. */
  lemma RivalryIsInexact(rules: Rules, w: World) returns (c: Choice)
    requires !NoRivalry(rules, w)
    ensures Possible(rules, w, c) && !Exact(rules, w, c)
  {
    var i: nat, r: nat, s: nat, j: nat :|
      Waits(rules, w, i, r) && Waits(rules, w, i, s) && r != s && Waits(rules, w, j, s) &&
      w.facilities[j].Grp() != w.facilities[i].Grp();
    c := Choose(rules, w, Choose(rules, w, SomeChoice(rules, w), i, r), j, s);
    assert i in Members(rules, w, r, c[r]) && i !in Members(rules, w, s, c[s]);
    assert Stamped(rules, w, c, i);
  }

  /** The choice that applies the group of facility `i` to row `r`. */
  ghost function Choose(rules: Rules, w: World, c: Choice, i: nat, r: nat): (c': Choice)
    requires Possible(rules, w, c) && Waits(rules, w, i, r)
    ensures Possible(rules, w, c') && c' == c[r := w.facilities[i].Grp()]
  {
    assert w.facilities[i].Grp() in DueGroups(rules, w, r);
    c[r := w.facilities[i].Grp()]
  }

  lemma NoRivalryIsExact(rules: Rules, w: World, c: Choice)
    requires NoRivalry(rules, w) && Possible(rules, w, c)
    ensures Exact(rules, w, c)
  {
    forall i: nat, r: nat | Waits(rules, w, i, r) && Stamped(rules, w, c, i)
      ensures r in c && i in Members(rules, w, r, c[r])
    {
      assert w.facilities[i].Grp() in DueGroups(rules, w, r);
      var s: nat :| s in c && i in Members(rules, w, s, c[s]);
      var j: nat :| j < |w.facilities| && Waits(rules, w, j, r) && w.facilities[j].Grp() == c[r];
    }
  }

  ghost function SomeChoice(rules: Rules, w: World): (c: Choice)
    ensures Possible(rules, w, c)
  {
    map r: nat | r < |w.rows| && DueGroups(rules, w, r) != {} :: (var g :| g in DueGroups(rules, w, r); g)
  }

  /** With unique stock rows and one output for each producing type, as the shipped tables have it, no
      facility feeds two rows. */
  lemma SingleOutputsHaveNoRivalry(rules: Rules, w: World)
    requires Keyed(w.rows)
    requires forall t, k1, k2 ::
               t in rules.frequency && (t, k1) in rules.outputs && (t, k2) in rules.outputs ==> k1 == k2
    ensures NoRivalry(rules, w)
  {
  }

  /// Draining

  /** At a fixed time a query removes the applied group from the waiting groups of its row and adds none. */
  lemma QueryShrinks(rules: Rules, w: World, c: Choice, r: nat)
    requires Possible(rules, w, c) && r < |w.rows|
    ensures var left := DueGroups(rules, Queried(rules, w, c), r);
      && left <= DueGroups(rules, w, r)
      && (r in c ==> c[r] !in left)
  {
  }

  lemma ProperSubset<T>(a: set<T>, b: set<T>, x: T)
    requires a <= b && x in b && x !in a
    ensures |a| < |b|
  {
    assert b == a + (b - a) && x in b - a;
    assert |b| == |a| + |b - a|;
  }

  ghost predicate PossibleAll(rules: Rules, w: World, cs: seq<Choice>)
    decreases |cs|
  {
    cs == [] || (Possible(rules, w, cs[0]) && PossibleAll(rules, Queried(rules, w, cs[0]), cs[1..]))
  }

  ghost function Repeated(rules: Rules, w: World, cs: seq<Choice>): World
    decreases |cs|
  {
    if cs == [] then w else Repeated(rules, Queried(rules, w, cs[0]), cs[1..])
  }

  /** Repeated at one moment, the query serves every waiting facility of a stock row after at most as many
      runs as the row has waiting groups, whichever groups are applied first. */
  lemma {:induction false} Drains(rules: Rules, w: World, cs: seq<Choice>, r: nat)
    requires PossibleAll(rules, w, cs) && r < |w.rows|
    requires |DueGroups(rules, w, r)| <= |cs|
    ensures DueGroups(rules, Repeated(rules, w, cs), r) == {}
    decreases |cs|
  {
    if cs != [] {
      var w' := Queried(rules, w, cs[0]);
      QueryShrinks(rules, w, cs[0], r);
      if r in cs[0] {
        ProperSubset(DueGroups(rules, w', r), DueGroups(rules, w, r), cs[0][r]);
      } else {
        assert DueGroups(rules, w, r) == {};
      }
      Drains(rules, w', cs[1..], r);
    }
  }

  /// The rate of production

  datatype Event =
    | Query(choice: Choice)
    | Build(village: nat, ftype: nat)
    | Upgrade(facility: nat)
    | Tick(elapsed: nat)

  ghost predicate Enabled(rules: Rules, w: World, e: Event) {
    e.Query? ==> Possible(rules, w, e.choice)
  }

  ghost function Next(rules: Rules, w: World, e: Event): World {
    match e
    case Query(c) => Queried(rules, w, c)
    case Build(v, t) => w.(facilities := w.facilities + [Facility(v, t, 1, w.now, None, 0)])
    case Upgrade(i) =>
      if i < |w.facilities|
      then w.(facilities := w.facilities[i := w.facilities[i].(level := w.facilities[i].level + 1)]) else w
    case Tick(d) => w.(now := w.now + d)
  }

  ghost predicate Legal(rules: Rules, w: World, es: seq<Event>)
    decreases |es|
  {
    es == [] || (Enabled(rules, w, es[0]) && Legal(rules, Next(rules, w, es[0]), es[1..]))
  }

  ghost function Run(rules: Rules, w: World, es: seq<Event>): World
    decreases |es|
  {
    if es == [] then w else Run(rules, Next(rules, w, es[0]), es[1..])
  }

  /** The credits of a facility fit between its creation and its last stamp. */
  predicate PacedFacility(rules: Rules, f: Facility, now: int) {
    match f.lastProductionAt
    case None => f.credits == 0 && f.createdAt <= now
    case Some(last) =>
      last <= now && f.createdAt <= last &&
      (f.ftype in rules.frequency ==> f.createdAt + f.credits * rules.frequency[f.ftype] <= last)
  }

  ghost predicate Paced(rules: Rules, w: World) {
    forall f <- w.facilities :: PacedFacility(rules, f, w.now)
  }

  lemma StampKeepsPace(rules: Rules, f: Facility, now: int)
    requires PacedFacility(rules, f, now) && Due(rules, f, now)
    ensures PacedFacility(rules, f.(lastProductionAt := Some(now), credits := f.credits + 1), now)
  {
  }

  lemma NextPaced(rules: Rules, w: World, e: Event)
    requires Paced(rules, w) && Enabled(rules, w, e)
    ensures Paced(rules, Next(rules, w, e))
  {
    var w' := Next(rules, w, e);
    forall i | 0 <= i < |w'.facilities| ensures PacedFacility(rules, w'.facilities[i], w'.now) {
      if i < |w.facilities| {
        assert PacedFacility(rules, w.facilities[i], w.now);
        if e.Query? && Stamped(rules, w, e.choice, i) {
          StampKeepsPace(rules, w.facilities[i], w.now);
        }
      }
    }
  }

  lemma {:induction false} RunPaced(rules: Rules, w: World, es: seq<Event>)
    requires Paced(rules, w) && Legal(rules, w, es)
    ensures Paced(rules, Run(rules, w, es))
    decreases |es|
  {
    if es != [] {
      NextPaced(rules, w, es[0]);
      RunPaced(rules, Next(rules, w, es[0]), es[1..]);
    }
  }

  /** For any schedule of queries, a facility credited n times has existed for at least n periods. */
  lemma RateBound(rules: Rules, w: World, es: seq<Event>, i: nat)
    requires Legal(rules, w, es) && i < |Run(rules, w, es).facilities|
    requires forall f <- w.facilities :: f.lastProductionAt.None? && f.credits == 0 && f.createdAt <= w.now
    ensures var w' := Run(rules, w, es);
      var f := w'.facilities[i];
      f.ftype in rules.frequency ==> f.credits * rules.frequency[f.ftype] <= w'.now - f.createdAt
  {
    RunPaced(rules, w, es);
    assert PacedFacility(rules, Run(rules, w, es).facilities[i], Run(rules, w, es).now);
  }

  /// The query as it runs

  predicate Listed(grouped: map<nat, set<nat>>, i: nat) {
    exists r <- grouped :: i in grouped[r]
  }

  predicate Groups(rules: Rules, w: World, c: Choice, grouped: map<nat, set<nat>>) {
    grouped.Keys == c.Keys && forall r <- c :: grouped[r] == Members(rules, w, r, c[r])
  }

  lemma ListedIsStamped(rules: Rules, w: World, c: Choice, grouped: map<nat, set<nat>>, i: nat)
    requires Groups(rules, w, c, grouped)
    ensures Listed(grouped, i) <==> Stamped(rules, w, c, i)
  {
  }

  /** Crediting each row by the size of its listed group is what the query does to the rows ... */
  lemma RowsAgree(rules: Rules, w: World, c: Choice, grouped: map<nat, set<nat>>, rows: seq<Row>)
    requires Groups(rules, w, c, grouped) && |rows| == |w.rows|
    requires forall r | 0 <= r < |rows| ::
      rows[r] == if r in c then w.rows[r].(count := w.rows[r].count + rules.amount(c[r], |grouped[r]|)) else w.rows[r]
    ensures rows == Queried(rules, w, c).rows
  {
  }

  /** ... and stamping the listed facilities is what it does to them. */
  lemma FacilitiesAgree(rules: Rules, w: World, c: Choice, grouped: map<nat, set<nat>>, facilities: seq<Facility>)
    requires Groups(rules, w, c, grouped) && |facilities| == |w.facilities|
    requires forall i | 0 <= i < |facilities| ::
      facilities[i] == if Listed(grouped, i)
        then w.facilities[i].(lastProductionAt := Some(w.now), credits := w.facilities[i].credits + 1)
        else w.facilities[i]
    ensures facilities == Queried(rules, w, c).facilities
  {
    forall i | 0 <= i < |facilities| ensures facilities[i] == FacilityAfter(rules, w, c, i) {
      ListedIsStamped(rules, w, c, grouped, i);
    }
  }

  class ProductionCron {
    const rules: Rules
    const owned: set<nat>
    var rows: seq<Row>
    var facilities: seq<Facility>
    var now: int

    ghost function State(): World
      reads this
    {
      World(rows, facilities, owned, now)
    }

    constructor (rules: Rules, owned: set<nat>, rows: seq<Row>, facilities: seq<Facility>, now: int)
      ensures State() == World(rows, facilities, owned, now) && this.rules == rules
    {
      this.rules, this.owned, this.rows, this.facilities, this.now := rules, owned, rows, facilities, now;
    }

    /** Stage one: the facilities behind each group that will be applied. */
    method GroupedResults(choice: Choice) returns (grouped: map<nat, set<nat>>)
      ensures Groups(rules, State(), choice, grouped)
    {
      var here := World(rows, facilities, owned, now);
      grouped := map r <- choice :: Members(rules, here, r, choice[r]);
    }

    /** Stage two: each stock row with a group gains what the group's facilities yield together. */
    method UpdateStock(choice: Choice, grouped: map<nat, set<nat>>)
      requires grouped.Keys == choice.Keys
      modifies this`rows
      ensures |rows| == |old(rows)|
      ensures forall r | 0 <= r < |rows| ::
        rows[r] == if r in choice
                   then old(rows)[r].(count := old(rows)[r].count + rules.amount(choice[r], |grouped[r]|))
                   else old(rows)[r]
    {
      var stock := rows;
      rows := seq(|stock|, r requires 0 <= r < |stock| =>
        if r in choice then stock[r].(count := stock[r].count + rules.amount(choice[r], |grouped[r]|)) else stock[r]);
    }

    /** Stage three: the facilities of the applied groups are stamped, and they alone stop being due. */
    method StampFacilities(grouped: map<nat, set<nat>>)
      modifies this`facilities
      ensures |facilities| == |old(facilities)|
      ensures forall i | 0 <= i < |facilities| ::
        facilities[i] == if Listed(grouped, i)
                         then var f := old(facilities)[i]; f.(lastProductionAt := Some(now), credits := f.credits + 1)
                         else old(facilities)[i]
      ensures forall i | 0 <= i < |facilities| ::
        Due(rules, facilities[i], now) <==> Due(rules, old(facilities)[i], now) && !Listed(grouped, i)
    {
      var before, time := facilities, now;
      facilities := seq(|before|, i requires 0 <= i < |before| =>
        if Listed(grouped, i)
        then before[i].(lastProductionAt := Some(time), credits := before[i].credits + 1) else before[i]);
    }

    /** One run of the statement reaches the state of `Queried`. */
    method Produce(choice: Choice)
      requires Possible(rules, State(), choice)
      modifies this
      ensures State() == Queried(rules, old(State()), choice)
    {
      ghost var before := State();
      var grouped := GroupedResults(choice);
      UpdateStock(choice, grouped);
      StampFacilities(grouped);
      RowsAgree(rules, before, choice, grouped, rows);
      FacilitiesAgree(rules, before, choice, grouped, facilities);
    }
  }
}
