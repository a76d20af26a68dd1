// When facilities produce, told in clock values: which ones a run of the query stamps, what their stock rows gain,
// and how often a facility has produced by a given age if the query is run at least once in every lag.

module ResourceDeadlines {
  import opened Options
  import opened Stock
  import opened ResourceQuery

  /** When the facility last produced, or was built. */
  function Since(f: Facility): int {
    if f.lastProductionAt.Some? then f.lastProductionAt.value else f.createdAt
  }

  /** More than the period of its type has passed since then. */
  predicate Overdue(rules: Rules, w: World, i: nat) {
    && i < |w.facilities| && w.facilities[i].ftype in rules.frequency
    && w.now - Since(w.facilities[i]) > rules.frequency[w.facilities[i].ftype]
  }

  /** Stock row `r` counts an output of the facility, whose village has an owner. */
  predicate Supplies(rules: Rules, w: World, i: nat, r: nat) {
    && i < |w.facilities| && r < |w.rows|
    && w.rows[r].village == w.facilities[i].village && w.rows[r].village in w.owned
    && (w.facilities[i].ftype, w.rows[r].kind) in rules.outputs
  }

  ghost predicate Working(rules: Rules, w: World, i: nat) {
    exists r: nat :: Supplies(rules, w, i, r)
  }

  /** No overdue facility of another type or level is aimed at a stock row of facility `i`. */
  ghost predicate Unrivalled(rules: Rules, w: World, i: nat) {
    forall j: nat, r: nat :: Supplies(rules, w, i, r) && Supplies(rules, w, j, r) && Overdue(rules, w, j) ==>
      w.facilities[j].ftype == w.facilities[i].ftype && w.facilities[j].level == w.facilities[i].level
  }

  lemma WaitsMeans(rules: Rules, w: World, i: nat, r: nat)
    ensures Waits(rules, w, i, r) <==> Overdue(rules, w, i) && Supplies(rules, w, i, r)
  {
  }

  /** A run of the query stamps a facility without rivals if and only if it has an output row in an owned village
      and is overdue; otherwise the facility stays as it was. */
  lemma StampedExactly(rules: Rules, w: World, c: Choice, i: nat)
    requires Possible(rules, w, c) && i < |w.facilities| && Unrivalled(rules, w, i)
    ensures Queried(rules, w, c).facilities[i] ==
      if Working(rules, w, i) && Overdue(rules, w, i)
      then w.facilities[i].(lastProductionAt := Some(w.now), credits := w.facilities[i].credits + 1)
      else w.facilities[i]
  {
    if Working(rules, w, i) && Overdue(rules, w, i) {
      var r: nat :| Supplies(rules, w, i, r);
      WaitsMeans(rules, w, i, r);
      assert w.facilities[i].Grp() in DueGroups(rules, w, r);
      var j: nat :| j < |w.facilities| && Waits(rules, w, j, r) && w.facilities[j].Grp() == c[r];
      WaitsMeans(rules, w, j, r);
      assert i in Members(rules, w, r, c[r]);
    } else if Stamped(rules, w, c, i) {
      var r :| r in c && i in Members(rules, w, r, c[r]);
      WaitsMeans(rules, w, i, r);
    }
  }

  /** The overdue facilities of one type and level aimed at row `r`. */
  function Suppliers(rules: Rules, w: World, r: nat, ftype: nat, level: nat): set<nat> {
    set i: nat | i < |w.facilities| && Supplies(rules, w, i, r) && Overdue(rules, w, i)
      && w.facilities[i].ftype == ftype && w.facilities[i].level == level
  }

  /** A stock row that nobody overdue supplies stays; any other gains what all its overdue suppliers of one type and
      level yield together. */
  lemma CreditExactly(rules: Rules, w: World, c: Choice, r: nat)
    requires Possible(rules, w, c) && r < |w.rows|
    ensures var row, row' := w.rows[r], Queried(rules, w, c).rows[r];
      if exists i: nat :: Supplies(rules, w, i, r) && Overdue(rules, w, i) then
        exists i: nat :: i < |w.facilities| && Supplies(rules, w, i, r) && Overdue(rules, w, i) &&
          var f := w.facilities[i];
          row' == row.(count := row.count
            + rules.amount(Group(f.ftype, f.level), |Suppliers(rules, w, r, f.ftype, f.level)|))
      else row' == row
  {
    if i: nat :| Supplies(rules, w, i, r) && Overdue(rules, w, i) {
      WaitsMeans(rules, w, i, r);
      assert w.facilities[i].Grp() in DueGroups(rules, w, r);
      var j: nat :| j < |w.facilities| && Waits(rules, w, j, r) && w.facilities[j].Grp() == c[r];
      WaitsMeans(rules, w, j, r);
      SuppliersAreMembers(rules, w, r, c[r]);
    } else if r in c {
      var j: nat :| j < |w.facilities| && Waits(rules, w, j, r) && w.facilities[j].Grp() == c[r];
      WaitsMeans(rules, w, j, r);
    }
  }

  lemma SuppliersAreMembers(rules: Rules, w: World, r: nat, g: Group)
    ensures Suppliers(rules, w, r, g.ftype, g.level) == Members(rules, w, r, g)
  {
    forall i: nat ensures Waits(rules, w, i, r) <==> Overdue(rules, w, i) && Supplies(rules, w, i, r) {
      WaitsMeans(rules, w, i, r);
    }
  }

  /// Runs with a query in every lag

  /** Time never passes more than `lag` beyond the last query, which was at `last`. */
  ghost predicate Regular(rules: Rules, w: World, es: seq<Event>, last: int, lag: nat)
    decreases |es|
  {
    es == [] ||
      (var e := es[0];
       && (e.Tick? ==> w.now + e.elapsed <= last + lag)
       && Regular(rules, Next(rules, w, e), es[1..], if e.Query? then w.now else last, lag))
  }

  /** Facility `i` meets no rival when the query runs. */
  ghost predicate NeverRivalled(rules: Rules, w: World, es: seq<Event>, i: nat)
    decreases |es|
  {
    es == [] || ((es[0].Query? ==> Unrivalled(rules, w, i)) && NeverRivalled(rules, Next(rules, w, es[0]), es[1..], i))
  }

  /** The facility is not behind: it was not overdue at the last query, and each production took a period and a lag. */
  predicate KeepsUp(rules: Rules, f: Facility, last: int, lag: nat) {
    && f.ftype in rules.frequency
    && last <= Since(f) + rules.frequency[f.ftype]
    && Since(f) <= f.createdAt + f.credits * (rules.frequency[f.ftype] + lag)
  }

  lemma NextProduction(rules: Rules, f: Facility, now: int, last: int, lag: nat)
    requires KeepsUp(rules, f, last, lag) && now <= last + lag
    ensures KeepsUp(rules, f.(lastProductionAt := Some(now), credits := f.credits + 1), now, lag)
  {
    var period := rules.frequency[f.ftype] + lag;
    assert (f.credits + 1) * period == f.credits * period + period;
  }

  lemma StaysWorking(rules: Rules, w: World, e: Event, i: nat)
    requires Enabled(rules, w, e) && Working(rules, w, i)
    ensures Working(rules, Next(rules, w, e), i)
  {
    var r: nat :| Supplies(rules, w, i, r);
    assert Supplies(rules, Next(rules, w, e), i, r);
  }

  lemma {:induction false} RunKeepsUp(rules: Rules, w: World, es: seq<Event>, i: nat, last: int, lag: nat)
    returns (asked: int)
    requires Legal(rules, w, es) && Regular(rules, w, es, last, lag) && NeverRivalled(rules, w, es, i)
    requires i < |w.facilities| && Working(rules, w, i) && KeepsUp(rules, w.facilities[i], last, lag)
    requires w.now <= last + lag
    ensures var w' := Run(rules, w, es);
      i < |w'.facilities| && KeepsUp(rules, w'.facilities[i], asked, lag) && w'.now <= asked + lag
    decreases |es|
  {
    if es == [] {
      asked := last;
    } else {
      var w' := Next(rules, w, es[0]);
      StaysWorking(rules, w, es[0], i);
      if es[0].Query? {
        StampedExactly(rules, w, es[0].choice, i);
        if Overdue(rules, w, i) {
          NextProduction(rules, w.facilities[i], w.now, last, lag);
        }
        asked := RunKeepsUp(rules, w', es[1..], i, w.now, lag);
      } else {
        asked := RunKeepsUp(rules, w', es[1..], i, last, lag);
      }
    }
  }

  /** The lower bound on production: a facility that has just been built, has an output row in an owned village and
      meets no rival has produced at least `n` times once its age exceeds `n` periods and lags, if the query, which
      ran at `last`, goes on running at least once in every lag. */
  lemma ProducedByAge(rules: Rules, w: World, es: seq<Event>, i: nat, last: int, lag: nat, n: nat)
    requires last <= w.now <= last + lag
    requires Legal(rules, w, es) && Regular(rules, w, es, last, lag) && NeverRivalled(rules, w, es, i)
    requires i < |w.facilities| && Working(rules, w, i)
    requires var f := w.facilities[i];
      f.ftype in rules.frequency && f.lastProductionAt.None? && f.credits == 0 && f.createdAt == w.now
    ensures var w' := Run(rules, w, es);
      && i < |w'.facilities|
      && var f := w'.facilities[i];
      && f.ftype in rules.frequency
      && (w'.now - f.createdAt > n * (rules.frequency[f.ftype] + lag) ==> f.credits >= n)
  {
    var asked := RunKeepsUp(rules, w, es, i, last, lag);
    var w' := Run(rules, w, es);
    var f := w'.facilities[i];
    var period := rules.frequency[f.ftype] + lag;
    assert (f.credits + 1) * period == f.credits * period + period;
    PeriodsFit(w'.now - f.createdAt, f.credits, n, period);
  }

  lemma PeriodsFit(age: int, credits: nat, n: nat, period: nat)
    requires age <= (credits + 1) * period
    ensures age > n * period ==> credits >= n
  {
    if credits < n {
      AtMost(credits + 1, n, period);
    }
  }

  lemma AtMost(m: nat, n: nat, c: nat)
    requires m <= n
    ensures m * c <= n * c
  {
  }
}
