// How late battles and homecomings can be. Time is assumed to pass only while no ticket is pending, and no further
// than a lag beyond the moment at which a delayed ticket came due.

module BattleDeadlines {
  import opened Options
  import opened Stock
  import opened DelayedQueue
  import opened AttackReport
  import opened Battles

  /** The scheduler and the battle manager keep up with both pairs of queues. */
  ghost predicate Prompt(w: World, e: Event, lag: nat) {
    e.Tick? ==>
      && w.normal.pending == [] && w.returning.pending == []
      && (forall t <- w.normal.delayed :: w.now + e.elapsed <= w.normal.delayed[t] + lag)
      && (forall t <- w.returning.delayed :: w.now + e.elapsed <= w.returning.delayed[t] + lag)
  }

  ghost predicate AllPrompt(infos: seq<UnitInfo>, w: World, es: seq<Event>, lag: nat)
    requires Legal(infos, w, es)
    decreases |es|
  {
    es == [] || (Prompt(w, es[0], lag) && AllPrompt(infos, Next(infos, w, es[0]), es[1..], lag))
  }

  /** The ticket of a march is scored no later than announced and is not overdue, ... */
  predicate MarchInTime(w: World, t: March, lag: nat) {
    t.attackId < |w.attacks| ==>
      var arrival := w.attacks[t.attackId].attackTime;
      && (t in w.normal.delayed ==> w.normal.delayed[t] <= arrival && w.now <= w.normal.delayed[t] + lag)
      && (t in w.normal.pending ==> w.now <= arrival + lag)
  }

  /** ... and that of a homecoming at most one lag later than announced. */
  predicate HomecomingInTime(w: World, t: Homecoming, lag: nat) {
    t.attackId < |w.attacks| ==>
      var arrival := w.attacks[t.attackId].attackTime + w.attacks[t.attackId].travel + lag;
      && (t in w.returning.delayed ==> w.returning.delayed[t] <= arrival && w.now <= w.returning.delayed[t] + lag)
      && (t in w.returning.pending ==> w.now <= arrival + lag)
  }

  ghost predicate MarchesInTime(w: World, lag: nat) {
    forall t :: Holds(w.normal, t) ==> MarchInTime(w, t, lag)
  }

  ghost predicate HomecomingsInTime(w: World, lag: nat) {
    forall t :: Holds(w.returning, t) ==> HomecomingInTime(w, t, lag)
  }

  lemma LaunchInTime(w: World, av: nat, dv: nat, wanted: seq<Entry>, travel: nat, truce: bool, lag: nat)
    requires MarchesInTime(w, lag) && HomecomingsInTime(w, lag) && MarchesOk(w) && HomecomingsOk(w)
    ensures MarchesInTime(Launched(w, av, dv, wanted, travel, truce), lag)
    ensures HomecomingsInTime(Launched(w, av, dv, wanted, travel, truce), lag)
  {
    var w' := Launched(w, av, dv, wanted, travel, truce);
    forall t | Holds(w'.normal, t) ensures MarchInTime(w', t, lag) {
      if Holds(w.normal, t) { assert MarchInTime(w, t, lag); }
    }
    forall t | Holds(w'.returning, t) ensures HomecomingInTime(w', t, lag) {
      assert Holds(w.returning, t) && HomecomingInTime(w, t, lag);
    }
  }

  /** A battle changes neither times nor other marches, ... */
  lemma ResolveMarchesInTime(infos: seq<UnitInfo>, w: World, lag: nat)
    requires MarchesInTime(w, lag) && MarchesOk(w) && w.normal.pending != []
    ensures MarchesInTime(Resolved(w, infos), lag)
  {
    var w' := Resolved(w, infos);
    forall t | Holds(w'.normal, t) ensures MarchInTime(w', t, lag) {
      assert Holds(w.normal, t) && MarchInTime(w, t, lag);
    }
  }

  /** ... and the way back is counted from it. */
  lemma ResolveHomecomingsInTime(infos: seq<UnitInfo>, w: World, lag: nat)
    requires MarchesInTime(w, lag) && HomecomingsInTime(w, lag) && MarchesOk(w) && HomecomingsOk(w)
    requires w.normal.pending != []
    ensures HomecomingsInTime(Resolved(w, infos), lag)
  {
    var w' := Resolved(w, infos);
    assert Holds(w.normal, w.normal.pending[0]) && MarchInTime(w, w.normal.pending[0], lag);
    forall t | Holds(w'.returning, t) ensures HomecomingInTime(w', t, lag) {
      if Holds(w.returning, t) { assert HomecomingInTime(w, t, lag); }
    }
  }

  lemma ReturnInTime(w: World, applied: seq<nat>, lag: nat)
    requires MayApply(w, applied) && MarchesInTime(w, lag) && HomecomingsInTime(w, lag)
    requires MarchesOk(w) && HomecomingsOk(w)
    ensures MarchesInTime(Returned(w, applied), lag) && HomecomingsInTime(Returned(w, applied), lag)
  {
    var w' := Returned(w, applied);
    forall t | Holds(w'.normal, t) ensures MarchInTime(w', t, lag) {
      assert Holds(w.normal, t) && MarchInTime(w, t, lag);
    }
    forall t | Holds(w'.returning, t) ensures HomecomingInTime(w', t, lag) {
      assert Holds(w.returning, t) && HomecomingInTime(w, t, lag);
    }
  }

  /** Tickets that only move when due stay in time; so do all tickets while a prompt moment passes. */
  lemma SameAttacksInTime(w: World, w': World, lag: nat)
    requires MarchesInTime(w, lag) && HomecomingsInTime(w, lag) && w'.attacks == w.attacks
    requires forall t <- w'.normal.delayed :: t in w.normal.delayed && w'.normal.delayed[t] == w.normal.delayed[t]
    requires forall t <- w'.normal.pending ::
      t in w.normal.pending || (t in w.normal.delayed && w.normal.delayed[t] <= w.now)
    requires forall t <- w'.returning.delayed ::
      t in w.returning.delayed && w'.returning.delayed[t] == w.returning.delayed[t]
    requires forall t <- w'.returning.pending ::
      t in w.returning.pending || (t in w.returning.delayed && w.returning.delayed[t] <= w.now)
    requires w'.now == w.now || (w'.normal == w.normal && w'.returning == w.returning && InTimeUntil(w, w'.now, lag))
    ensures MarchesInTime(w', lag) && HomecomingsInTime(w', lag)
  {
    forall t | Holds(w'.normal, t) ensures MarchInTime(w', t, lag) {
      assert Holds(w.normal, t) && MarchInTime(w, t, lag);
    }
    forall t | Holds(w'.returning, t) ensures HomecomingInTime(w', t, lag) {
      assert Holds(w.returning, t) && HomecomingInTime(w, t, lag);
    }
  }

  predicate InTimeUntil(w: World, now: int, lag: nat) {
    && w.normal.pending == [] && w.returning.pending == []
    && (forall t <- w.normal.delayed :: now <= w.normal.delayed[t] + lag)
    && (forall t <- w.returning.delayed :: now <= w.returning.delayed[t] + lag)
  }

  lemma NextInTime(infos: seq<UnitInfo>, w: World, e: Event, lag: nat)
    requires Running(w) && MarchesInTime(w, lag) && HomecomingsInTime(w, lag)
    requires Enabled(w, e) && Prompt(w, e, lag)
    ensures MarchesInTime(Next(infos, w, e), lag) && HomecomingsInTime(Next(infos, w, e), lag)
  {
    match e
    case Launch(av, dv, wanted, travel, truce) => LaunchInTime(w, av, dv, wanted, travel, truce, lag);
    case Resolve =>
      if w.normal.pending != [] {
        ResolveMarchesInTime(infos, w, lag);
        ResolveHomecomingsInTime(infos, w, lag);
      }
    case Return(applied) => ReturnInTime(w, applied, lag);
    case MoveNormal(listing) =>
      MoveIsDue(w.normal, listing, w.now);
      SameAttacksInTime(w, Next(infos, w, e), lag);
    case MoveReturning(listing) =>
      MoveIsDue(w.returning, listing, w.now);
      SameAttacksInTime(w, Next(infos, w, e), lag);
    case Adjust(_, _, _) => SameAttacksInTime(w, Next(infos, w, e), lag);
    case Found(_, _) => SameAttacksInTime(w, Next(infos, w, e), lag);
    case Tick(_) => SameAttacksInTime(w, Next(infos, w, e), lag);
  }

  lemma {:induction false} RunInTime(infos: seq<UnitInfo>, w: World, es: seq<Event>, lag: nat)
    requires Running(w) && MarchesInTime(w, lag) && HomecomingsInTime(w, lag)
    requires Legal(infos, w, es) && AllPrompt(infos, w, es, lag)
    ensures MarchesInTime(Run(infos, w, es), lag) && HomecomingsInTime(Run(infos, w, es), lag)
    decreases |es|
  {
    if es != [] {
      NextRuns(infos, w, es[0]);
      NextInTime(infos, w, es[0], lag);
      RunInTime(infos, Next(infos, w, es[0]), es[1..], lag);
    }
  }

  /** In a prompt run a battle is fought within one lag of the announced time, and a winning army whose stated names
      are all keys is home within two lags of the announced time and its way back. */
  lemma FoughtAndHomeInTime(infos: seq<UnitInfo>, w: World, es: seq<Event>, id: nat, lag: nat)
    requires AtPeace(w) && Legal(infos, w, es) && AllPrompt(infos, w, es, lag)
    requires id < |Run(infos, w, es).attacks|
    ensures var w' := Run(infos, w, es);
      var a := w'.attacks[id];
      && (w'.now > a.attackTime + lag ==> a.report.Some?)
      && (w'.now > a.attackTime + a.travel + 2 * lag && Labelled(a.sent) ==> a.troopHome)
  {
    AtPeaceHolds(w);
    RunRuns(infos, w, es);
    RunInTime(infos, w, es, lag);
    var w' := Run(infos, w, es);
    var a := w'.attacks[id];
    assert a in w'.attacks && AttackOk(w'.rows, a);
    if a.underAttack {
      assert Holds(w'.normal, MarchOf(a, id)) && MarchInTime(w', MarchOf(a, id), lag);
    } else if !a.troopHome && Labelled(a.sent) {
      assert Travelling(a);
      assert Holds(w'.returning, HomecomingOf(a, id)) && HomecomingInTime(w', HomecomingOf(a, id), lag);
    }
  }
}
