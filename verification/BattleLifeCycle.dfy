// The phases of an attack and the time they take, in every run, whatever other services do to the stock.

module BattleLifeCycle {
  import opened Options
  import opened Stock
  import opened DelayedQueue
  import opened AttackReport
  import opened Battles

  /** In every run, each attack is in exactly one phase, told by its flags and its tickets alike; only the
      return ticket of an attack with a stated name that is no key can be missing. */
  lemma Phases(infos: seq<UnitInfo>, w: World, es: seq<Event>, id: nat)
    requires AtPeace(w) && Legal(infos, w, es) && id < |Run(infos, w, es).attacks|
    ensures var w' := Run(infos, w, es);
      var a := w'.attacks[id];
      var marches := exists t :: Holds(w'.normal, t) && t.attackId == id;
      var homecomings := exists t :: Holds(w'.returning, t) && t.attackId == id;
      && (marches <==> a.underAttack)
      && (homecomings ==> !a.underAttack && !a.troopHome)
      && (!a.underAttack && !a.troopHome && Labelled(a.sent) ==> homecomings)
      && !(a.underAttack && a.troopHome)
      && (forall t :: Holds(w'.normal, t) && t.attackId == id ==> t == MarchOf(a, id))
      && Single(w'.normal) && Single(w'.returning)
      && (a.report.Some? <==> !a.underAttack)
      && (a.attackerWon <==> a.troopHome && a.report.Some? && a.report.value.attackerWon)
      && (a.stolen.Some? <==> a.report.Some? && a.report.value.attackerWon)
  {
    AtPeaceHolds(w);
    RunRuns(infos, w, es);
    var w' := Run(infos, w, es);
    var a := w'.attacks[id];
    assert a in w'.attacks && AttackOk(w'.rows, a);
    if a.underAttack {
      assert Holds(w'.normal, MarchOf(a, id));
    } else if !a.troopHome && Labelled(a.sent) {
      assert Holds(w'.returning, HomecomingOf(a, id));
    }
  }

  /** An army whose ticket is taken up comes home if and only if each name it states is one of its keys;
      otherwise the handler throws, the ticket is gone and the village gets nothing. */
  lemma ComesHomeExactly(w: World, applied: seq<nat>)
    requires Running(w) && w.returning.pending != [] && MayApply(w, applied)
    ensures var t := w.returning.pending[0];
      var w' := Returned(w, applied);
      && t.attackId < |w.attacks|
      && (w'.attacks[t.attackId].troopHome <==> Labelled(w.attacks[t.attackId].sent))
      && (!Labelled(w.attacks[t.attackId].sent) ==> w'.rows == w.rows && w'.attacks == w.attacks)
      && !exists x :: Holds(w'.returning, x) && x.attackId == t.attackId
  {
    var t := w.returning.pending[0];
    assert Holds(w.returning, t);
    var a := w.attacks[t.attackId];
    assert a in w.attacks && AttackOk(w.rows, a);
    RecognizedExactly(a, t.attackId);
    var w' := Returned(w, applied);
    assert forall x :: Holds(w'.returning, x) ==> Holds(w.returning, x) && x != t;
  }

  /** `b` may follow `a`: a fought battle stays as it was reported, and home is final. */
  predicate Settled(a: Attack, b: Attack) {
    !a.underAttack ==>
      && !b.underAttack && b.report == a.report && b.stolen == a.stolen
      && (a.troopHome ==> b == a)
  }

  lemma StepSettles(infos: seq<UnitInfo>, w: World, e: Event, id: nat)
    requires Running(w) && Enabled(w, e) && id < |w.attacks|
    ensures id < |Next(infos, w, e).attacks| && Settled(w.attacks[id], Next(infos, w, e).attacks[id])
  {
    if e.Resolve? && w.normal.pending != [] {
      assert Holds(w.normal, w.normal.pending[0]);
    }
    if e.Return? && w.returning.pending != [] {
      assert Holds(w.returning, w.returning.pending[0]);
    }
  }

  /** A battle is fought once: in every run its report and loot never change, and home is final. */
  lemma {:induction false} ResolvedOnce(infos: seq<UnitInfo>, w: World, es: seq<Event>, id: nat)
    requires Running(w) && Legal(infos, w, es) && id < |w.attacks|
    ensures id < |Run(infos, w, es).attacks| && Settled(w.attacks[id], Run(infos, w, es).attacks[id])
    decreases |es|
  {
    if es != [] {
      NextRuns(infos, w, es[0]);
      StepSettles(infos, w, es[0], id);
      ResolvedOnce(infos, Next(infos, w, es[0]), es[1..], id);
    }
  }

  /** One move takes up to 21 due marches, and another up to 21 due homecomings. */
  lemma TwentyOneMove(infos: seq<UnitInfo>, w: World, e: Event)
    requires Enabled(w, e) && (e.MoveNormal? || e.MoveReturning?)
    ensures var w' := Next(infos, w, e);
      var marches, homecomings := |DueSet(w.normal.delayed, w.now)|, |DueSet(w.returning.delayed, w.now)|;
      if e.MoveNormal? then
        |w'.normal.pending| == |w.normal.pending| + (if marches <= 21 then marches else 21)
      else
        |w'.returning.pending| == |w.returning.pending| + (if homecomings <= 21 then homecomings else 21)
  {
    if e.MoveNormal? {
      MoveTakesAllDue(w.normal, MOVE_LIMIT, e.marches, w.now);
    } else {
      MoveTakesAllDue(w.returning, MOVE_LIMIT, e.homecomings, w.now);
    }
  }

  /// Time

  /** Tickets are scored no earlier than their journey ends, and only move when due. */
  predicate MarchOnTime(w: World, t: March) {
    t.attackId < |w.attacks| ==>
      var arrival := w.attacks[t.attackId].attackTime;
      && (t in w.normal.delayed ==> arrival <= w.normal.delayed[t])
      && (t in w.normal.pending ==> arrival <= w.now)
  }

  predicate HomecomingOnTime(w: World, t: Homecoming) {
    t.attackId < |w.attacks| ==>
      var arrival := w.attacks[t.attackId].attackTime + w.attacks[t.attackId].travel;
      && (t in w.returning.delayed ==> arrival <= w.returning.delayed[t])
      && (t in w.returning.pending ==> arrival <= w.now)
  }

  predicate AttackOnTime(a: Attack, now: int) {
    && (!a.underAttack ==> a.attackTime <= now)
    && (a.attackerWon ==> a.attackTime + a.travel <= now)
  }

  ghost predicate OnTime(w: World) {
    && (forall t :: Holds(w.normal, t) ==> MarchOnTime(w, t))
    && (forall t :: Holds(w.returning, t) ==> HomecomingOnTime(w, t))
    && forall a <- w.attacks :: AttackOnTime(a, w.now)
  }

  lemma LaunchOnTime(w: World, av: nat, dv: nat, wanted: seq<Entry>, travel: nat, truce: bool)
    requires OnTime(w) && MarchesOk(w) && HomecomingsOk(w)
    ensures OnTime(Launched(w, av, dv, wanted, travel, truce))
  {
    var w' := Launched(w, av, dv, wanted, travel, truce);
    forall t | Holds(w'.normal, t) ensures MarchOnTime(w', t) {
      if Holds(w.normal, t) { assert MarchOnTime(w, t); }
    }
    forall t | Holds(w'.returning, t) ensures HomecomingOnTime(w', t) {
      assert Holds(w.returning, t) && HomecomingOnTime(w, t);
    }
  }

  lemma ResolveOnTime(infos: seq<UnitInfo>, w: World)
    requires OnTime(w) && MarchesOk(w) && HomecomingsOk(w) && AttacksOk(w) && w.normal.pending != []
    ensures OnTime(Resolved(w, infos))
  {
    var t0 := w.normal.pending[0];
    var w' := Resolved(w, infos);
    assert Holds(w.normal, t0) && MarchOnTime(w, t0);
    assert w.attacks[t0.attackId] in w.attacks && AttackOk(w.rows, w.attacks[t0.attackId]);
    forall t | Holds(w'.normal, t) ensures MarchOnTime(w', t) {
      assert Holds(w.normal, t) && MarchOnTime(w, t);
    }
    ResolveHomecomingsOnTime(infos, w);
    forall a | a in w'.attacks ensures AttackOnTime(a, w'.now) {
      if a != w'.attacks[t0.attackId] { assert a in w.attacks; }
    }
  }

  lemma ResolveHomecomingsOnTime(infos: seq<UnitInfo>, w: World)
    requires MarchesOk(w) && HomecomingsOk(w) && w.normal.pending != [] && MarchOnTime(w, w.normal.pending[0])
    requires forall t :: Holds(w.returning, t) ==> HomecomingOnTime(w, t)
    ensures var w' := Resolved(w, infos);
      forall t :: Holds(w'.returning, t) ==> HomecomingOnTime(w', t)
  {
    var w' := Resolved(w, infos);
    assert Holds(w.normal, w.normal.pending[0]);
    forall t | Holds(w'.returning, t) ensures HomecomingOnTime(w', t) {
      if Holds(w.returning, t) { assert HomecomingOnTime(w, t); }
    }
  }

  lemma ReturnOnTime(w: World, applied: seq<nat>)
    requires MayApply(w, applied) && OnTime(w) && MarchesOk(w) && HomecomingsOk(w) && w.returning.pending != []
    ensures OnTime(Returned(w, applied))
  {
    var t0 := w.returning.pending[0];
    var w' := Returned(w, applied);
    assert Holds(w.returning, t0) && HomecomingOnTime(w, t0);
    forall t | Holds(w'.normal, t) ensures MarchOnTime(w', t) {
      assert Holds(w.normal, t) && MarchOnTime(w, t);
    }
    forall t | Holds(w'.returning, t) ensures HomecomingOnTime(w', t) {
      assert Holds(w.returning, t) && HomecomingOnTime(w, t);
    }
    forall a | a in w'.attacks ensures AttackOnTime(a, w'.now) {
      if a != w'.attacks[t0.attackId] { assert a in w.attacks; }
    }
  }

  lemma MoveOnTime(w: World, w': World)
    requires OnTime(w) && w'.attacks == w.attacks && w'.now >= w.now
    requires forall t <- w'.normal.delayed :: t in w.normal.delayed && w'.normal.delayed[t] == w.normal.delayed[t]
    requires forall t <- w'.normal.pending ::
      t in w.normal.pending || (t in w.normal.delayed && w.normal.delayed[t] <= w'.now)
    requires forall t <- w'.returning.delayed ::
      t in w.returning.delayed && w'.returning.delayed[t] == w.returning.delayed[t]
    requires forall t <- w'.returning.pending ::
      t in w.returning.pending || (t in w.returning.delayed && w.returning.delayed[t] <= w'.now)
    ensures OnTime(w')
  {
    forall t | Holds(w'.normal, t) ensures MarchOnTime(w', t) {
      assert Holds(w.normal, t) && MarchOnTime(w, t);
    }
    forall t | Holds(w'.returning, t) ensures HomecomingOnTime(w', t) {
      assert Holds(w.returning, t) && HomecomingOnTime(w, t);
    }
  }

  lemma NextOnTime(infos: seq<UnitInfo>, w: World, e: Event)
    requires Running(w) && OnTime(w) && Enabled(w, e)
    ensures OnTime(Next(infos, w, e))
  {
    match e
    case Launch(av, dv, wanted, travel, truce) => LaunchOnTime(w, av, dv, wanted, travel, truce);
    case Resolve => if w.normal.pending != [] { ResolveOnTime(infos, w); }
    case Return(applied) => if w.returning.pending != [] { ReturnOnTime(w, applied); }
    case MoveNormal(listing) =>
      MoveIsDue(w.normal, listing, w.now);
      MoveOnTime(w, Next(infos, w, e));
    case MoveReturning(listing) =>
      MoveIsDue(w.returning, listing, w.now);
      MoveOnTime(w, Next(infos, w, e));
    case Adjust(_, _, _) => MoveOnTime(w, Next(infos, w, e));
    case Found(_, _) => MoveOnTime(w, Next(infos, w, e));
    case Tick(_) => MoveOnTime(w, Next(infos, w, e));
  }

  lemma {:induction false} RunOnTime(infos: seq<UnitInfo>, w: World, es: seq<Event>)
    requires Running(w) && OnTime(w) && Legal(infos, w, es)
    ensures OnTime(Run(infos, w, es))
    decreases |es|
  {
    if es != [] {
      NextRuns(infos, w, es[0]);
      NextOnTime(infos, w, es[0]);
      RunOnTime(infos, Next(infos, w, es[0]), es[1..]);
    }
  }

  /** In no run is a battle fought before its attack time, or an army home before it travelled back. */
  lemma NeverEarly(infos: seq<UnitInfo>, w: World, es: seq<Event>, id: nat)
    requires AtPeace(w) && Legal(infos, w, es) && id < |Run(infos, w, es).attacks|
    ensures var w' := Run(infos, w, es);
      var a := w'.attacks[id];
      && (a.report.Some? ==> a.attackTime <= w'.now)
      && (a.attackerWon ==> a.attackTime + a.travel <= w'.now)
  {
    AtPeaceHolds(w);
    RunRuns(infos, w, es);
    RunOnTime(infos, w, es);
    var w' := Run(infos, w, es);
    assert w'.attacks[id] in w'.attacks && AttackOk(w'.rows, w'.attacks[id]);
    assert AttackOnTime(w'.attacks[id], w'.now);
  }
}
