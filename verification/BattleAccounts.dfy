// Where units and resources are while attacks run: in villages, marching, coming home, dead or vanished.

module BattleAccounts {
  import opened Options
  import opened Stock
  import opened DelayedQueue
  import opened AttackReport
  import opened Battles

  /** Of type `k`, what attack `a` would bring back of what it sent ... */
  function Marching(a: Attack, k: Kind): int {
    if a.underAttack then AmountOf(Claimed(a.sent), k) else 0
  }

  /** ... what its survivors and their loot bring home ... */
  function Homeward(a: Attack, k: Kind): int {
    if Travelling(a)
    then AmountOf(Named(a.sent), k) - AmountOf(a.report.value.attackerDead, k) + AmountOf(a.stolen.value, k)
    else 0
  }

  /** ... and what its report counts as dead. */
  function Fallen(a: Attack, k: Kind): int {
    if a.report.Some?
    then AmountOf(a.report.value.attackerDead, k) + AmountOf(a.report.value.defenderDead, k) else 0
  }

  function Outside(attacks: seq<Attack>, k: Kind): int {
    if attacks == [] then 0
    else
      var a := attacks[|attacks| - 1];
      Outside(attacks[..|attacks| - 1], k) + Marching(a, k) + Homeward(a, k) + Fallen(a, k)
  }

  /** Everything of type `k`: in villages, marching, coming home, or dead. */
  function Worth(w: World, k: Kind): int {
    Tally(w.rows, Everywhere, k) + Outside(w.attacks, k)
  }

  lemma {:induction false} OutsideUpdate(attacks: seq<Attack>, i: nat, a: Attack, k: Kind)
    requires i < |attacks|
    ensures var b := attacks[i];
      Outside(attacks[i := a], k) == Outside(attacks, k)
        + (Marching(a, k) + Homeward(a, k) + Fallen(a, k)) - (Marching(b, k) + Homeward(b, k) + Fallen(b, k))
  {
    var n := |attacks| - 1;
    if i == n {
      assert attacks[i := a][..n] == attacks[..n];
    } else {
      assert attacks[i := a][..n] == attacks[..n][i := a];
      OutsideUpdate(attacks[..n], i, a, k);
    }
  }

  /** An accepted launch conserves type `k`, whichever of several entries under one id is credited in the end, if
      and only if every entry under the id of `k` claims what is deducted from the row of `k`, and nothing is
      deducted when there is none. */
  lemma LaunchConserves(w: World, av: nat, dv: nat, wanted: seq<Entry>, travel: nat, truce: bool, k: Kind)
    requires Keyed(w.rows) && MayLaunch(w, av, dv, Positive(wanted), truce)
    ensures var sent, rows := Positive(wanted), Launched(w, av, dv, wanted, travel, truce).rows;
      var deducted := Deducted(w.rows, av, sent, k);
      (forall applied :: Applies(sent, applied) ==>
         Tally(rows, Everywhere, k) + AmountOf(Applied(Claimed(sent), applied), k) == Tally(w.rows, Everywhere, k))
      <==> if exists e <- sent :: e.id == k then forall e <- sent :: e.id == k ==> e.count == deducted
           else deducted == 0
  {
    UpdateTally(w.rows, av, Named(Positive(wanted)), false, Everywhere, k);
    CreditedAlways(Positive(wanted), Deducted(w.rows, av, Positive(wanted), k), k);
  }

  /** Every way to apply the entries credits `n` of type `k` if and only if all entries under that id claim `n`,
      or there is none and `n` is zero. */
  lemma CreditedAlways(units: seq<Entry>, n: int, k: Kind)
    ensures (forall applied :: Applies(units, applied) ==> AmountOf(Applied(Claimed(units), applied), k) == n)
      <==> if exists e <- units :: e.id == k then forall e <- units :: e.id == k ==> e.count == n else n == 0
  {
    forall applied | Applies(units, applied) ensures CreditedAs(units, applied, k) {
      OneIsCredited(units, applied, k);
    }
    if e :| e in units && e.id == k && e.count != n {
      var applied := Crediting(units, e);
      assert CreditedAs(units, applied, k);
    }
    if !exists e <- units :: e.id == k {
      var applied := SomeApplied(units);
      assert CreditedAs(units, applied, k);
    }
  }

  /** The amount credited to type `k` is the count of the applied entry under that id. */
  ghost predicate CreditedAs(units: seq<Entry>, applied: seq<nat>, k: Kind)
    requires Applies(units, applied)
  {
    var amount := AmountOf(Applied(Claimed(units), applied), k);
    && ((forall e <- units :: e.id != k) ==> amount == 0)
    && ((exists e <- units :: e.id == k) ==> exists e <- units :: e.id == k && e.count == amount)
    && (forall j | 0 <= j < |applied| && units[applied[j]].id == k :: amount == units[applied[j]].count)
  }

  lemma OneIsCredited(units: seq<Entry>, applied: seq<nat>, k: Kind)
    requires Applies(units, applied)
    ensures CreditedAs(units, applied, k)
  {
    var values := Applied(Claimed(units), applied);
    if j :| 0 <= j < |applied| && units[applied[j]].id == k {
      AmountAt(values, j);
      assert units[applied[j]] in units;
    } else {
      AmountAbsent(values, k);
    }
  }

  /** There is always a way to apply each id once ... */
  lemma {:induction false} SomeApplied(units: seq<Entry>) returns (applied: seq<nat>)
    ensures Applies(units, applied)
  {
    if units == [] {
      applied := [];
    } else {
      var n := |units| - 1;
      applied := SomeApplied(units[..n]);
      Extend(units, applied);
      if !IdApplied(units, applied, units[n].id) {
        applied := applied + [n];
      }
    }
  }

  lemma Extend(units: seq<Entry>, applied: seq<nat>)
    requires units != [] && Applies(units[..|units| - 1], applied)
    ensures var n := |units| - 1;
      Applies(units, if IdApplied(units, applied, units[n].id) then applied else applied + [n])
  {
    var n := |units| - 1;
    var more := if IdApplied(units, applied, units[n].id) then applied else applied + [n];
    assert forall j :: 0 <= j < |applied| ==> more[j] == applied[j] && units[applied[j]] == units[..n][applied[j]];
    forall e | e in units ensures IdApplied(units, more, e.id) {
      ExtendCovers(units, applied, more, e);
    }
  }

  lemma ExtendCovers(units: seq<Entry>, applied: seq<nat>, more: seq<nat>, e: Entry)
    requires units != [] && Applies(units[..|units| - 1], applied) && e in units
    requires more == if IdApplied(units, applied, units[|units| - 1].id) then applied else applied + [|units| - 1]
    ensures IdApplied(units, more, e.id)
  {
    var n := |units| - 1;
    assert e in units[..n] || e == units[n];
    if e in units[..n] {
      assert IdApplied(units[..n], applied, e.id);
      var j :| 0 <= j < |applied| && units[..n][applied[j]].id == e.id;
      assert units[more[j]].id == e.id;
    } else if more != applied {
      assert units[more[|applied|]].id == e.id;
    }
  }

  /** ... and to apply a given entry. */
  lemma Crediting(units: seq<Entry>, e: Entry) returns (applied: seq<nat>)
    requires e in units
    ensures Applies(units, applied)
    ensures exists j :: 0 <= j < |applied| && units[applied[j]] == e
  {
    var before := SomeApplied(units);
    assert IdApplied(units, before, e.id);
    var i :| 0 <= i < |units| && units[i] == e;
    var j :| 0 <= j < |before| && units[before[j]].id == e.id;
    applied := before[j := i];
    SameIds(units, before, applied);
    assert units[applied[j]] == e;
  }

  lemma SameIds(units: seq<Entry>, before: seq<nat>, after: seq<nat>)
    requires Applies(units, before) && |after| == |before|
    requires forall j :: 0 <= j < |after| ==> after[j] < |units| && units[after[j]].id == units[before[j]].id
    ensures Applies(units, after)
  {
    forall x | x in units ensures IdApplied(units, after, x.id) {
      assert IdApplied(units, before, x.id);
      var j :| 0 <= j < |before| && units[before[j]].id == x.id;
      assert units[after[j]].id == x.id;
    }
  }

  /** With agreeing names a launch conserves every type. */
  lemma HonestLaunchConserves(w: World, av: nat, dv: nat, wanted: seq<Entry>, travel: nat, truce: bool, k: Kind)
    requires Keyed(w.rows) && WellNamed(Positive(wanted))
    ensures Worth(Launched(w, av, dv, wanted, travel, truce), k) == Worth(w, k)
  {
    var sent := Positive(wanted);
    if MayLaunch(w, av, dv, sent, truce) {
      var w' := Launched(w, av, dv, wanted, travel, truce);
      UpdateTally(w.rows, av, Named(sent), false, Everywhere, k);
      assert w'.attacks[..|w.attacks|] == w.attacks;
      NamesAgree(sent);
      if !Has(w.rows, av, k) {
        forall i | 0 <= i < |sent| ensures sent[i].name != k {
          assert sent[i] in sent && Available(w.rows, av, sent[i]);
        }
        AmountAbsent(Named(sent), k);
      }
    }
  }

  /** What was selected, and what died of it, is of types the village has rows for. */
  lemma SelectedExists(rows: seq<Row>, v: nat, sel: Selector, part: seq<Amount>, k: Kind)
    requires |part| == |Select(rows, v, sel)|
    requires forall i | 0 <= i < |part| :: part[i].kind == Select(rows, v, sel)[i].kind
    ensures Has(rows, v, k) || AmountOf(part, k) == 0
  {
    SelectMembers(rows, v, sel);
    if !Has(rows, v, k) {
      forall i | 0 <= i < |part| ensures part[i].kind != k {
        assert Select(rows, v, sel)[i] in Select(rows, v, sel);
      }
      AmountAbsent(part, k);
    }
  }

  lemma FightTally(w: World, t: March, infos: seq<UnitInfo>, k: Kind)
    requires Keyed(w.rows)
    ensures var dead, loot, rows := BattleOf(w, t, infos).defenderDead, LootOf(w, t, infos), AfterBattle(w, t, infos);
      && Tally(rows, Everywhere, k) == Tally(w.rows, Everywhere, k) - AmountOf(dead, k)
      && Tally(UpdateFrom(rows, t.defenderVillage, loot, false), Everywhere, k) ==
           Tally(w.rows, Everywhere, k) - AmountOf(dead, k) - AmountOf(loot, k)
  {
    var dead, loot, rows := BattleOf(w, t, infos).defenderDead, LootOf(w, t, infos), AfterBattle(w, t, infos);
    SelectedExists(w.rows, t.defenderVillage, Units, dead, k);
    UpdateTally(w.rows, t.defenderVillage, dead, false, Everywhere, k);
    UpdateKeepsKeys(w.rows, t.defenderVillage, dead, false);
    SelectedExists(rows, t.defenderVillage, Lootable(Capacity(Named(t.units))), loot, k);
    UpdateTally(rows, t.defenderVillage, loot, false, Everywhere, k);
  }

  /** A fight turns what marched into dead, survivors and loot. */
  lemma FightOutside(a: Attack, report: Report, loot: seq<Amount>, k: Kind)
    requires a.underAttack && a.report.None? && Claimed(a.sent) == Named(a.sent)
    requires !report.attackerWon ==> report.attackerDead == Named(a.sent)
    ensures var b := Fought(a, report, loot);
      Marching(b, k) + Homeward(b, k) + Fallen(b, k) == Marching(a, k) + Homeward(a, k) + Fallen(a, k)
        + AmountOf(report.defenderDead, k) + (if report.attackerWon then AmountOf(loot, k) else 0)
  {
  }

  lemma BattleConserves(infos: seq<UnitInfo>, w: World, k: Kind)
    requires Keyed(w.rows) && w.normal.pending != []
    requires var t := w.normal.pending[0];
      && t.attackId < |w.attacks| && Army(Named(t.units)) && WellNamed(t.units)
      && var a := w.attacks[t.attackId]; a.underAttack && a.report.None? && a.sent == t.units
    ensures Worth(Resolved(w, infos), k) == Worth(w, k)
  {
    var t := w.normal.pending[0];
    var a := w.attacks[t.attackId];
    var report, loot := BattleOf(w, t, infos), LootOf(w, t, infos);
    NamesAgree(t.units);
    AttackersDead(w, t, infos);
    FightTally(w, t, infos, k);
    FightOutside(a, report, loot, k);
    OutsideUpdate(w.attacks, t.attackId, Fought(a, report, loot), k);
  }

  lemma ResolveConserves(infos: seq<UnitInfo>, w: World, k: Kind)
    requires Sincere(w)
    ensures Worth(Resolved(w, infos), k) == Worth(w, k)
  {
    if w.normal.pending != [] {
      var t := w.normal.pending[0];
      assert Holds(w.normal, t);
      var a := w.attacks[t.attackId];
      assert a in w.attacks && AttackOk(w.rows, a) && WellNamed(a.sent);
      BattleConserves(infos, w, k);
    }
  }

  /// Coming home

  /** The attack whose ticket is next. */
  lemma NextHome(w: World)
    requires Running(w) && w.returning.pending != []
    ensures var t := w.returning.pending[0];
      && t.attackId < |w.attacks|
      && var a := w.attacks[t.attackId];
      && a in w.attacks && Travelling(a) && t == HomecomingOf(a, t.attackId) && AttackOk(w.rows, a)
      && (Recognized(t) <==> Labelled(a.sent))
  {
    var t := w.returning.pending[0];
    assert Holds(w.returning, t);
    var a := w.attacks[t.attackId];
    assert a in w.attacks && AttackOk(w.rows, a);
    RecognizedExactly(a, t.attackId);
  }

  /** What a recognized homecoming puts into a row of type `k`, given the entries the database applies. */
  function Credited(t: Homecoming, applied: seq<nat>, k: Kind): int
    requires Applies(t.units, applied)
  {
    AmountOf(t.stolen, k) + AmountOf(Applied(Left(t.units, t.casualties), applied), k)
  }

  /** What a homecoming does to each village, in any run: the attacker's gets the loot and the survivors of every
      type it has a row for, if the handler does not throw; the others get nothing. */
  lemma HomecomingGives(w: World, applied: seq<nat>, at: Place, k: Kind)
    requires Keyed(w.rows) && w.returning.pending != [] && MayApply(w, applied)
    ensures var t := w.returning.pending[0];
      Tally(Returned(w, applied).rows, at, k) == Tally(w.rows, at, k)
        + if Recognized(t) && Has(w.rows, t.attackerVillage, k) && (at.Everywhere? || at.village == t.attackerVillage)
          then Credited(t, applied, k) else 0
  {
    var t := w.returning.pending[0];
    var looted := UpdateFrom(w.rows, t.attackerVillage, t.stolen, true);
    UpdateKeepsKeys(w.rows, t.attackerVillage, t.stolen, true);
    UpdateTally(w.rows, t.attackerVillage, t.stolen, true, at, k);
    UpdateTally(looted, t.attackerVillage, Applied(Left(t.units, t.casualties), applied), true, at, k);
  }

  /** How the total of a type changes with a homecoming, in any run. */
  lemma ReturnWorth(w: World, applied: seq<nat>, k: Kind)
    requires Running(w) && w.returning.pending != [] && MayApply(w, applied)
    ensures var t := w.returning.pending[0];
      && t.attackId < |w.attacks|
      && Worth(Returned(w, applied), k) == Worth(w, k) +
           if !Recognized(t) then 0
           else (if Has(w.rows, t.attackerVillage, k) then Credited(t, applied, k) else 0)
                - Homeward(w.attacks[t.attackId], k)
  {
    NextHome(w);
    HomecomingGives(w, applied, Everywhere, k);
    var t := w.returning.pending[0];
    OutsideUpdate(w.attacks, t.attackId, Home(w.attacks[t.attackId]), k);
  }

  /** With agreeing names, what is credited is the loot and the survivors, whatever the database applies. */
  lemma HonestCredit(w: World, applied: seq<nat>, k: Kind)
    requires Running(w) && w.returning.pending != [] && MayApply(w, applied)
    requires var t := w.returning.pending[0]; t.attackId < |w.attacks| && WellNamed(w.attacks[t.attackId].sent)
    ensures var t := w.returning.pending[0];
      var a := w.attacks[t.attackId];
      && Recognized(t)
      && Credited(t, applied, k) == Homeward(a, k)
      && (!Has(w.rows, t.attackerVillage, k) ==> Homeward(a, k) == AmountOf(t.stolen, k))
  {
    NextHome(w);
    var t := w.returning.pending[0];
    var a := w.attacks[t.attackId];
    var dead := a.report.value.attackerDead;
    TaggedAgrees(a.sent, dead);
    Survivors(a.sent, dead, k);
    AppliedAmount(a.sent, t.casualties, applied, k);
    if !Has(w.rows, t.attackerVillage, k) {
      NoneWithoutRow(w.rows, a, k);
    }
  }

  lemma AppliedAmount(units: seq<Entry>, casualties: seq<Amount>, applied: seq<nat>, k: Kind)
    requires WellNamed(units) && OneEach(Named(units)) && Applies(units, applied)
    ensures AmountOf(Applied(Left(units, casualties), applied), k) == AmountOf(Left(units, casualties), k)
  {
    forall i | 0 <= i < |units| ensures units[i] in units && units[i].id == Named(units)[i].kind {
      assert units[i] in units;
    }
    AppliedOneEach(units, Left(units, casualties), applied, k);
  }

  /** Where the ids are distinct, the applied entries are all entries. */
  lemma AppliedOneEach(units: seq<Entry>, values: seq<Amount>, applied: seq<nat>, k: Kind)
    requires Applies(units, applied) && OneEach(values) && |values| == |units|
    requires forall i | 0 <= i < |units| :: values[i].kind == units[i].id
    ensures AmountOf(Applied(values, applied), k) == AmountOf(values, k)
  {
    if i :| 0 <= i < |units| && units[i].id == k {
      assert IdApplied(units, applied, units[i].id);
      var j :| 0 <= j < |applied| && units[applied[j]].id == k;
      AmountAt(Applied(values, applied), j);
      AmountAt(values, i);
    } else {
      AmountAbsent(values, k);
      AmountAbsent(Applied(values, applied), k);
    }
  }

  /** Without a row for type `k` an attack sent none and lost none of it. */
  lemma NoneWithoutRow(rows: seq<Row>, a: Attack, k: Kind)
    requires AttackOk(rows, a) && WellNamed(a.sent) && a.report.Some? && !Has(rows, a.attackerVillage, k)
    ensures AmountOf(Named(a.sent), k) == 0 && AmountOf(a.report.value.attackerDead, k) == 0
  {
    forall i | 0 <= i < |a.sent| ensures a.sent[i].name != k {
      assert a.sent[i] in a.sent;
    }
    AmountAbsent(Named(a.sent), k);
    PartAmount(a.report.value.attackerDead, Named(a.sent), k);
  }

  /** The exact condition, in any run: a homecoming conserves type `k` if and only if the handler throws, or what is
      credited is what was on the way. */
  lemma ReturnConserves(w: World, applied: seq<nat>, k: Kind)
    requires Running(w) && w.returning.pending != [] && MayApply(w, applied)
    ensures var t := w.returning.pending[0];
      && t.attackId < |w.attacks|
      && var a := w.attacks[t.attackId];
      Worth(Returned(w, applied), k) == Worth(w, k) <==>
        || !Labelled(a.sent)
        || (if Has(w.rows, t.attackerVillage, k) then Credited(t, applied, k) else 0) == Homeward(a, k)
  {
    NextHome(w);
    ReturnWorth(w, applied, k);
  }

  /** If the names of this attack agree, that is to say: if and only if it carries no loot of the type or the
      attacker's village has a row for it. */
  lemma HonestReturnConserves(w: World, applied: seq<nat>, k: Kind)
    requires Running(w) && w.returning.pending != [] && MayApply(w, applied)
    requires var t := w.returning.pending[0]; t.attackId < |w.attacks| && WellNamed(w.attacks[t.attackId].sent)
    ensures var t := w.returning.pending[0];
      var lost := if Has(w.rows, t.attackerVillage, k) then 0 else AmountOf(t.stolen, k);
      && Recognized(t)
      && Worth(Returned(w, applied), k) == Worth(w, k) - lost
      && (Worth(Returned(w, applied), k) == Worth(w, k) <==>
            Has(w.rows, t.attackerVillage, k) || AmountOf(t.stolen, k) == 0)
  {
    HonestCredit(w, applied, k);
    ReturnWorth(w, applied, k);
  }

  /// Over runs

  /** Loot of type `k` that this event brings to a village without a row for it. */
  function LostNow(w: World, e: Event, k: Kind): int {
    if !e.Return? || w.returning.pending == [] then 0
    else
      var t := w.returning.pending[0];
      if Recognized(t) && !Has(w.rows, t.attackerVillage, k) then AmountOf(t.stolen, k) else 0
  }

  function ChangedNow(e: Event, k: Kind): int {
    if e.Adjust? && e.kind == k then e.change else 0
  }

  /** All loot of type `k` a run loses that way, and all that other services add. */
  ghost function Vanished(infos: seq<UnitInfo>, w: World, es: seq<Event>, k: Kind): int
    requires Legal(infos, w, es)
    decreases |es|
  {
    if es == [] then 0 else LostNow(w, es[0], k) + Vanished(infos, Next(infos, w, es[0]), es[1..], k)
  }

  function Drift(es: seq<Event>, k: Kind): int {
    if es == [] then 0 else ChangedNow(es[0], k) + Drift(es[1..], k)
  }

  lemma StepAccounts(infos: seq<UnitInfo>, w: World, e: Event, k: Kind)
    requires Sincere(w) && Enabled(w, e) && Honest(e)
    ensures Worth(Next(infos, w, e), k) == Worth(w, k) + ChangedNow(e, k) - LostNow(w, e, k)
  {
    match e
    case Launch(av, dv, wanted, travel, truce) => HonestLaunchConserves(w, av, dv, wanted, travel, truce, k);
    case MoveNormal(_) =>
    case MoveReturning(_) =>
    case Tick(_) =>
    case Found(_, _) =>
    case Adjust(v, y, n) => AdjustTally(w.rows, v, y, n, Everywhere, k);
    case Resolve => ResolveConserves(infos, w, k);
    case Return(applied) =>
      if w.returning.pending != [] {
        NextHome(w);
        HonestReturnConserves(w, applied, k);
      }
  }

  /** Over every run of honest launches, whatever other services do to the stock in between: of each type what is in
      villages, marching, coming home and dead, plus what vanished, is what there was plus what the others
      added. */
  lemma {:induction false} Conservation(infos: seq<UnitInfo>, w: World, es: seq<Event>, k: Kind)
    requires Sincere(w) && Legal(infos, w, es) && AllHonest(es)
    ensures Worth(Run(infos, w, es), k) + Vanished(infos, w, es, k) == Worth(w, k) + Drift(es, k)
    decreases |es|
  {
    if es != [] {
      assert es[0] in es;
      StepAccounts(infos, w, es[0], k);
      NextSincere(infos, w, es[0]);
      Conservation(infos, Next(infos, w, es[0]), es[1..], k);
    }
  }

  /** Every homecoming of the run that carries loot of type `k` finds a row for it. */
  ghost predicate NothingVanishes(infos: seq<UnitInfo>, w: World, es: seq<Event>, k: Kind)
    requires Legal(infos, w, es)
    decreases |es|
  {
    es == [] || (LostNow(w, es[0], k) == 0 && NothingVanishes(infos, Next(infos, w, es[0]), es[1..], k))
  }

  lemma LostNonNegative(w: World, e: Event, k: Kind)
    requires Inv(w)
    ensures LostNow(w, e, k) >= 0
    ensures k.Unit? ==> LostNow(w, e, k) == 0
  {
    if w.returning.pending != [] {
      NextHome(w);
      var a := w.attacks[w.returning.pending[0].attackId];
      assert SoundAttack(a);
      AmountsNonNegative(a.stolen.value, k);
      if k.Unit? {
        AmountAbsent(a.stolen.value, k);
      }
    }
  }

  lemma {:induction false} VanishedExactly(infos: seq<UnitInfo>, w: World, es: seq<Event>, k: Kind)
    requires Inv(w) && Legal(infos, w, es) && AllHonest(es) && AllGentle(infos, w, es)
    ensures Vanished(infos, w, es, k) >= 0
    ensures Vanished(infos, w, es, k) == 0 <==> NothingVanishes(infos, w, es, k)
    ensures k.Unit? ==> Vanished(infos, w, es, k) == 0
    decreases |es|
  {
    if es != [] {
      assert es[0] in es;
      LostNonNegative(w, es[0], k);
      NextKeeps(infos, w, es[0]);
      VanishedExactly(infos, Next(infos, w, es[0]), es[1..], k);
    }
  }

  /** The exact condition over such runs without negative counts: nothing is lost if and only if every army that came
      home with loot of the type found a row there at that time. Units never are. */
  lemma ConservedExactly(infos: seq<UnitInfo>, w: World, es: seq<Event>, k: Kind)
    requires AtPeace(w) && Legal(infos, w, es) && AllHonest(es) && AllGentle(infos, w, es)
    ensures var w' := Run(infos, w, es);
      && (Worth(w', k) == Worth(w, k) + Drift(es, k) <==> NothingVanishes(infos, w, es, k))
      && (k.Unit? ==> Worth(w', k) == Worth(w, k) + Drift(es, k))
  {
    AtPeaceHolds(w);
    Conservation(infos, w, es, k);
    VanishedExactly(infos, w, es, k);
  }
}
