// How often a transfer can change, and that answers bring it to an end.

module MkcTermination {
  import opened Options
  import opened MkcTransfers

  /** How many more times a row can change. */
  function Rank(t: Transfer): int {
    match t.status
    case Pending => 12 - t.retries
    case InProgress => 6 - t.retries
    case _ => 0
  }

  predicate Ages(t: Transfer, t': Transfer) {
    t' == t || (Rank(t') < Rank(t) && t.Live())
  }

  lemma ProcessAges(w: World, p: Pick)
    requires p.id < |w.db.transfers| && Process(w, p).Some?
    requires w.db.transfers[p.id].retries <= MAX_TRANSFER_RETRIES
    ensures Ages(w.db.transfers[p.id], Process(w, p).value.db.transfers[p.id])
  {
  }

  lemma {:induction false} BatchAges(w: World, picks: seq<Pick>, id: nat)
    requires TableOk(w.db.transfers) && id < |w.db.transfers|
    requires forall p <- picks :: p.id < |w.db.transfers|
    ensures |Batch(w, picks).db.transfers| == |w.db.transfers|
    ensures Ages(w.db.transfers[id], Batch(w, picks).db.transfers[id])
    decreases |picks|
  {
    if picks != [] && Process(w, picks[0]).Some? {
      assert RowOk(w.db.transfers[picks[0].id]);
      ProcessTable(w, picks[0]);
      ProcessFrame(w, picks[0]);
      ProcessAges(w, picks[0]);
      BatchAges(Process(w, picks[0]).value, picks[1..], id);
    }
  }

  lemma NextAges(w: World, e: Event, id: nat)
    requires TableOk(w.db.transfers) && Enabled(w, e)
    requires id < |w.db.transfers|
    ensures id < |Next(w, e).db.transfers|
    ensures Ages(w.db.transfers[id], Next(w, e).db.transfers[id])
  {
    if e.RunBatch? {
      BatchAges(w, e.picks, id);
    }
  }

  /** The number of events of a run that change row `id` once it exists. */
  ghost function Changes(w: World, es: seq<Event>, id: nat): nat
    requires Legal(w, es)
    decreases |es|
  {
    if es == [] then 0
    else
      var w' := Next(w, es[0]);
      var moved := id < |w.db.transfers| && id < |w'.db.transfers| && w.db.transfers[id] != w'.db.transfers[id];
      (if moved then 1 else 0) + Changes(w', es[1..], id)
  }

  lemma {:induction false} ChangesBounded(w: World, es: seq<Event>, id: nat)
    requires TableOk(w.db.transfers) && Legal(w, es)
    ensures Changes(w, es, id) <= if id < |w.db.transfers| then Rank(w.db.transfers[id]) else 12
    decreases |es|
  {
    if id < |w.db.transfers| {
      assert RowOk(w.db.transfers[id]);
    }
    if es != [] {
      var w' := Next(w, es[0]);
      NextTable(w, es[0]);
      ChangesBounded(w', es[1..], id);
      if id < |w.db.transfers| {
        NextAges(w, es[0], id);
      } else if id < |w'.db.transfers| {
        assert RowOk(w'.db.transfers[id]);
      }
    }
  }

  /** In any run, no transfer changes more than twelve times or is retried more than five times in a row. */
  lemma TransferTerminates(init: Wallets, es: seq<Event>, id: nat)
    requires Legal(Start(init), es)
    ensures Changes(Start(init), es, id) <= 12
    ensures id < |Run(Start(init), es).db.transfers| ==>
      Run(Start(init), es).db.transfers[id].retries <= MAX_TRANSFER_RETRIES
  {
    ChangesBounded(Start(init), es, id);
    RunTable(Start(init), es);
    var w := Run(Start(init), es);
    assert id < |w.db.transfers| ==> RowOk(w.db.transfers[id]);
  }

  /** A finished or failed transfer never changes again. */
  lemma {:induction false} FinalStates(w: World, es: seq<Event>, id: nat)
    requires TableOk(w.db.transfers) && Legal(w, es)
    requires id < |w.db.transfers| && !w.db.transfers[id].Live()
    ensures id < |Run(w, es).db.transfers| && Run(w, es).db.transfers[id] == w.db.transfers[id]
    decreases |es|
  {
    if es != [] {
      NextTable(w, es[0]);
      NextAges(w, es[0], id);
      FinalStates(Next(w, es[0]), es[1..], id);
    }
  }

  /// Progress

  /** An answered step takes a live transfer further. */
  lemma StepsDown(w: World, p: Pick)
    requires p.id < |w.db.transfers| && Process(w, p).Some? && w.db.transfers[p.id].Live()
    requires w.db.transfers[p.id].retries <= MAX_TRANSFER_RETRIES && !p.answer.Unconfirmed?
    ensures Rank(Process(w, p).value.db.transfers[p.id]) < Rank(w.db.transfers[p.id])
  {
  }

  /** The batch answers for row `id`. */
  predicate Answers(e: Event, id: nat) {
    e.RunBatch? && exists p <- e.picks :: p.id == id && !p.answer.Unconfirmed?
  }

  ghost function Answered(es: seq<Event>, id: nat): nat {
    if es == [] then 0 else (if Answers(es[0], id) then 1 else 0) + Answered(es[1..], id)
  }

  /** A batch leaves the rows it does not pick alone. */
  lemma {:induction false} Unpicked(w: World, picks: seq<Pick>, id: nat)
    requires id < |w.db.transfers| && forall p <- picks :: p.id < |w.db.transfers| && p.id != id
    ensures id < |Batch(w, picks).db.transfers| && Batch(w, picks).db.transfers[id] == w.db.transfers[id]
    decreases |picks|
  {
    if picks != [] && Process(w, picks[0]).Some? {
      ProcessFrame(w, picks[0]);
      Unpicked(Process(w, picks[0]).value, picks[1..], id);
    }
  }

  lemma {:induction false} BatchStepsDown(init: Wallets, w: World, picks: seq<Pick>, id: nat)
    requires Inv(init, w) && Selectable(w.db.transfers, picks) && Answers(RunBatch(picks), id)
    ensures id < |w.db.transfers| == |Batch(w, picks).db.transfers|
    ensures Rank(Batch(w, picks).db.transfers[id]) < Rank(w.db.transfers[id])
    decreases |picks|
  {
    var p := picks[0];
    ProcessKeeps(init, w, p);
    ProcessFrame(w, p);
    BatchKeeps(init, w, picks);
    BatchPersists(w, picks);
    var w' := Process(w, p).value;
    assert Selectable(w'.db.transfers, picks[1..]);
    BatchKeeps(init, w', picks[1..]);
    if p.id == id {
      assert GoodRow(w.db.wallets, w.db.transfers[id]);
      forall q | q in picks[1..] ensures q.id != id {
        var i :| 0 <= i < |picks[1..]| && picks[1..][i] == q;
        assert picks[0].id != picks[i + 1].id;
      }
      Unpicked(w', picks[1..], id);
      var q :| q in picks && q.id == id && !q.answer.Unconfirmed?;
      assert q == p;
      StepsDown(w, p);
    } else {
      var q :| q in picks && q.id == id && !q.answer.Unconfirmed?;
      assert q in picks[1..];
      BatchStepsDown(init, w', picks[1..], id);
    }
  }

  lemma TableOfInv(init: Wallets, w: World)
    requires Inv(init, w)
    ensures TableOk(w.db.transfers)
  {
    forall t | t in w.db.transfers ensures RowOk(t) {
      assert GoodRow(w.db.wallets, t);
    }
  }

  /** Every answer costs a live transfer at least one step of its rank. */
  lemma {:induction false} AnswersBound(init: Wallets, w: World, es: seq<Event>, id: nat)
    requires Inv(init, w) && Legal(w, es) && AllBearable(w, es)
    requires id < |Run(w, es).db.transfers| && Run(w, es).db.transfers[id].Live()
    ensures Answered(es, id) + Rank(Run(w, es).db.transfers[id])
      <= if id < |w.db.transfers| then Rank(w.db.transfers[id]) else 12
    decreases |es|
  {
    TableOfInv(init, w);
    if id < |w.db.transfers| {
      assert RowOk(w.db.transfers[id]);
    }
    if es != [] {
      var w' := Next(w, es[0]);
      NextKeeps(init, w, es[0]);
      AnswersBound(init, w', es[1..], id);
      if id < |w.db.transfers| {
        NextAges(w, es[0], id);
        if Answers(es[0], id) {
          BatchStepsDown(init, w, es[0].picks, id);
        }
      } else {
        TableOfInv(init, w');
        assert id < |w'.db.transfers| ==> RowOk(w'.db.transfers[id]);
      }
    }
  }

  /** So in runs whose negative withdrawals are backed, a transfer that was answered twelve times is finished. */
  lemma TwelveAnswersFinish(init: Wallets, es: seq<Event>, id: nat)
    requires Opening(init) && Legal(Start(init), es) && AllBearable(Start(init), es)
    requires id < |Run(Start(init), es).db.transfers| && Answered(es, id) >= 12
    ensures !Run(Start(init), es).db.transfers[id].Live()
  {
    StartHolds(init);
    RunKeeps(init, Start(init), es);
    TableOfInv(init, Run(Start(init), es));
    assert RowOk(Run(Start(init), es).db.transfers[id]);
    if Run(Start(init), es).db.transfers[id].Live() {
      AnswersBound(init, Start(init), es, id);
    }
  }
}
