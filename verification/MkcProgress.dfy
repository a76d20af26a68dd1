// What answers do to a transfer: good ones bring it to its end and move its amount, and only six failing ones in a row
// make it fail.

module MkcProgress {
  import opened Options
  import opened Sequences
  import opened MkcTransfers
  import opened MkcTermination
  import opened MkcDeposits

  /// One step

  /** A confirmed deposit raises its user's balance by its amount and is closed; nothing else changes. */
  lemma DepositIsCredited(w: World, p: Pick)
    requires p.id < |w.db.transfers| && p.answer.Accepted?
    requires w.db.transfers[p.id].kind.ToGameWallet? && w.db.transfers[p.id].status.InProgress?
    ensures var t, r := w.db.transfers[p.id], Process(w, p);
      && r.Some?
      && var w' := r.value;
      && w'.db.transfers == w.db.transfers[p.id := t.(status := Done)]
      && w'.payouts == w.payouts && w'.sweeps == w.sweeps
      && BalanceOf(w'.db.wallets, t.user) == BalanceOf(w.db.wallets, t.user) + t.amount
      && w'.db.wallets.Keys == w.db.wallets.Keys + {t.user}
      && forall u <- w'.db.wallets ::
           && w'.db.wallets[u].pending == (if u in w.db.wallets then w.db.wallets[u].pending else None)
           && (u == t.user || BalanceOf(w'.db.wallets, u) == BalanceOf(w.db.wallets, u))
  {
  }

  /** Asking for a balance opens an empty wallet, without a pending column, if there is none. */
  lemma OpeningExactly(w: World, u: UserId)
    ensures Opened(w, u) == if u in w.db.wallets then w
      else World(Db(map x | x in w.db.wallets.Keys + {u} ::
                      if x in w.db.wallets then w.db.wallets[x] else Wallet(0, None), w.db.transfers),
                 w.payouts, w.sweeps)
  {
  }

  /** The life of a row: a good answer takes it to the next status, a failing one costs a retry, and the sixth in a
      row ends it. A withdrawal that is to be sent fails on anything but success. */
  predicate Failing(t: Transfer, answer: Answer) {
    if t.kind.ToExternalWallet? && t.status.Pending? then !(answer.Accepted? && t.amount >= 0) else answer.Fails?
  }

  function AfterAnswer(t: Transfer, answer: Answer): Transfer {
    if !t.Live() then t
    else if Failing(t, answer) then
      if t.retries == 5 then t.(status := Failed) else t.(retries := t.retries + 1)
    else if !answer.Accepted? then t
    else if t.status.Pending? then t.(status := InProgress, hash := Some(answer.hash), retries := 0)
    else t.(status := Done)
  }

  lemma ProcessAnswers(init: Wallets, w: World, p: Pick)
    requires Inv(init, w) && p.id < |w.db.transfers| && w.db.transfers[p.id].Live()
    ensures Process(w, p).Some?
    ensures Process(w, p).value.db.transfers == w.db.transfers[p.id := AfterAnswer(w.db.transfers[p.id], p.answer)]
  {
    ProcessKeeps(init, w, p);
    var t := w.db.transfers[p.id];
    assert t in w.db.transfers && GoodRow(w.db.wallets, t);
    if t.kind.ToExternalWallet? {
      LiveIsCovered(init, w, p.id);
    }
  }

  /// Batches

  /** The row after a batch: as its pick is answered, or untouched. */
  ghost predicate AnsweredBy(t: Transfer, t': Transfer, id: nat, picks: seq<Pick>) {
    if exists p <- picks :: p.id == id
    then exists p <- picks :: p.id == id && t' == AfterAnswer(t, p.answer)
    else t' == t
  }

  lemma {:induction false} BatchAnswers(init: Wallets, w: World, picks: seq<Pick>, id: nat)
    requires Inv(init, w) && Selectable(w.db.transfers, picks) && id < |w.db.transfers|
    ensures |Batch(w, picks).db.transfers| == |w.db.transfers|
    ensures AnsweredBy(w.db.transfers[id], Batch(w, picks).db.transfers[id], id, picks)
    decreases |picks|
  {
    if picks != [] {
      var p, rest := picks[0], picks[1..];
      ProcessAnswers(init, w, p);
      ProcessKeeps(init, w, p);
      var w' := Process(w, p).value;
      assert Selectable(w'.db.transfers, rest);
      assert forall q :: q in picks <==> q == p || q in rest;
      BatchKeeps(init, w', rest);
      if p.id == id {
        OnlyPick(picks);
        Unpicked(w', rest, id);
        BatchPersists(w', rest);
      } else {
        BatchAnswers(init, w', rest, id);
      }
    }
  }

  lemma OnlyPick(picks: seq<Pick>)
    requires picks != [] && forall i, j :: 0 <= i < j < |picks| ==> picks[i].id != picks[j].id
    ensures forall q <- picks[1..] :: q.id != picks[0].id
  {
    forall q | q in picks[1..] ensures q.id != picks[0].id {
      var i :| 0 <= i < |picks[1..]| && picks[1..][i] == q;
      assert picks[i + 1].id == q.id;
    }
  }

  /// Runs

  /** The event fails for row `id`, or brings it a good answer. */
  predicate FailsFor(w: World, e: Event, id: nat) {
    e.RunBatch? && id < |w.db.transfers| && exists p <- e.picks :: p.id == id && Failing(w.db.transfers[id], p.answer)
  }

  predicate Succeeding(e: Event, id: nat) {
    e.RunBatch? && exists p <- e.picks :: p.id == id && p.answer.Accepted?
  }

  /** The row has taken its next step on the way to Done. */
  predicate Advanced(w: World, w': World, id: nat) {
    && id < |w.db.transfers| && id < |w'.db.transfers|
    && w'.db.transfers[id].status != w.db.transfers[id].status && !w'.db.transfers[id].status.Failed?
  }

  /** How often in a row the transfer has failed at the end of the run, after `n` times before it. */
  ghost function Failures(w: World, es: seq<Event>, id: nat, n: nat): nat
    requires Legal(w, es)
    decreases |es|
  {
    if es == [] then n
    else
      Failures(Next(w, es[0]), es[1..], id,
               if Advanced(w, Next(w, es[0]), id) then 0 else if FailsFor(w, es[0], id) then n + 1 else n)
  }

  ghost predicate NeverFails(w: World, es: seq<Event>, id: nat)
    requires Legal(w, es)
    decreases |es|
  {
    es == [] || (!FailsFor(w, es[0], id) && NeverFails(Next(w, es[0]), es[1..], id))
  }

  ghost function Successes(es: seq<Event>, id: nat): nat {
    if es == [] then 0 else (if Succeeding(es[0], id) then 1 else 0) + Successes(es[1..], id)
  }

  /** Only batches change a row, as their pick of it is answered. */
  lemma NextAnswers(init: Wallets, w: World, e: Event, id: nat)
    requires Inv(init, w) && Enabled(w, e) && id < |w.db.transfers|
    ensures id < |Next(w, e).db.transfers|
    ensures var t, t' := w.db.transfers[id], Next(w, e).db.transfers[id];
      if e.RunBatch? then AnsweredBy(t, t', id, e.picks) else t' == t
  {
    if e.RunBatch? {
      BatchAnswers(init, w, e.picks, id);
    }
  }

  /** Every event answers one pick of the row at most. */
  lemma PickedOnce(w: World, e: Event, p: Pick, q: Pick)
    requires Enabled(w, e) && e.RunBatch? && p in e.picks && q in e.picks && p.id == q.id
    ensures p == q && p.id < |w.db.transfers| && w.db.transfers[p.id].Live()
  {
  }

  /** `n` failures in a row are the retries of a live row, and six end it. */
  predicate CountsFailures(t: Transfer, n: nat) {
    (t.Live() ==> t.retries == n <= 5) && (t.status.Failed? <==> n == 6)
  }

  lemma NextCounts(init: Wallets, w: World, e: Event, id: nat, n: nat)
    requires Inv(init, w) && Enabled(w, e)
    requires if id < |w.db.transfers| then CountsFailures(w.db.transfers[id], n) else n == 0
    ensures var n' := if Advanced(w, Next(w, e), id) then 0 else if FailsFor(w, e, id) then n + 1 else n;
      if id < |Next(w, e).db.transfers| then CountsFailures(Next(w, e).db.transfers[id], n') else n' == 0
  {
    if id < |w.db.transfers| {
      NextAnswers(init, w, e, id);
      if e.RunBatch? && exists p <- e.picks :: p.id == id {
        var p :| p in e.picks && p.id == id
          && Next(w, e).db.transfers[id] == AfterAnswer(w.db.transfers[id], p.answer);
        forall q | q in e.picks && q.id == id ensures q == p && w.db.transfers[id].Live() {
          PickedOnce(w, e, p, q);
        }
        assert FailsFor(w, e, id) <==> Failing(w.db.transfers[id], p.answer);
      }
    } else if e.RunBatch? {
      BatchPersists(w, e.picks);
    }
  }

  lemma {:induction false} RunCounts(init: Wallets, w: World, es: seq<Event>, id: nat, n: nat)
    requires Inv(init, w) && Legal(w, es) && AllBearable(w, es)
    requires if id < |w.db.transfers| then CountsFailures(w.db.transfers[id], n) else n == 0
    requires id < |Run(w, es).db.transfers|
    ensures CountsFailures(Run(w, es).db.transfers[id], Failures(w, es, id, n))
    decreases |es|
  {
    if es != [] {
      NextCounts(init, w, es[0], id, n);
      NextKeeps(init, w, es[0]);
      RunCounts(init, Next(w, es[0]), es[1..], id,
                if Advanced(w, Next(w, es[0]), id) then 0 else if FailsFor(w, es[0], id) then n + 1 else n);
    }
  }

  /** A transfer has failed if and only if its last six answers were failures, with no step forward between them; as
      long as it is live its retries are the failures since its last step. */
  lemma SixFailures(init: Wallets, es: seq<Event>, id: nat)
    requires Opening(init) && Legal(Start(init), es) && AllBearable(Start(init), es)
    requires id < |Run(Start(init), es).db.transfers|
    ensures var t, n := Run(Start(init), es).db.transfers[id], Failures(Start(init), es, id, 0);
      && (t.status.Failed? <==> n == 6)
      && (t.Live() ==> t.retries == n <= 5)
  {
    StartHolds(init);
    RunCounts(init, Start(init), es, id, 0);
  }

  /// Good answers

  function Stage(t: Transfer): nat {
    match t.status
    case Pending => 0
    case InProgress => 1
    case _ => 2
  }

  lemma NextStage(init: Wallets, w: World, e: Event, id: nat)
    requires Inv(init, w) && Enabled(w, e) && id < |w.db.transfers|
    requires !FailsFor(w, e, id) && !w.db.transfers[id].status.Failed?
    ensures id < |Next(w, e).db.transfers| && !Next(w, e).db.transfers[id].status.Failed?
    ensures Stage(Next(w, e).db.transfers[id]) == Stage(w.db.transfers[id]) + if Succeeding(e, id) then 1 else 0
  {
    NextAnswers(init, w, e, id);
    if e.RunBatch? && exists p <- e.picks :: p.id == id {
      var p :| p in e.picks && p.id == id
        && Next(w, e).db.transfers[id] == AfterAnswer(w.db.transfers[id], p.answer);
      forall q | q in e.picks && q.id == id ensures q == p && w.db.transfers[id].Live() {
        PickedOnce(w, e, p, q);
      }
      assert FailsFor(w, e, id) <==> Failing(w.db.transfers[id], p.answer);
    }
  }

  lemma {:induction false} RunStage(init: Wallets, w: World, es: seq<Event>, id: nat)
    requires Inv(init, w) && Legal(w, es) && AllBearable(w, es) && NeverFails(w, es, id)
    requires id < |w.db.transfers| ==> !w.db.transfers[id].status.Failed?
    requires id < |Run(w, es).db.transfers|
    ensures !Run(w, es).db.transfers[id].status.Failed?
    ensures Stage(Run(w, es).db.transfers[id])
      == (if id < |w.db.transfers| then Stage(w.db.transfers[id]) else 0) + Successes(es, id)
    decreases |es|
  {
    if es != [] {
      NextKeeps(init, w, es[0]);
      if id < |w.db.transfers| {
        NextStage(init, w, es[0], id);
      } else {
        NewIsPending(w, es[0], id);
      }
      RunStage(init, Next(w, es[0]), es[1..], id);
    }
  }

  lemma NewIsPending(w: World, e: Event, id: nat)
    requires Enabled(w, e) && id >= |w.db.transfers|
    ensures !Succeeding(e, id)
    ensures id < |Next(w, e).db.transfers| ==> Next(w, e).db.transfers[id].status.Pending?
  {
    if e.RunBatch? {
      BatchPersists(w, e.picks);
    }
  }

  /** A transfer that is never answered badly is Done if and only if it was answered well twice. */
  lemma TwoGoodAnswers(init: Wallets, es: seq<Event>, id: nat)
    requires Opening(init) && Legal(Start(init), es) && AllBearable(Start(init), es)
    requires id < |Run(Start(init), es).db.transfers| && NeverFails(Start(init), es, id)
    ensures Run(Start(init), es).db.transfers[id].status.Done? <==> Successes(es, id) == 2
    ensures Successes(es, id) <= 2
  {
    StartHolds(init);
    RunStage(init, Start(init), es, id);
  }

  /** Every deposit of the user was answered twice, and never badly. */
  ghost predicate DepositsServed(init: Wallets, es: seq<Event>, u: UserId)
    requires Legal(Start(init), es)
  {
    var ts := Run(Start(init), es).db.transfers;
    forall id: nat | id < |ts| && ts[id].kind.ToGameWallet? && ts[id].user == u ::
      NeverFails(Start(init), es, id) && Successes(es, id) >= 2
  }

  lemma {:induction false} AllDeposited(ts: seq<Transfer>, u: UserId)
    requires forall t <- ts :: t.kind.ToGameWallet? && t.user == u ==> t.status.Done?
    ensures Total(ts, Deposited, u) == Recorded(ts, Some(u))
  {
    if ts != [] {
      var n := |ts| - 1;
      assert ts[n] in ts;
      AllDeposited(ts[..n], u);
    }
  }

  /** Tokens arrive: if all deposits of a user were answered well, the balance is what the user began with plus all
      movements to the user seen on chain, less the withdrawals that are done. */
  lemma DepositsArrive(init: Wallets, es: seq<Event>, ms: seq<TokenMove>, u: UserId)
    requires Opening(init) && Legal(Start(init), es) && AllBearable(Start(init), es)
    requires Distinct(ms) && HashesDistinct(ms) && forall m :: m in ms <==> m in Observed(es)
    requires DepositsServed(init, es, u)
    ensures var w := Run(Start(init), es);
      BalanceOf(w.db.wallets, u) == BalanceOf(init, u) + Amounts(ms, Some(u)) - Total(w.db.transfers, Withdrawn, u)
  {
    var w := Run(Start(init), es);
    StartHolds(init);
    RunKeeps(init, Start(init), es);
    assert Balanced(init, w, u);
    RecordedDeposits(init, es, ms, Some(u));
    forall t | t in w.db.transfers && t.kind.ToGameWallet? && t.user == u ensures t.status.Done? {
      var id: nat :| id < |w.db.transfers| && w.db.transfers[id] == t;
      TwoGoodAnswers(init, es, id);
    }
    AllDeposited(w.db.transfers, u);
  }

  /** Every withdrawal of the user was answered twice, and never badly. */
  ghost predicate WithdrawalsServed(init: Wallets, es: seq<Event>, u: UserId)
    requires Legal(Start(init), es)
  {
    var ts := Run(Start(init), es).db.transfers;
    forall id: nat | id < |ts| && ts[id].kind.ToExternalWallet? && ts[id].user == u ::
      NeverFails(Start(init), es, id) && Successes(es, id) >= 2
  }

  /** What the user asked to withdraw and was accepted. */
  function Requested(ts: seq<Transfer>, u: UserId): int {
    if ts == [] then 0
    else
      var last := ts[|ts| - 1];
      Requested(ts[..|ts| - 1], u) + if last.kind.ToExternalWallet? && last.user == u then last.amount else 0
  }

  lemma {:induction false} AllWithdrawn(ts: seq<Transfer>, u: UserId)
    requires forall t <- ts :: RowOk(t) && (t.kind.ToExternalWallet? && t.user == u ==> t.status.Done?)
    ensures Total(ts, Withdrawn, u) == Total(ts, PaidOut, u) == Requested(ts, u)
    ensures Total(ts, Reserved, u) == 0
  {
    if ts != [] {
      var n := |ts| - 1;
      assert ts[n] in ts;
      AllWithdrawn(ts[..n], u);
    }
  }

  /** Tokens leave: if all withdrawals of a user were answered well, the user was sent what was asked for, and the
      balance is lower by as much, with nothing reserved any more. */
  lemma WithdrawalsArrive(init: Wallets, es: seq<Event>, u: UserId)
    requires Opening(init) && Legal(Start(init), es) && AllBearable(Start(init), es)
    requires WithdrawalsServed(init, es, u)
    ensures var w := Run(Start(init), es);
      && Moved(w.payouts, u) == Requested(w.db.transfers, u)
      && BalanceOf(w.db.wallets, u)
           == BalanceOf(init, u) + Total(w.db.transfers, Deposited, u) - Requested(w.db.transfers, u)
      && PendingOf(w.db.wallets, u) == 0
  {
    var w := Run(Start(init), es);
    StartHolds(init);
    RunKeeps(init, Start(init), es);
    assert Balanced(init, w, u);
    forall t | t in w.db.transfers
      ensures RowOk(t) && (t.kind.ToExternalWallet? && t.user == u ==> t.status.Done?)
    {
      var id: nat :| id < |w.db.transfers| && w.db.transfers[id] == t;
      assert GoodRow(w.db.wallets, t);
      if t.kind.ToExternalWallet? && t.user == u {
        TwoGoodAnswers(init, es, id);
      }
    }
    AllWithdrawn(w.db.transfers, u);
  }

  /// Requests

  /** A withdrawal is registered if and only if the wallet exists, the address is one, the amount is a number and no
      more than is there and not reserved; it then adds one row and reserves its amount. Otherwise nothing changes. */
  lemma RequestExactly(w: World, u: UserId, addressOk: bool, amount: Option<int>)
    ensures var w' := Request(w, u, addressOk, amount);
      if u in w.db.wallets && addressOk && amount.Some?
         && amount.value <= BalanceOf(w.db.wallets, u) - PendingOf(w.db.wallets, u)
      then
        && w'.db.transfers == w.db.transfers + [Transfer(ToExternalWallet, u, amount.value, Pending, 0, None, None)]
        && w'.payouts == w.payouts && w'.sweeps == w.sweeps && w'.db.wallets.Keys == w.db.wallets.Keys
        && PendingOf(w'.db.wallets, u) == PendingOf(w.db.wallets, u) + amount.value
        && (forall x :: BalanceOf(w'.db.wallets, x) == BalanceOf(w.db.wallets, x))
        && (forall x :: x == u || PendingOf(w'.db.wallets, x) == PendingOf(w.db.wallets, x))
      else w' == w
  {
  }

  /** A batch that does not finish restores the tables and keeps what the chain did for the picks before the one whose
      exception escaped. */
  lemma {:induction false} AbortKeepsTheChain(w: World, picks: seq<Pick>) returns (n: nat, reached: World)
    requires forall p <- picks :: p.id < |w.db.transfers|
    requires ProcessAll(w, picks).Aborted?
    ensures n < |picks| && ProcessAll(w, picks[..n]) == Finished(reached)
    ensures picks[n].id < |reached.db.transfers| && Process(reached, picks[n]).None?
    ensures Batch(w, picks) == World(w.db, reached.payouts, reached.sweeps)
    decreases |picks|
  {
    if Process(w, picks[0]).None? {
      n, reached := 0, w;
    } else {
      var w' := Process(w, picks[0]).value;
      ProcessFrame(w, picks[0]);
      n, reached := AbortKeepsTheChain(w', picks[1..]);
      n := n + 1;
      assert picks[..n][0] == picks[0] && picks[..n][1..] == picks[1..][..n - 1];
    }
  }
}
