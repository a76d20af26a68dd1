// When a batch can be rolled back after tokens left. The release of a reservation throws if the wallet no longer
// covers it; then every run of the job pays the other waiting withdrawals of the batch again.

module MkcRollbacks {
  import opened Options
  import opened MkcTransfers
  import opened MkcNegatives

  /** The withdrawal is not negative, or backed by what the user has reserved in failed withdrawals that were
      sent. */
  predicate Bears(w: World, u: UserId, z: int) {
    z >= 0 || -z <= Total(w.db.transfers, Stuck, u)
  }

  ghost predicate AlwaysCommits(w: World) {
    forall picks :: Selectable(w.db.transfers, picks) ==> ProcessAll(w, picks).Finished?
  }

  /** After a run that registers no further negative amount, every batch commits, or every payout is recorded. */
  ghost predicate KeepsCommitting(w: World, es: seq<Event>) {
    Continues(w, es) ==> AlwaysCommits(Run(w, es))
  }

  ghost predicate KeepsPayouts(w: World, es: seq<Event>) {
    Continues(w, es) ==> PayoutsSound(Run(w, es).payouts, Run(w, es).db.transfers)
  }

  /// Backed withdrawals do no harm

  lemma NoDebts(ts: seq<Transfer>, u: UserId)
    requires Unsigned(ts)
    ensures Total(ts, Debts, u) == 0
  {
    forall j | 0 <= j < |ts| ensures Weight(Debts, u, ts[j]) == 0 {
      assert ts[j] in ts;
    }
    TotalOfNone(ts, Debts, u);
  }

  lemma BearingKeeps(init: Wallets, w: World, u: UserId, z: int)
    requires Accepts(init, w, u, z) && Bears(w, u, z)
    ensures Inv(init, Accepting(w, u, z))
  {
    var ts := w.db.transfers;
    NoDebts(ts, u);
    RequestSums(ts, u, z);
    assert Balanced(init, w, u);
    assert Accepting(w, u, z).db.transfers == ts + [NewWithdrawal(u, z)];
    RequestKeeps(init, w, u, true, Some(z));
  }

  lemma BearingRuns(init: Wallets, w: World, u: UserId, z: int, more: seq<Event>)
    requires Accepts(init, w, u, z) && Bears(w, u, z)
    ensures var w1 := Accepting(w, u, z); KeepsCommitting(w1, more) && KeepsPayouts(w1, more)
  {
    var w1 := Accepting(w, u, z);
    BearingKeeps(init, w, u, z);
    if Continues(w1, more) {
      NoNegativesKeep(init, w1, more);
      var w2 := Run(w1, more);
      forall picks | Selectable(w2.db.transfers, picks) ensures ProcessAll(w2, picks).Finished? {
        BatchKeeps(init, w2, picks);
      }
    }
  }

  /// Others end in a withdrawal that cannot be released

  /** Row `i` is out of retries, and releasing it throws. */
  predicate Doomed(w: World, i: nat) {
    && i < |w.db.transfers|
    && var t := w.db.transfers[i];
    && t.kind.ToExternalWallet? && t.status.Pending? && t.retries == MAX_TRANSFER_RETRIES
    && Decreased(w.db.wallets, t.user, t.amount).None?
  }

  /** A withdrawal that waits to be sent. */
  predicate Awaits(w: World, j: nat) {
    j < |w.db.transfers| && Sendable(w.db.transfers[j], w.db.transfers[j].user)
  }

  /** Sending row `j` in a batch with the doomed row: the payout stays, the tables are as before. */
  lemma Collapse(w: World, i: nat, j: nat)
    requires Doomed(w, i) && Awaits(w, j) && i != j
    ensures var picks := [Pick(j, Accepted(0)), Pick(i, Fails)];
      var t := w.db.transfers[j];
      && Selectable(w.db.transfers, picks) && ProcessAll(w, picks).Aborted?
      && Next(w, RunBatch(picks)) == w.(payouts := w.payouts + [Movement(j, t.user, t.amount)])
  {
    var first, second := Pick(j, Accepted(0)), Pick(i, Fails);
    var w1 := Process(w, first).value;
    assert w1.db.transfers[i] == w.db.transfers[i] && Process(w1, second).None?;
    assert [first, second][1..] == [second];
    assert ProcessAll(w, [first, second]) == ProcessAll(w1, [second]);
  }

  /** So it can be paid any number of times. */
  lemma {:induction false} PaidAgain(w: World, i: nat, j: nat, times: nat) returns (es: seq<Event>)
    requires Doomed(w, i) && Awaits(w, j) && i != j
    ensures Legal(w, es)
    ensures var t, w' := w.db.transfers[j], Run(w, es);
      && w'.db == w.db
      && Moved(w'.payouts, t.user) == Moved(w.payouts, t.user) + times * t.amount
    decreases times
  {
    if times == 0 {
      es := [];
    } else {
      var t := w.db.transfers[j];
      var e := RunBatch([Pick(j, Accepted(0)), Pick(i, Fails)]);
      Collapse(w, i, j);
      MovedAppend(w.payouts, Movement(j, t.user, t.amount), t.user);
      var rest := PaidAgain(Next(w, e), i, j, times - 1);
      RunCons(w, e, rest);
      es := [e] + rest;
    }
  }

  /// How to get there

  /** Both columns of user `u` stand at `n`. */
  predicate Columns(w: World, u: UserId, n: int) {
    && u in w.db.wallets && w.db.wallets[u].pending.Some?
    && BalanceOf(w.db.wallets, u) == n == PendingOf(w.db.wallets, u)
  }

  /** The rows but `i` are as before. */
  predicate Elsewhere(ts: seq<Transfer>, ts': seq<Transfer>, i: nat) {
    |ts'| == |ts| && forall j | 0 <= j < |ts| && j != i :: ts'[j] == ts[j]
  }

  lemma DebitOne(w: World, i: nat, u: UserId, n: int)
    requires i < |w.db.transfers| && Columns(w, u, n)
    requires var t := w.db.transfers[i];
      t.user == u && t.kind.ToExternalWallet? && t.status.InProgress? && t.amount <= n
    ensures var e := RunBatch([Pick(i, Accepted(0))]);
      && Enabled(w, e) && Columns(Next(w, e), u, n - w.db.transfers[i].amount)
      && Next(w, e).db.transfers == w.db.transfers[i := w.db.transfers[i].(status := Done)]
  {
    BatchOfOne(w, Pick(i, Accepted(0)));
  }

  /** A live withdrawal of the user is sent, if it was not, and debited. */
  lemma SettleRow(w: World, i: nat, u: UserId, n: int) returns (es: seq<Event>)
    requires RowsOk(w.db.transfers) && i < |w.db.transfers| && Columns(w, u, n)
    requires var t := w.db.transfers[i];
      t.user == u && t.kind.ToExternalWallet? && t.Live() && 0 <= t.amount <= n
    ensures Legal(w, es)
    ensures var w' := Run(w, es);
      && Columns(w', u, n - w.db.transfers[i].amount) && RowsOk(w'.db.transfers)
      && Elsewhere(w.db.transfers, w'.db.transfers, i) && w'.db.transfers[i].status.Done?
  {
    var e := RunBatch([Pick(i, Accepted(0))]);
    var ts := w.db.transfers;
    assert ts[i] in ts && RowOk(ts[i]);
    if ts[i].status.Pending? {
      SendOne(w, i, u);
      var w1 := Next(w, e);
      DebitOne(w1, i, u, n);
      RunCons(w1, e, []);
      RunCons(w, e, [e] + []);
      es := [e] + ([e] + []);
      DoneIsOk(w1.db.transfers, i);
    } else {
      DebitOne(w, i, u, n);
      RunCons(w, e, []);
      es := [e] + [];
      DoneIsOk(ts, i);
    }
  }

  lemma DoneIsOk(ts: seq<Transfer>, i: nat)
    requires RowsOk(ts) && i < |ts| && ts[i].status.InProgress?
    ensures RowsOk(ts[i := ts[i].(status := Done)])
  {
    assert RowOk(ts[i]);
  }

  /** The live withdrawals of the user among the first `n` rows can all be debited, from columns that cover
      them. */
  lemma {:induction false} SettleFrom(w: World, u: UserId, i: nat, n: nat, b: int) returns (es: seq<Event>)
    requires RowsOk(w.db.transfers) && i <= n <= |w.db.transfers|
    requires Columns(w, u, b) && b >= Total(w.db.transfers[..n], Claims, u)
    requires forall j | 0 <= j < n :: w.db.transfers[j].amount >= 0
    requires forall j | 0 <= j < i :: Weight(Claims, u, w.db.transfers[j]) == 0
    ensures Legal(w, es)
    ensures var ts, ts' := w.db.transfers, Run(w, es).db.transfers;
      && |ts'| == |ts| && (forall j | 0 <= j < |ts| && (j >= n || ts[j].user != u) :: ts'[j] == ts[j])
      && Columns(Run(w, es), u, b - Total(ts[..n], Claims, u))
    decreases n - i
  {
    var ts := w.db.transfers;
    if i == n {
      TotalOfNone(ts[..n], Claims, u);
      es := [];
    } else if Weight(Claims, u, ts[i]) == 0 && !(ts[i].user == u && Counts(Claims, ts[i])) {
      es := SettleFrom(w, u, i + 1, n, b);
    } else {
      forall t | t in ts[..n] ensures Weight(Claims, u, t) >= 0 {
      }
      TotalCovers(ts[..n], i, Claims, u);
      var first := SettleRow(w, i, u, b);
      var w1 := Run(w, first);
      assert w1.db.transfers[..n] == ts[..n][i := w1.db.transfers[i]];
      TotalUpdate(ts[..n], i, w1.db.transfers[i], Claims, u);
      RunPersists(w, first);
      assert Succeeds(ts[i], w1.db.transfers[i]);
      var rest := SettleFrom(w1, u, i + 1, n, b - ts[i].amount);
      RunAppend(w, first, rest);
      es := first + rest;
    }
  }

  /** After a negative withdrawal that is not backed: ask for what seems to be left and for nothing once more,
      settle everything older, and let the first request fail. */
  lemma Doom(init: Wallets, w: World, u: UserId, z: int) returns (more: seq<Event>)
    requires Accepts(init, w, u, z) && !Bears(w, u, z)
    ensures var w1, n := Accepting(w, u, z), |w.db.transfers|;
      && Continues(w1, more)
      && var w2 := Run(w1, more);
      && Doomed(w2, n + 1)
      && |w2.db.transfers| == n + 3 && w2.db.transfers[n + 2] == NewWithdrawal(u, 0)
      && forall j | 0 <= j < n && w.db.transfers[j].user != u :: w2.db.transfers[j] == w.db.transfers[j]
  {
    var n, b := |w.db.transfers|, BalanceOf(w.db.wallets, u);
    var w1 := Accepting(w, u, z);
    var x := Overdraw(init, w, u, z);
    var w2 := Accepting(w1, u, x);
    Accept(w2, u, 0);
    var w3 := Accepting(w2, u, 0);
    assert w3.db.transfers[..n] == w.db.transfers;
    assert Balanced(init, w, u);
    var settle := SettleFrom(w3, u, 0, n, b);
    var w4 := Run(w3, settle);
    var fail := FailUp(w4, n + 1);
    var w5 := Run(w4, fail);
    DoomedNow(init, w, u, z, x);
    RunAppend(w3, settle, fail);
    RunCons(w2, Withdraw(u, true, Some(0)), settle + fail);
    RunCons(w1, Withdraw(u, true, Some(x)), [Withdraw(u, true, Some(0))] + (settle + fail));
    more := [Withdraw(u, true, Some(x))] + ([Withdraw(u, true, Some(0))] + (settle + fail));
    assert w5.db.transfers[n + 1].amount == x;
  }

  /** The balance left after settling is below the request: that is what the missing backing amounts to. */
  lemma DoomedNow(init: Wallets, w: World, u: UserId, z: int, x: int)
    requires Accepts(init, w, u, z) && !Bears(w, u, z)
    requires x == BalanceOf(w.db.wallets, u) - PendingOf(w.db.wallets, u) - z
    ensures BalanceOf(w.db.wallets, u) - Total(w.db.transfers, Claims, u) < x
  {
    assert Balanced(init, w, u);
    NoDebts(w.db.transfers, u);
    ReservedSplits(w.db.transfers, u);
  }

  /// The exact condition

  /** Without backing, some batch is rolled back after it paid a withdrawal. */
  lemma Unbacked(init: Wallets, w: World, u: UserId, z: int) returns (more: seq<Event>, last: Event)
    requires Accepts(init, w, u, z) && !Bears(w, u, z)
    ensures var w1 := Accepting(w, u, z);
      && !KeepsCommitting(w1, more) && !KeepsPayouts(w1, more + [last])
  {
    more := Doom(init, w, u, z);
    var w1, n := Accepting(w, u, z), |w.db.transfers|;
    var w2 := Run(w1, more);
    Collapse(w2, n + 1, n + 2);
    var picks := [Pick(n + 2, Accepted(0)), Pick(n + 1, Fails)];
    assert Selectable(w2.db.transfers, picks) && !ProcessAll(w2, picks).Finished?;
    last := RunBatch(picks);
    RunCons(w2, last, []);
    assert [last] + [] == [last];
    RunAppend(w1, more, [last]);
    var w3 := Run(w1, more + [last]);
    var paid := w3.payouts[|w2.payouts|];
    assert paid in w3.payouts && !PaysRow(paid, w3.db.transfers);
  }

  /** After a withdrawal is accepted in a sound state, every batch of every run that registers no further negative
      amount commits if and only if the amount is not negative or backed by what is stuck. */
  lemma CommitsExactly(init: Wallets, w: World, u: UserId, z: int)
    requires Accepts(init, w, u, z)
    ensures (forall more :: KeepsCommitting(Accepting(w, u, z), more)) <==> Bears(w, u, z)
  {
    if Bears(w, u, z) {
      forall more {
        BearingRuns(init, w, u, z, more);
      }
    } else {
      var more, last := Unbacked(init, w, u, z);
    }
  }

  /** Under the same condition each withdrawal is paid at most once and recorded. */
  lemma PaidOnceExactly(init: Wallets, w: World, u: UserId, z: int)
    requires Accepts(init, w, u, z)
    ensures (forall more :: KeepsPayouts(Accepting(w, u, z), more)) <==> Bears(w, u, z)
  {
    if Bears(w, u, z) {
      forall more {
        BearingRuns(init, w, u, z, more);
      }
    } else {
      var more, last := Unbacked(init, w, u, z);
    }
  }

  /** Without it, any other user with a waiting withdrawal can be paid more than that user ever had. */
  lemma OthersToo(init: Wallets, w: World, u: UserId, z: int, j: nat) returns (more: seq<Event>)
    requires Accepts(init, w, u, z) && !Bears(w, u, z)
    requires Awaits(w, j) && w.db.transfers[j].user != u && w.db.transfers[j].amount > 0
    ensures var w1 := Accepting(w, u, z);
      Continues(w1, more) && !Covered(init, Run(w1, more), w.db.transfers[j].user)
  {
    var w1, n, t := Accepting(w, u, z), |w.db.transfers|, w.db.transfers[j];
    var doom := Doom(init, w, u, z);
    var w2 := Run(w1, doom);
    var owed := BalanceOf(init, t.user) + Total(w2.db.transfers, Deposited, t.user) - Moved(w2.payouts, t.user);
    var times: nat := if owed < 0 then 0 else owed + 1;
    var again := PaidAgain(w2, n + 1, j, times);
    assert times * t.amount >= times;
    RunAppend(w1, doom, again);
    more := doom + again;
  }

  /** Wallets of 10 and 7, and the second user's withdrawal of 7 waits. */
  lemma SevenWaits(init: Wallets)
    requires init == map[1 := Wallet(10, None), 2 := Wallet(7, None)]
    ensures var w := Accepting(Start(init), 2, 7);
      && Accepts(init, w, 1, -5) && !Bears(w, 1, -5) && w.db.transfers == [NewWithdrawal(2, 7)] && Awaits(w, 0)
  {
    StartHolds(init);
    AcceptingKeeps(init, Start(init), 2, 7);
    assert Accepting(Start(init), 2, 7)
        == World(Db(init[2 := Wallet(7, Some(7))], [NewWithdrawal(2, 7)]), [], []);
    TotalOfNone([NewWithdrawal(2, 7)], Stuck, 1);
  }

  lemma RunOfTwo(w: World, e: Event, f: Event, more: seq<Event>)
    requires Enabled(w, e) && Enabled(Next(w, e), f) && Legal(Next(Next(w, e), f), more)
    ensures var es := [e, f] + more;
      Legal(w, es) && Run(w, es) == Run(Next(Next(w, e), f), more)
  {
    RunCons(Next(w, e), f, more);
    RunCons(w, e, [f] + more);
    assert [e, f] + more == [e] + ([f] + more);
  }

  /** So the first user withdraws -5 and then 15, and the 7 of the second are paid over and over. */
  lemma RepeatedPayout() returns (init: Wallets, more: seq<Event>)
    ensures init == map[1 := Wallet(10, None), 2 := Wallet(7, None)] && Opening(init)
    ensures var es := [Withdraw(2, true, Some(7)), Withdraw(1, true, Some(-5))] + more;
      Legal(Start(init), es) && !Covered(init, Run(Start(init), es), 2)
    ensures Continues(Accepting(Accepting(Start(init), 2, 7), 1, -5), more)
  {
    init := map[1 := Wallet(10, None), 2 := Wallet(7, None)];
    SevenWaits(init);
    more := OthersToo(init, Accepting(Start(init), 2, 7), 1, -5, 0);
    RunOfTwo(Start(init), Withdraw(2, true, Some(7)), Withdraw(1, true, Some(-5)), more);
  }
}
