// What a single negative withdrawal does: nothing in the request refuses it, and the user may then ask for more
// than there is.

module MkcNegatives {
  import opened Options
  import opened MkcTransfers

  /// Composing runs

  lemma RunCons(w: World, e: Event, es: seq<Event>)
    requires Enabled(w, e) && Legal(Next(w, e), es)
    ensures Legal(w, [e] + es) && Run(w, [e] + es) == Run(Next(w, e), es)
  {
    assert ([e] + es)[1..] == es;
  }

  lemma {:induction false} RunAppend(w: World, es: seq<Event>, fs: seq<Event>)
    requires Legal(w, es) && Legal(Run(w, es), fs)
    ensures Legal(w, es + fs) && Run(w, es + fs) == Run(Run(w, es), fs)
    decreases |es|
  {
    if es == [] {
      assert es + fs == fs;
    } else {
      RunAppend(Next(w, es[0]), es[1..], fs);
      assert (es + fs)[1..] == es[1..] + fs;
    }
  }

  /** A batch of one row. */
  lemma BatchOfOne(w: World, p: Pick)
    requires p.id < |w.db.transfers| && w.db.transfers[p.id].Live()
    ensures Enabled(w, RunBatch([p]))
    ensures Process(w, p).Some? ==> Next(w, RunBatch([p])) == Process(w, p).value
  {
    assert [p][1..] == [];
    if Process(w, p).Some? {
      assert ProcessAll(w, [p]) == ProcessAll(Process(w, p).value, []);
    }
  }

  /// Sending

  /** A waiting withdrawal the chain can be asked to pay. */
  predicate Sendable(t: Transfer, u: UserId) {
    t.user == u && t.kind.ToExternalWallet? && t.status.Pending? && t.amount >= 0
  }

  /** What sending does to a user's sums: what was paid grows with the payouts; nothing else, and no wallet, changes. */
  ghost predicate SentMore(w: World, w': World, u: UserId) {
    var ts, ts' := w.db.transfers, w'.db.transfers;
    && Total(ts', Reserved, u) == Total(ts, Reserved, u)
    && Total(ts', Withdrawn, u) == Total(ts, Withdrawn, u)
    && Total(ts', Deposited, u) == Total(ts, Deposited, u)
    && Total(ts', PaidOut, u) - Total(ts, PaidOut, u) == Moved(w'.payouts, u) - Moved(w.payouts, u)
    && w'.db.wallets == w.db.wallets
  }

  lemma SendOne(w: World, i: nat, u: UserId)
    requires RowsOk(w.db.transfers) && i < |w.db.transfers| && Sendable(w.db.transfers[i], u)
    ensures var e := RunBatch([Pick(i, Accepted(0))]);
      var t := w.db.transfers[i];
      var sent := t.(retries := 0, hash := Some(0), status := InProgress);
      && Enabled(w, e)
      && Next(w, e).db.transfers == w.db.transfers[i := sent]
      && RowsOk(Next(w, e).db.transfers)
      && SentMore(w, Next(w, e), u)
  {
    var p := Pick(i, Accepted(0));
    var t := w.db.transfers[i];
    var sent := t.(retries := 0, hash := Some(0), status := InProgress);
    assert t in w.db.transfers && RowOk(t);
    BatchOfOne(w, p);
    SumsMove(w.db.transfers, i, sent, u);
    MovedAppend(w.payouts, Movement(i, t.user, t.amount), u);
  }

  /** From any state, all waiting withdrawals of a user from row `i` on can be sent, one batch each. */
  lemma {:induction false} SendFrom(w: World, u: UserId, i: nat) returns (es: seq<Event>)
    requires RowsOk(w.db.transfers) && i <= |w.db.transfers|
    ensures Legal(w, es)
    ensures var ts, ts' := w.db.transfers, Run(w, es).db.transfers;
      && |ts'| == |ts| && RowsOk(ts') && SentMore(w, Run(w, es), u)
      && forall j | 0 <= j < |ts| ::
           if i <= j && Sendable(ts[j], u) then ts'[j].status.InProgress? else ts'[j] == ts[j]
    decreases |w.db.transfers| - i
  {
    if i == |w.db.transfers| {
      es := [];
    } else if Sendable(w.db.transfers[i], u) {
      SendOne(w, i, u);
      var e := RunBatch([Pick(i, Accepted(0))]);
      var rest := SendFrom(Next(w, e), u, i + 1);
      RunCons(w, e, rest);
      es := [e] + rest;
    } else {
      es := SendFrom(w, u, i + 1);
    }
  }

  /** What an accepted request does to the user's columns. */
  lemma Accept(w: World, u: UserId, z: int)
    requires u in w.db.wallets && z <= BalanceOf(w.db.wallets, u) - PendingOf(w.db.wallets, u)
    ensures var w1 := Accepting(w, u, z);
      var ts, ts1 := w.db.transfers, w1.db.transfers;
      && ts1 == ts + [NewWithdrawal(u, z)]
      && (RowsOk(ts) ==> RowsOk(ts1))
      && w1.payouts == w.payouts && u in w1.db.wallets && w1.db.wallets[u].pending.Some?
      && BalanceOf(w1.db.wallets, u) == BalanceOf(w.db.wallets, u)
      && PendingOf(w1.db.wallets, u) == PendingOf(w.db.wallets, u) + z
  {
    assert RowOk(NewWithdrawal(u, z));
  }

  function Accepting(w: World, u: UserId, z: int): World {
    Request(w, u, true, Some(z))
  }

  /** A run that registers no further negative amount. */
  ghost predicate Continues(w: World, es: seq<Event>) {
    Legal(w, es) && AddsNoNegative(w.db.transfers, Run(w, es).db.transfers)
  }

  lemma RowsOfInv(init: Wallets, w: World)
    requires Inv(init, w)
    ensures RowsOk(w.db.transfers)
  {
    forall t | t in w.db.transfers ensures RowOk(t) {
      assert GoodRow(w.db.wallets, t);
    }
  }

  /** The two requests: after a negative one, the user may ask for more than there is. */
  lemma Overdraw(init: Wallets, w: World, u: UserId, z: int) returns (x: int)
    requires Inv(init, w) && Solid(w) && u in w.db.wallets && z < 0
    ensures x == BalanceOf(w.db.wallets, u) - PendingOf(w.db.wallets, u) - z > 0
    ensures var w2 := Accepting(Accepting(w, u, z), u, x);
      && w2.db.transfers == w.db.transfers + [NewWithdrawal(u, z)] + [NewWithdrawal(u, x)]
      && RowsOk(w2.db.transfers) && w2.payouts == w.payouts && u in w2.db.wallets && w2.db.wallets[u].pending.Some?
      && PendingOf(w2.db.wallets, u) == BalanceOf(w2.db.wallets, u) == BalanceOf(w.db.wallets, u)
  {
    assert PendingOf(w.db.wallets, u) <= BalanceOf(w.db.wallets, u);
    x := BalanceOf(w.db.wallets, u) - PendingOf(w.db.wallets, u) - z;
    RowsOfInv(init, w);
    Accept(w, u, z);
    Accept(Accepting(w, u, z), u, x);
  }

  /** The sums after the two requests: all the user ever had is reserved or debited. */
  lemma OverdrawSums(init: Wallets, w: World, u: UserId, z: int, x: int)
    requires Inv(init, w) && z < 0 < x && x == BalanceOf(w.db.wallets, u) - PendingOf(w.db.wallets, u) - z
    ensures var ts2 := w.db.transfers + [NewWithdrawal(u, z)] + [NewWithdrawal(u, x)];
      && Moved(w.payouts, u) == Total(ts2, PaidOut, u)
      && Total(ts2, Reserved, u) + Total(ts2, Withdrawn, u) == BalanceOf(init, u) + Total(ts2, Deposited, u)
  {
    assert Balanced(init, w, u);
    RequestSums(w.db.transfers, u, z);
    RequestSums(w.db.transfers + [NewWithdrawal(u, z)], u, x);
  }

  /** One accepted negative withdrawal is enough: the user asks for all that seems to be left, and the game
      pays out more than the user ever had. */
  lemma NegativeBreaksSolvency(init: Wallets, w: World, u: UserId, z: int) returns (more: seq<Event>)
    requires Inv(init, w) && Solid(w) && u in w.db.wallets && z < 0
    ensures var w1 := Accepting(w, u, z);
      && Continues(w1, more)
      && !Covered(init, Run(w1, more), u)
  {
    var n := |w.db.transfers|;
    var w1 := Accepting(w, u, z);
    var x := Overdraw(init, w, u, z);
    OverdrawSums(init, w, u, z, x);
    var w2 := Accepting(w1, u, x);
    var sends := SendFrom(w2, u, 0);
    var w3 := Run(w2, sends);
    var ask := Withdraw(u, true, Some(x));
    more := [ask] + sends;
    RunCons(w1, ask, sends);
    var ts2, ts3 := w2.db.transfers, w3.db.transfers;
    forall j | 0 <= j < |ts3| && j != n ensures Weight(Waiting, u, ts3[j]) == 0 {
      if j < n {
        assert w.db.transfers[j] in w.db.transfers;
      }
    }
    assert ts3[n] == ts2[n];
    TotalOfOne(ts3, n, Waiting, u);
    ReservedIsWaitingOrPaid(ts3, u);
    RunPersists(w2, sends);
    assert Succeeds(ts2[n + 1], ts3[n + 1]);
  }

  /** A run that registers no further negative amount leaves every user covered, or every user's books in
      agreement. */
  ghost predicate KeepsSolvent(init: Wallets, w: World, es: seq<Event>) {
    Continues(w, es) ==> forall v :: Covered(init, Run(w, es), v)
  }

  ghost predicate KeepsBooks(init: Wallets, w: World, es: seq<Event>) {
    Continues(w, es) ==> forall v :: Agree(init, Run(w, es), v)
  }

  /** A sound state, as every run without negative amounts reaches, and a withdrawal of `z` it accepts. */
  ghost predicate Accepts(init: Wallets, w: World, u: UserId, z: int) {
    && Inv(init, w) && Solid(w)
    && u in w.db.wallets && z <= BalanceOf(w.db.wallets, u) - PendingOf(w.db.wallets, u)
  }

  /** A withdrawal that is not negative leaves the state sound. */
  lemma AcceptingKeeps(init: Wallets, w: World, u: UserId, z: int)
    requires Accepts(init, w, u, z) && z >= 0
    ensures Inv(init, Accepting(w, u, z)) && Solid(Accepting(w, u, z))
  {
    var e := Withdraw(u, true, Some(z));
    assert Next(w, e) == Accepting(w, u, z) && Unsigned(Accepting(w, u, z).db.transfers);
    NextBearable(init, w, e);
    NextKeeps(init, w, e);
    NextSolid(init, w, e);
  }

  /** After a withdrawal that was not negative, every run without negatives stays sound. */
  lemma StaysSolid(init: Wallets, w: World, u: UserId, z: int, more: seq<Event>)
    requires Accepts(init, w, u, z) && z >= 0
    requires var w1 := Accepting(w, u, z);
      Continues(w1, more)
    ensures var w2 := Run(Accepting(w, u, z), more);
      Inv(init, w2) && Solid(w2)
  {
    var w1 := Accepting(w, u, z);
    AcceptingKeeps(init, w, u, z);
    RunPersists(w1, more);
    var ts, ts' := w1.db.transfers, Run(w1, more).db.transfers;
    forall i | 0 <= i < |ts'| ensures ts'[i].amount >= 0 {
      if i < |ts| {
        assert ts[i] in ts && Succeeds(ts[i], ts'[i]);
      }
    }
    RunSolid(init, w1, more);
  }

  /** The exact condition: after a withdrawal was accepted in a sound state, the game stays solvent towards all
      users in every run that registers no further negative amount, if and only if the amount was not negative. */
  lemma SolventExactly(init: Wallets, w: World, u: UserId, z: int)
    requires Accepts(init, w, u, z)
    ensures var w1 := Accepting(w, u, z);
      (forall more :: KeepsSolvent(init, w1, more))
      <==> z >= 0
  {
    var w1 := Accepting(w, u, z);
    if z < 0 {
      var more := NegativeBreaksSolvency(init, w, u, z);
      assert !KeepsSolvent(init, w1, more);
    } else {
      forall more ensures KeepsSolvent(init, w1, more) {
        if Continues(w1, more) {
          StaysSolid(init, w, u, z, more);
          forall v { SolidCovers(init, Run(w1, more), v); }
        }
      }
    }
  }

  /// Failing withdrawals

  function Retried(w: World, i: nat, n: nat): World
    requires i < |w.db.transfers|
  {
    WithRow(w, i, w.db.transfers[i].(retries := n))
  }

  /** A waiting row can fail until its retries are used up, and nothing else changes. */
  lemma {:induction false} FailUp(w: World, i: nat) returns (es: seq<Event>)
    requires i < |w.db.transfers| && w.db.transfers[i].retries <= MAX_TRANSFER_RETRIES
    requires w.db.transfers[i].kind.ToExternalWallet? && w.db.transfers[i].status.Pending?
    ensures Legal(w, es) && Run(w, es) == Retried(w, i, MAX_TRANSFER_RETRIES)
    decreases MAX_TRANSFER_RETRIES - w.db.transfers[i].retries
  {
    var t := w.db.transfers[i];
    if t.retries == MAX_TRANSFER_RETRIES {
      es := [];
      assert w.db.transfers[i := t] == w.db.transfers;
    } else {
      BatchOfOne(w, Pick(i, Fails));
      var w1 := Retried(w, i, t.retries + 1);
      var rest := FailUp(w1, i);
      RunCons(w, RunBatch([Pick(i, Fails)]), rest);
      assert w1.db.transfers[i := t.(retries := MAX_TRANSFER_RETRIES)]
        == w.db.transfers[i := t.(retries := MAX_TRANSFER_RETRIES)];
      es := [RunBatch([Pick(i, Fails)])] + rest;
    }
  }

  /** With the retries used up, one more failure gives a negative withdrawal back. */
  lemma GiveBack(w: World, i: nat)
    requires i < |w.db.transfers| && w.db.transfers[i].retries == MAX_TRANSFER_RETRIES
    requires var t := w.db.transfers[i];
      && t.kind.ToExternalWallet? && t.status.Pending? && t.amount <= 0
      && t.user in w.db.wallets && w.db.wallets[t.user].pending.Some?
      && BalanceOf(w.db.wallets, t.user) >= 0 && PendingOf(w.db.wallets, t.user) >= 0
    ensures var e := RunBatch([Pick(i, Fails)]);
      var t := w.db.transfers[i];
      && Enabled(w, e)
      && BalanceOf(Next(w, e).db.wallets, t.user) == BalanceOf(w.db.wallets, t.user)
      && PendingOf(Next(w, e).db.wallets, t.user) == PendingOf(w.db.wallets, t.user) - t.amount
      && |Next(w, e).db.transfers| == |w.db.transfers|
  {
    BatchOfOne(w, Pick(i, Fails));
  }

  /** After one accepted negative withdrawal the user reserves the whole balance; when the negative one is given
      up, more is reserved than there is. */
  lemma NegativeBreaksBooks(init: Wallets, w: World, u: UserId, z: int) returns (more: seq<Event>)
    requires Inv(init, w) && Solid(w) && u in w.db.wallets && z < 0
    ensures var w1 := Accepting(w, u, z);
      && Continues(w1, more)
      && PendingOf(Run(w1, more).db.wallets, u) > BalanceOf(Run(w1, more).db.wallets, u)
  {
    var n := |w.db.transfers|;
    var x := Overdraw(init, w, u, z);
    var w1 := Accepting(w, u, z);
    var w2 := Accepting(w1, u, x);
    assert Balanced(init, w, u);
    TotalNonNegative(w.db.transfers, Claims, u);
    var fails := FailUp(w2, n);
    var w3 := Run(w2, fails);
    GiveBack(w3, n);
    var last := RunBatch([Pick(n, Fails)]);
    RunCons(w3, last, []);
    RunAppend(w2, fails, [last] + []);
    var ask := Withdraw(u, true, Some(x));
    RunCons(w1, ask, fails + ([last] + []));
    more := [ask] + (fails + ([last] + []));
    RunPersists(w2, fails + ([last] + []));
    assert Succeeds(w2.db.transfers[n + 1], Run(w1, more).db.transfers[n + 1]);
  }

  /** The exact condition for the books: they agree for all users in every run that registers no further negative
      amount, if and only if the accepted amount was not negative. */
  lemma BooksExactly(init: Wallets, w: World, u: UserId, z: int)
    requires Accepts(init, w, u, z)
    ensures var w1 := Accepting(w, u, z);
      (forall more :: KeepsBooks(init, w1, more))
      <==> z >= 0
  {
    var w1 := Accepting(w, u, z);
    if z < 0 {
      var more := NegativeBreaksBooks(init, w, u, z);
      assert !Agree(init, Run(w1, more), u);
      assert !KeepsBooks(init, w1, more);
    } else {
      forall more ensures KeepsBooks(init, w1, more) {
        if Continues(w1, more) {
          StaysSolid(init, w, u, z, more);
          forall v { SolidAgrees(init, Run(w1, more), v); }
        }
      }
    }
  }
}
