// The MKC token ledger of the game: wallet rows, transfer rows and what the chain has accepted.
// A withdrawal reserves its amount, is sent on chain once, and is debited when confirmed; a deposit
// is swept into the game account and then credited. Every chain call is answered by the environment.

module MkcTransfers {
  import opened Options

  type UserId = nat
  type Hash = nat

  datatype Kind = ToGameWallet | ToExternalWallet
  datatype Status = Pending | InProgress | Done | Failed

  /** A row of user_wallet_transfers; its id is its position. Amounts are in wei. */
  datatype Transfer = Transfer(kind: Kind, user: UserId, amount: int, status: Status, retries: nat,
                               source: Option<Hash>, hash: Option<Hash>)
  {
    predicate Live() { status.Pending? || status.InProgress? }
  }

  /** A row of user_mkc_wallets; the pending column is NULL until the first withdrawal. */
  datatype Wallet = Wallet(balance: int, pending: Option<int>)

  type Wallets = map<UserId, Wallet>
  datatype Db = Db(wallets: Wallets, transfers: seq<Transfer>)

  /** A token transfer the chain accepted: out of the game account to a user, or from a user's deposit
      address into the game account. No rollback of the database takes it back. */
  datatype Movement = Movement(id: nat, user: UserId, amount: int)
  datatype World = World(db: Db, payouts: seq<Movement>, sweeps: seq<Movement>)

  /** What the chain answers about one transfer: too few confirmations, an exception, or success. */
  datatype Answer = Unconfirmed | Fails | Accepted(hash: Hash)
  datatype Pick = Pick(id: nat, answer: Answer)

  const MAX_TRANSFER_RETRIES: nat := 5

  /// In-game balances

  function BalanceOf(ws: Wallets, u: UserId): int {
    if u in ws then ws[u].balance else 0
  }

  function PendingOf(ws: Wallets, u: UserId): int {
    if u in ws && ws[u].pending.Some? then ws[u].pending.value else 0
  }

  function Incremented(ws: Wallets, u: UserId, amount: int): Wallets {
    ws[u := if u in ws then ws[u].(balance := ws[u].balance + amount) else Wallet(amount, None)]
  }

  /** The wallet row after taking `amount` off both columns; None when the source throws. */
  function Decreased(ws: Wallets, u: UserId, amount: int): Option<Wallet> {
    if u !in ws || ws[u].pending.None? then None
    else if ws[u].balance < amount || ws[u].pending.value < amount then None
    else Some(Wallet(ws[u].balance - amount, Some(ws[u].pending.value - amount)))
  }

  /// The processing steps

  /** The error handler: one more retry, or give up. None when the handler itself throws. */
  function RetryOrRevert(db: Db, id: nat): Option<Db>
    requires id < |db.transfers|
  {
    var t := db.transfers[id];
    if t.retries != MAX_TRANSFER_RETRIES then
      Some(db.(transfers := db.transfers[id := t.(retries := t.retries + 1)]))
    else
      var failed := db.transfers[id := t.(status := Failed)];
      if t.kind.ToExternalWallet? && t.status.Pending? then
        match Decreased(db.wallets, t.user, t.amount)
        case None => None
        case Some(w) =>
          Some(Db(db.wallets[t.user := db.wallets[t.user].(pending := w.pending)], failed))
      else
        Some(db.(transfers := failed))
  }

  function Retry(w: World, id: nat): Option<World>
    requires id < |w.db.transfers|
  {
    match RetryOrRevert(w.db, id)
    case None => None
    case Some(db) => Some(w.(db := db))
  }

  function WithRow(w: World, id: nat, t: Transfer): World
    requires id < |w.db.transfers|
  {
    w.(db := w.db.(transfers := w.db.transfers[id := t]))
  }

  /** Processing of one transfer; None when an exception leaves the step. */
  function Process(w: World, p: Pick): Option<World>
    requires p.id < |w.db.transfers|
  {
    var t := w.db.transfers[p.id];
    match (t.kind, t.status)
    case (ToGameWallet, Pending) =>
      (match p.answer
       case Unconfirmed => Some(w)
       case Fails => Retry(w, p.id)
       case Accepted(h) =>
         var swept := WithRow(w, p.id, t.(retries := 0, hash := Some(h), status := InProgress));
         Some(swept.(sweeps := w.sweeps + [Movement(p.id, t.user, t.amount)])))
    case (ToGameWallet, InProgress) =>
      (match p.answer
       case Unconfirmed => Some(w)
       case Fails => Retry(w, p.id)
       case Accepted(_) =>
         var done := WithRow(w, p.id, t.(status := Done));
         Some(done.(db := done.db.(wallets := Incremented(w.db.wallets, t.user, t.amount)))))
    case (ToExternalWallet, Pending) =>
      // there is no confirmation test on this path: the call either succeeds or throws, as it does when
      // the amount is negative and cannot be encoded
      if p.answer.Accepted? && t.amount >= 0 then
        var sent := WithRow(w, p.id, t.(retries := 0, hash := Some(p.answer.hash), status := InProgress));
        Some(sent.(payouts := w.payouts + [Movement(p.id, t.user, t.amount)]))
      else
        Retry(w, p.id)
    case (ToExternalWallet, InProgress) =>
      (match p.answer
       case Unconfirmed => Some(w)
       case Fails => Retry(w, p.id)
       case Accepted(_) =>
         match Decreased(w.db.wallets, t.user, t.amount)
         case None => Retry(w, p.id)
         case Some(wallet) =>
           var done := WithRow(w, p.id, t.(status := Done));
           Some(done.(db := done.db.(wallets := w.db.wallets[t.user := wallet]))))
    case _ => Some(w)
  }

  datatype BatchResult = Finished(w: World) | Aborted(payouts: seq<Movement>, sweeps: seq<Movement>)

  function ProcessAll(w: World, picks: seq<Pick>): BatchResult
    requires forall p <- picks :: p.id < |w.db.transfers|
    decreases |picks|
  {
    if picks == [] then Finished(w)
    else
      match Process(w, picks[0])
      case None => Aborted(w.payouts, w.sweeps)
      case Some(w') => ProcessAll(w', picks[1..])
  }

  /** One run of the job: an escaping exception rolls the database back, but not the chain. */
  function Batch(w: World, picks: seq<Pick>): World
    requires forall p <- picks :: p.id < |w.db.transfers|
  {
    match ProcessAll(w, picks)
    case Finished(w') => w'
    case Aborted(sent, swept) => w.(payouts := sent, sweeps := swept)
  }

  /// The other entry points

  /** A withdrawal request; `amount` is None when the text is not a number. Nothing refuses a negative one. */
  function Request(w: World, u: UserId, addressOk: bool, amount: Option<int>): World {
    if u !in w.db.wallets || !addressOk || amount.None? then w
    else if amount.value > BalanceOf(w.db.wallets, u) - PendingOf(w.db.wallets, u) then w
    else
      var row := NewWithdrawal(u, amount.value);
      var wallet := w.db.wallets[u].(pending := Some(PendingOf(w.db.wallets, u) + amount.value));
      w.(db := Db(w.db.wallets[u := wallet], w.db.transfers + [row]))
  }

  predicate Registered(ts: seq<Transfer>, source: Hash) {
    exists t <- ts :: t.source == Some(source)
  }

  /** A Transfer event seen on chain; `to` is the user owning the receiving address, if any. */
  function Seen(w: World, to: Option<UserId>, amount: nat, source: Hash): World {
    if to.None? || amount == 0 || Registered(w.db.transfers, source) then w
    else
      var row := Transfer(ToGameWallet, to.value, amount, Pending, 0, Some(source), None);
      w.(db := w.db.(transfers := w.db.transfers + [row]))
  }

  function Opened(w: World, u: UserId): World {
    if u in w.db.wallets then w else w.(db := w.db.(wallets := w.db.wallets[u := Wallet(0, None)]))
  }

  datatype Event =
    | OpenWallet(user: UserId)
    | Withdraw(user: UserId, addressOk: bool, amount: Option<int>)
    | Observe(to: Option<UserId>, tokens: nat, source: Hash, index: nat) // the index within the transaction is not used
    | RunBatch(picks: seq<Pick>)

  /** What the selecting query may hand out: live rows, each at most once (locked rows are skipped). */
  ghost predicate Selectable(ts: seq<Transfer>, picks: seq<Pick>) {
    && (forall p <- picks :: p.id < |ts| && ts[p.id].Live())
    && forall i, j :: 0 <= i < j < |picks| ==> picks[i].id != picks[j].id
  }

  ghost predicate Enabled(w: World, e: Event) {
    e.RunBatch? ==> Selectable(w.db.transfers, e.picks)
  }

  function Next(w: World, e: Event): World
    requires e.RunBatch? ==> forall p <- e.picks :: p.id < |w.db.transfers|
  {
    match e
    case OpenWallet(u) => Opened(w, u)
    case Withdraw(u, ok, amount) => Request(w, u, ok, amount)
    case Observe(to, tokens, source, _) => Seen(w, to, tokens, source)
    case RunBatch(picks) => Batch(w, picks)
  }

  ghost predicate Legal(w: World, es: seq<Event>)
    decreases |es|
  {
    es == [] || (Enabled(w, es[0]) && Legal(Next(w, es[0]), es[1..]))
  }

  ghost function Run(w: World, es: seq<Event>): World
    requires Legal(w, es)
    decreases |es|
  {
    if es == [] then w else Run(Next(w, es[0]), es[1..])
  }

  /// Sums over the transfer table

  /** What a sum runs over. A reservation is a live claim, a live debt (a negative amount), or stuck: failed after
      it was sent. */
  datatype Meter = Reserved | Claims | Debts | Stuck | Waiting | Deposited | Withdrawn | PaidOut | Swept

  predicate Reserves(t: Transfer) {
    t.kind.ToExternalWallet? && (t.Live() || (t.status.Failed? && t.hash.Some?))
  }

  predicate Counts(m: Meter, t: Transfer) {
    match m
    case Reserved => Reserves(t)
    case Claims => t.kind.ToExternalWallet? && t.Live() && t.amount >= 0
    case Debts => t.kind.ToExternalWallet? && t.Live() && t.amount < 0
    case Stuck => t.kind.ToExternalWallet? && t.status.Failed? && t.hash.Some?
    case Waiting => t.kind.ToExternalWallet? && t.status.Pending?
    case Deposited => t.kind.ToGameWallet? && t.status.Done?
    case Withdrawn => t.kind.ToExternalWallet? && t.status.Done?
    case PaidOut => t.kind.ToExternalWallet? && t.hash.Some?
    case Swept => t.kind.ToGameWallet? && t.hash.Some?
  }

  function Weight(m: Meter, u: UserId, t: Transfer): int {
    if t.user == u && Counts(m, t) then t.amount else 0
  }

  function Total(ts: seq<Transfer>, m: Meter, u: UserId): int {
    if ts == [] then 0 else Total(ts[..|ts| - 1], m, u) + Weight(m, u, ts[|ts| - 1])
  }

  function Moved(ms: seq<Movement>, u: UserId): int {
    if ms == [] then 0
    else
      var last := ms[|ms| - 1];
      Moved(ms[..|ms| - 1], u) + if last.user == u then last.amount else 0
  }

  lemma TotalAppend(ts: seq<Transfer>, t: Transfer, m: Meter, u: UserId)
    ensures Total(ts + [t], m, u) == Total(ts, m, u) + Weight(m, u, t)
  {
  }

  lemma {:induction false} TotalUpdate(ts: seq<Transfer>, i: nat, t: Transfer, m: Meter, u: UserId)
    requires i < |ts|
    ensures Total(ts[i := t], m, u) == Total(ts, m, u) - Weight(m, u, ts[i]) + Weight(m, u, t)
  {
    var n := |ts| - 1;
    if i == n {
      assert ts[i := t][..n] == ts[..n];
    } else {
      assert ts[i := t][..n] == ts[..n][i := t];
      TotalUpdate(ts[..n], i, t, m, u);
    }
  }

  predicate Unsigned(ts: seq<Transfer>) {
    forall t <- ts :: t.amount >= 0
  }

  lemma {:induction false} TotalNonNegative(ts: seq<Transfer>, m: Meter, u: UserId)
    requires forall t <- ts :: Weight(m, u, t) >= 0
    ensures Total(ts, m, u) >= 0
  {
    if ts != [] {
      TotalNonNegative(ts[..|ts| - 1], m, u);
    }
  }

  lemma {:induction false} TotalCovers(ts: seq<Transfer>, i: nat, m: Meter, u: UserId)
    requires i < |ts| && forall t <- ts :: Weight(m, u, t) >= 0
    ensures Weight(m, u, ts[i]) <= Total(ts, m, u)
  {
    var n := |ts| - 1;
    if i < n {
      TotalCovers(ts[..n], i, m, u);
    } else {
      TotalNonNegative(ts[..n], m, u);
    }
  }

  lemma {:induction false} ReservedSplits(ts: seq<Transfer>, u: UserId)
    ensures Total(ts, Reserved, u) == Total(ts, Claims, u) + Total(ts, Debts, u) + Total(ts, Stuck, u)
  {
    if ts != [] {
      ReservedSplits(ts[..|ts| - 1], u);
    }
  }

  /** A sum to which a single row contributes. */
  lemma {:induction false} TotalOfOne(ts: seq<Transfer>, i: nat, m: Meter, u: UserId)
    requires i < |ts| && forall j :: 0 <= j < |ts| && j != i ==> Weight(m, u, ts[j]) == 0
    ensures Total(ts, m, u) == Weight(m, u, ts[i])
  {
    var n := |ts| - 1;
    if i < n {
      TotalOfOne(ts[..n], i, m, u);
    } else {
      TotalOfNone(ts[..n], m, u);
    }
  }

  lemma {:induction false} TotalOfNone(ts: seq<Transfer>, m: Meter, u: UserId)
    requires forall j :: 0 <= j < |ts| ==> Weight(m, u, ts[j]) == 0
    ensures Total(ts, m, u) == 0
  {
    if ts != [] {
      TotalOfNone(ts[..|ts| - 1], m, u);
    }
  }

  /// The invariant

  /** What every transfer row keeps in any run. */
  predicate RowOk(t: Transfer) {
    && t.retries <= MAX_TRANSFER_RETRIES
    && (t.kind.ToGameWallet? <==> t.source.Some?)
    && (t.status.Pending? ==> t.hash.None?)
    && (t.status.InProgress? || t.status.Done? ==> t.hash.Some?)
  }

  /** Only an unsent withdrawal can be negative, and a reservation has its wallet. */
  predicate GoodRow(ws: Wallets, t: Transfer) {
    && RowOk(t)
    && (t.kind.ToGameWallet? || t.hash.Some? ==> t.amount >= 0)
    && (Reserves(t) ==> t.user in ws && ws[t.user].pending.Some?)
  }

  /** The user's live debts are no more than what is stuck. */
  ghost predicate Backed(ts: seq<Transfer>, u: UserId) {
    Total(ts, Debts, u) + Total(ts, Stuck, u) >= 0
  }

  /** Balance and reservation of one user, both read off the transfer table; the balance covers the claims, and
      what is stuck covers the debts. */
  ghost predicate Balanced(init: Wallets, w: World, u: UserId) {
    var ts := w.db.transfers;
    && BalanceOf(w.db.wallets, u) == BalanceOf(init, u) + Total(ts, Deposited, u) - Total(ts, Withdrawn, u)
    && PendingOf(w.db.wallets, u) == Total(ts, Reserved, u)
    && Total(ts, Claims, u) <= BalanceOf(w.db.wallets, u)
    && Backed(ts, u)
    && Moved(w.payouts, u) == Total(ts, PaidOut, u)
    && Moved(w.sweeps, u) == Total(ts, Swept, u)
  }

  predicate PaysRow(p: Movement, ts: seq<Transfer>) {
    && p.id < |ts|
    && ts[p.id].kind.ToExternalWallet? && ts[p.id].hash.Some?
    && ts[p.id].user == p.user && ts[p.id].amount == p.amount
  }

  predicate RowsGood(ws: Wallets, ts: seq<Transfer>) {
    forall t <- ts :: GoodRow(ws, t)
  }

  predicate SourcesDistinct(ts: seq<Transfer>) {
    forall i, j :: 0 <= i < j < |ts| && ts[i].source.Some? ==> ts[i].source != ts[j].source
  }

  ghost predicate Books(init: Wallets, w: World) {
    forall u :: Balanced(init, w, u)
  }

  /** Each payout belongs to its own external transfer, which records that it was sent. */
  predicate PayoutsSound(payouts: seq<Movement>, ts: seq<Transfer>) {
    && (forall p <- payouts :: PaysRow(p, ts))
    && forall i, j :: 0 <= i < j < |payouts| ==> payouts[i].id != payouts[j].id
  }

  ghost predicate Inv(init: Wallets, w: World) {
    && RowsGood(w.db.wallets, w.db.transfers)
    && SourcesDistinct(w.db.transfers)
    && Books(init, w)
    && PayoutsSound(w.payouts, w.db.transfers)
  }

  /** Wallet rows as they stand before any transfer. */
  predicate Opening(init: Wallets) {
    forall u <- init :: init[u].balance >= 0 && (init[u].pending.Some? ==> init[u].pending.value == 0)
  }

  function Start(init: Wallets): World {
    World(Db(init, []), [], [])
  }

  /// Every step keeps the invariant

  /** `t'` may take the place of `t`: same identity, no forgotten payment, no spent source. */
  predicate Succeeds(t: Transfer, t': Transfer) {
    && t'.kind == t.kind && t'.user == t.user && t'.amount == t.amount && t'.source == t.source
    && (t.hash.Some? ==> t'.hash.Some?)
  }

  /** No row is ever dropped, and what identifies it stays. */
  predicate Persists(ts: seq<Transfer>, ts': seq<Transfer>) {
    |ts| <= |ts'| && forall i | 0 <= i < |ts| :: Succeeds(ts[i], ts'[i])
  }

  lemma {:induction false} BatchPersists(w: World, picks: seq<Pick>)
    requires forall p <- picks :: p.id < |w.db.transfers|
    ensures Persists(w.db.transfers, Batch(w, picks).db.transfers)
    ensures |Batch(w, picks).db.transfers| == |w.db.transfers|
    decreases |picks|
  {
    if picks != [] && Process(w, picks[0]).Some? {
      ProcessFrame(w, picks[0]);
      BatchPersists(Process(w, picks[0]).value, picks[1..]);
    }
  }

  lemma NextPersists(w: World, e: Event)
    requires Enabled(w, e)
    ensures Persists(w.db.transfers, Next(w, e).db.transfers)
  {
    if e.RunBatch? {
      BatchPersists(w, e.picks);
    }
  }

  lemma {:induction false} RunPersists(w: World, es: seq<Event>)
    requires Legal(w, es)
    ensures Persists(w.db.transfers, Run(w, es).db.transfers)
    decreases |es|
  {
    if es != [] {
      NextPersists(w, es[0]);
      RunPersists(Next(w, es[0]), es[1..]);
    }
  }

  predicate WalletsGrow(ws: Wallets, ws': Wallets) {
    forall u <- ws :: u in ws' && (ws[u].pending.Some? ==> ws'[u].pending.Some?)
  }

  /** Replacing one row and changing wallets keeps everything but the books. */
  lemma ReplaceRow(ws: Wallets, ws': Wallets, ts: seq<Transfer>, id: nat, t': Transfer, payouts: seq<Movement>)
    requires RowsGood(ws, ts) && SourcesDistinct(ts) && PayoutsSound(payouts, ts)
    requires id < |ts| && Succeeds(ts[id], t') && GoodRow(ws', t') && WalletsGrow(ws, ws')
    ensures RowsGood(ws', ts[id := t']) && SourcesDistinct(ts[id := t']) && PayoutsSound(payouts, ts[id := t'])
  {
    forall t | t in ts[id := t'] ensures GoodRow(ws', t) {
      if t != t' {
        assert t in ts && GoodRow(ws, t);
      }
    }
    forall p | p in payouts ensures PaysRow(p, ts[id := t']) {
      assert PaysRow(p, ts);
    }
  }

  lemma AppendRow(ws: Wallets, ws': Wallets, ts: seq<Transfer>, t: Transfer, payouts: seq<Movement>)
    requires RowsGood(ws, ts) && SourcesDistinct(ts) && PayoutsSound(payouts, ts)
    requires GoodRow(ws', t) && WalletsGrow(ws, ws')
    requires t.source.Some? ==> !Registered(ts, t.source.value)
    ensures RowsGood(ws', ts + [t]) && SourcesDistinct(ts + [t]) && PayoutsSound(payouts, ts + [t])
  {
  }

  /** How the sums of a user move when one row is replaced, and when one is added. */
  lemma SumsMove(ts: seq<Transfer>, id: nat, t': Transfer, u: UserId)
    requires id < |ts|
    ensures forall m: Meter ::
      Total(ts[id := t'], m, u) == Total(ts, m, u) - Weight(m, u, ts[id]) + Weight(m, u, t')
  {
    forall m: Meter {
      TotalUpdate(ts, id, t', m, u);
    }
  }

  lemma SumsGrow(ts: seq<Transfer>, t: Transfer, u: UserId)
    ensures forall m: Meter :: Total(ts + [t], m, u) == Total(ts, m, u) + Weight(m, u, t)
  {
    forall m: Meter {
      TotalAppend(ts, t, m, u);
    }
  }

  /** A user's columns and payments move as the weights of row `id` do; claims grow no more than the balance,
      and debts shrink or get stuck. */
  ghost predicate ColumnsMove(w: World, w': World, id: nat, u: UserId)
    requires id < |w.db.transfers| && id < |w'.db.transfers|
  {
    var t, t' := w.db.transfers[id], w'.db.transfers[id];
    && BalanceOf(w'.db.wallets, u) == BalanceOf(w.db.wallets, u)
         + Weight(Deposited, u, t') - Weight(Deposited, u, t) - Weight(Withdrawn, u, t') + Weight(Withdrawn, u, t)
    && PendingOf(w'.db.wallets, u) == PendingOf(w.db.wallets, u) + Weight(Reserved, u, t') - Weight(Reserved, u, t)
    && Weight(Claims, u, t') - Weight(Claims, u, t) <= BalanceOf(w'.db.wallets, u) - BalanceOf(w.db.wallets, u)
    && Weight(Debts, u, t') + Weight(Stuck, u, t') >= Weight(Debts, u, t) + Weight(Stuck, u, t)
    && Moved(w'.payouts, u) == Moved(w.payouts, u) + Weight(PaidOut, u, t') - Weight(PaidOut, u, t)
    && Moved(w'.sweeps, u) == Moved(w.sweeps, u) + Weight(Swept, u, t') - Weight(Swept, u, t)
  }

  /** Then the books still agree. */
  lemma BalanceMoves(init: Wallets, w: World, w': World, id: nat, u: UserId)
    requires Balanced(init, w, u)
    requires id < |w.db.transfers| && id < |w'.db.transfers|
    requires w'.db.transfers == w.db.transfers[id := w'.db.transfers[id]]
    requires ColumnsMove(w, w', id, u)
    ensures Balanced(init, w', u)
  {
    SumsMove(w.db.transfers, id, w'.db.transfers[id], u);
  }

  /** A step that replaces one row and moves all columns with it keeps the invariant. */
  lemma RowStep(init: Wallets, w: World, w': World, id: nat)
    requires Inv(init, w) && id < |w.db.transfers| && id < |w'.db.transfers|
    requires w'.db.transfers == w.db.transfers[id := w'.db.transfers[id]]
    requires Succeeds(w.db.transfers[id], w'.db.transfers[id]) && GoodRow(w'.db.wallets, w'.db.transfers[id])
    requires WalletsGrow(w.db.wallets, w'.db.wallets) && forall u :: ColumnsMove(w, w', id, u)
    requires w'.payouts == w.payouts
      || w'.payouts == w.payouts + [Movement(id, w.db.transfers[id].user, w.db.transfers[id].amount)]
    requires w'.payouts != w.payouts ==>
               PaysRow(w'.payouts[|w.payouts|], w'.db.transfers) && w.db.transfers[id].hash.None?
    ensures Inv(init, w')
  {
    ReplaceRow(w.db.wallets, w'.db.wallets, w.db.transfers, id, w'.db.transfers[id], w.payouts);
    forall p | p in w.payouts && w'.payouts != w.payouts ensures p.id != id {
      assert PaysRow(p, w.db.transfers);
    }
    forall u ensures Balanced(init, w', u) {
      assert Balanced(init, w, u) && ColumnsMove(w, w', id, u);
      BalanceMoves(init, w, w', id, u);
    }
  }

  /** The wallet behind a live withdrawal can always be decreased by it. */
  lemma LiveIsCovered(init: Wallets, w: World, id: nat)
    requires Inv(init, w)
    requires id < |w.db.transfers| && w.db.transfers[id].kind.ToExternalWallet? && w.db.transfers[id].Live()
    ensures var t := w.db.transfers[id]; Decreased(w.db.wallets, t.user, t.amount).Some?
  {
    var ts := w.db.transfers;
    var t := ts[id];
    assert t in ts && GoodRow(w.db.wallets, t);
    assert Balanced(init, w, t.user);
    ReservedSplits(ts, t.user);
    TotalCovers(ts, id, Claims, t.user);
    TotalNonNegative(ts, Claims, t.user);
  }

  /** A retry, or giving up on a transfer that reserves nothing or was sent, moves no column. */
  lemma RetryKeeps(init: Wallets, w: World, id: nat)
    requires Inv(init, w)
    requires id < |w.db.transfers| && w.db.transfers[id].Live()
    ensures Retry(w, id).Some? && Inv(init, Retry(w, id).value)
  {
    var t := w.db.transfers[id];
    assert t in w.db.transfers && GoodRow(w.db.wallets, t);
    if t.retries == MAX_TRANSFER_RETRIES && t.kind.ToExternalWallet? && t.status.Pending? {
      RevertKeeps(init, w, id);
    } else {
      RowStep(init, w, Retry(w, id).value, id);
    }
  }

  /** Giving up on an unsent withdrawal releases its reservation. */
  lemma RevertKeeps(init: Wallets, w: World, id: nat)
    requires Inv(init, w) && id < |w.db.transfers|
    requires var t := w.db.transfers[id];
      t.retries == MAX_TRANSFER_RETRIES && t.kind.ToExternalWallet? && t.status.Pending?
    ensures Retry(w, id).Some? && Inv(init, Retry(w, id).value)
  {
    assert w.db.transfers[id] in w.db.transfers && GoodRow(w.db.wallets, w.db.transfers[id]);
    LiveIsCovered(init, w, id);
    RowStep(init, w, Retry(w, id).value, id);
  }

  lemma MovedAppend(ms: seq<Movement>, m: Movement, u: UserId)
    ensures Moved(ms + [m], u) == Moved(ms, u) + if m.user == u then m.amount else 0
  {
  }

  /** Marking a row as sent moves the payments with it. */
  lemma SentColumns(w: World, w': World, id: nat, h: Hash, u: UserId)
    requires id < |w.db.transfers| && w.db.transfers[id].status.Pending? && GoodRow(w.db.wallets, w.db.transfers[id])
    requires w'.db.wallets == w.db.wallets
    requires w'.db.transfers == w.db.transfers[id := Sent(w.db.transfers[id], h)]
    requires var t, m := w.db.transfers[id], Movement(id, w.db.transfers[id].user, w.db.transfers[id].amount);
      if t.kind.ToGameWallet?
      then w'.payouts == w.payouts && w'.sweeps == w.sweeps + [m]
      else t.amount >= 0 && w'.payouts == w.payouts + [m] && w'.sweeps == w.sweeps
    ensures ColumnsMove(w, w', id, u)
  {
    var t := w.db.transfers[id];
    SentWeights(w.db.wallets, t, h);
    if t.kind.ToGameWallet? {
      MovedAppend(w.sweeps, Movement(id, t.user, t.amount), u);
    } else {
      MovedAppend(w.payouts, Movement(id, t.user, t.amount), u);
    }
  }

  /** Sending a row counts as a payment or a sweep, and it waits no longer. */
  lemma SentWeights(ws: Wallets, t: Transfer, h: Hash)
    requires t.status.Pending? && GoodRow(ws, t) && t.amount >= 0
    ensures forall u, m: Meter | m != Waiting ::
        Weight(m, u, Sent(t, h)) == Weight(m, u, t)
          + if t.user == u && m == (if t.kind.ToGameWallet? then Swept else PaidOut) then t.amount else 0
  {
  }

  function Sent(t: Transfer, h: Hash): Transfer {
    t.(retries := 0, hash := Some(h), status := InProgress)
  }

  /** A withdrawal is sent: it has not been sent before. */
  lemma SendKeeps(init: Wallets, w: World, id: nat, h: Hash)
    requires Inv(init, w) && id < |w.db.transfers| && w.db.transfers[id].amount >= 0
    requires w.db.transfers[id].status.Pending? && w.db.transfers[id].kind.ToExternalWallet?
    ensures Process(w, Pick(id, Accepted(h))).Some? && Inv(init, Process(w, Pick(id, Accepted(h))).value)
  {
    assert w.db.transfers[id] in w.db.transfers && GoodRow(w.db.wallets, w.db.transfers[id]);
    var w' := Process(w, Pick(id, Accepted(h))).value;
    forall u ensures ColumnsMove(w, w', id, u) {
      SentColumns(w, w', id, h, u);
    }
    RowStep(init, w, w', id);
  }

  /** A deposit is swept into the game account. */
  lemma SweepKeeps(init: Wallets, w: World, id: nat, h: Hash)
    requires Inv(init, w) && id < |w.db.transfers|
    requires w.db.transfers[id].status.Pending? && w.db.transfers[id].kind.ToGameWallet?
    ensures Process(w, Pick(id, Accepted(h))).Some? && Inv(init, Process(w, Pick(id, Accepted(h))).value)
  {
    assert w.db.transfers[id] in w.db.transfers && GoodRow(w.db.wallets, w.db.transfers[id]);
    var w' := Process(w, Pick(id, Accepted(h))).value;
    forall u ensures ColumnsMove(w, w', id, u) {
      SentColumns(w, w', id, h, u);
    }
    RowStep(init, w, w', id);
  }

  /** A swept deposit is credited. */
  lemma CreditKeeps(init: Wallets, w: World, id: nat, h: Hash)
    requires Inv(init, w) && id < |w.db.transfers|
    requires w.db.transfers[id].status.InProgress? && w.db.transfers[id].kind.ToGameWallet?
    ensures Process(w, Pick(id, Accepted(h))).Some? && Inv(init, Process(w, Pick(id, Accepted(h))).value)
  {
    assert w.db.transfers[id] in w.db.transfers && GoodRow(w.db.wallets, w.db.transfers[id]);
    RowStep(init, w, Process(w, Pick(id, Accepted(h))).value, id);
  }

  /** A sent withdrawal is debited. */
  lemma DebitKeeps(init: Wallets, w: World, id: nat, h: Hash)
    requires Inv(init, w) && id < |w.db.transfers|
    requires w.db.transfers[id].status.InProgress? && w.db.transfers[id].kind.ToExternalWallet?
    ensures Process(w, Pick(id, Accepted(h))).Some? && Inv(init, Process(w, Pick(id, Accepted(h))).value)
  {
    assert w.db.transfers[id] in w.db.transfers && GoodRow(w.db.wallets, w.db.transfers[id]);
    LiveIsCovered(init, w, id);
    RowStep(init, w, Process(w, Pick(id, Accepted(h))).value, id);
  }

  /** One processing step keeps the invariant, and no exception leaves it. */
  lemma ProcessKeeps(init: Wallets, w: World, p: Pick)
    requires Inv(init, w)
    requires p.id < |w.db.transfers| && w.db.transfers[p.id].Live()
    ensures Process(w, p).Some? && Inv(init, Process(w, p).value)
  {
    RetryKeeps(init, w, p.id);
    var t := w.db.transfers[p.id];
    if p.answer.Accepted? {
      if t.kind.ToExternalWallet? && t.status.Pending? {
        if t.amount >= 0 { SendKeeps(init, w, p.id, p.answer.hash); }
      } else if t.kind.ToExternalWallet? {
        DebitKeeps(init, w, p.id, p.answer.hash);
      } else if t.status.Pending? {
        SweepKeeps(init, w, p.id, p.answer.hash);
      } else {
        CreditKeeps(init, w, p.id, p.answer.hash);
      }
    }
  }

  /** A step touches no row but its own. */
  lemma ProcessFrame(w: World, p: Pick)
    requires p.id < |w.db.transfers| && Process(w, p).Some?
    ensures var ts' := Process(w, p).value.db.transfers;
      && |ts'| == |w.db.transfers| && (forall i :: 0 <= i < |ts'| && i != p.id ==> ts'[i] == w.db.transfers[i])
      && Succeeds(w.db.transfers[p.id], ts'[p.id])
  {
  }

  /** A batch over selected rows always commits. */
  lemma {:induction false} BatchKeeps(init: Wallets, w: World, picks: seq<Pick>)
    requires Inv(init, w) && Selectable(w.db.transfers, picks)
    ensures ProcessAll(w, picks).Finished? && Inv(init, Batch(w, picks))
    decreases |picks|
  {
    if picks != [] {
      ProcessKeeps(init, w, picks[0]);
      ProcessFrame(w, picks[0]);
      var w' := Process(w, picks[0]).value;
      assert Selectable(w'.db.transfers, picks[1..]);
      BatchKeeps(init, w', picks[1..]);
    }
  }

  /** A request keeps the invariant if the table stays backed, as it does when the amount is not negative. */
  lemma RequestKeeps(init: Wallets, w: World, u: UserId, ok: bool, amount: Option<int>)
    requires Inv(init, w) && Backed(Request(w, u, ok, amount).db.transfers, u)
    ensures Inv(init, Request(w, u, ok, amount))
  {
    var w' := Request(w, u, ok, amount);
    if w' != w {
      var row := w'.db.transfers[|w.db.transfers|];
      AppendRow(w.db.wallets, w'.db.wallets, w.db.transfers, row, w.payouts);
      forall x ensures Balanced(init, w', x) {
        assert Balanced(init, w, x);
        if x == u {
          RequestBalanced(init, w, u, amount.value);
        } else {
          SumsGrow(w.db.transfers, row, x);
        }
      }
    }
  }

  lemma RequestBalanced(init: Wallets, w: World, u: UserId, z: int)
    requires Balanced(init, w, u) && u in w.db.wallets
    requires z <= BalanceOf(w.db.wallets, u) - PendingOf(w.db.wallets, u)
    requires Backed(Request(w, u, true, Some(z)).db.transfers, u)
    ensures Balanced(init, Request(w, u, true, Some(z)), u)
  {
    var ts := w.db.transfers;
    var w' := Request(w, u, true, Some(z));
    assert w'.db.transfers == ts + [NewWithdrawal(u, z)];
    RequestSums(ts, u, z);
    ReservedSplits(ts, u);
    assert PendingOf(w'.db.wallets, u) == PendingOf(w.db.wallets, u) + z;
    assert BalanceOf(w'.db.wallets, u) == BalanceOf(w.db.wallets, u);
  }

  function NewWithdrawal(u: UserId, z: int): Transfer {
    Transfer(ToExternalWallet, u, z, Pending, 0, None, None)
  }

  /** What a new withdrawal adds to the sums of its user. */
  lemma RequestSums(ts: seq<Transfer>, u: UserId, z: int)
    ensures var ts' := ts + [NewWithdrawal(u, z)];
      && Total(ts', Reserved, u) == Total(ts, Reserved, u) + z
      && Total(ts', Waiting, u) == Total(ts, Waiting, u) + z
      && Total(ts', Claims, u) == Total(ts, Claims, u) + (if z >= 0 then z else 0)
      && Total(ts', Debts, u) == Total(ts, Debts, u) + (if z >= 0 then 0 else z)
      && Total(ts', Stuck, u) == Total(ts, Stuck, u)
      && Total(ts', Deposited, u) == Total(ts, Deposited, u)
      && Total(ts', Withdrawn, u) == Total(ts, Withdrawn, u)
      && Total(ts', PaidOut, u) == Total(ts, PaidOut, u)
      && Total(ts', Swept, u) == Total(ts, Swept, u)
  {
    SumsGrow(ts, NewWithdrawal(u, z), u);
  }

  lemma NonNegativeIsBacked(init: Wallets, w: World, u: UserId, ok: bool, amount: Option<int>)
    requires Inv(init, w) && (amount.Some? ==> amount.value >= 0)
    ensures Backed(Request(w, u, ok, amount).db.transfers, u)
  {
    assert Balanced(init, w, u);
    var w' := Request(w, u, ok, amount);
    if w' != w {
      SumsGrow(w.db.transfers, w'.db.transfers[|w.db.transfers|], u);
    }
  }

  lemma SeenKeeps(init: Wallets, w: World, to: Option<UserId>, amount: nat, source: Hash)
    requires Inv(init, w)
    ensures Inv(init, Seen(w, to, amount, source))
  {
    var w' := Seen(w, to, amount, source);
    if w' != w {
      var row := w'.db.transfers[|w.db.transfers|];
      AppendRow(w.db.wallets, w'.db.wallets, w.db.transfers, row, w.payouts);
      forall x ensures Balanced(init, w', x) {
        assert Balanced(init, w, x);
        SumsGrow(w.db.transfers, row, x);
      }
    }
  }

  lemma OpenKeeps(init: Wallets, w: World, u: UserId)
    requires Inv(init, w)
    ensures Inv(init, Opened(w, u))
  {
    forall x ensures Balanced(init, Opened(w, u), x) {
      assert Balanced(init, w, x);
    }
  }

  /** A withdrawal that leaves more debts than what is stuck is the one event that breaks the invariant. */
  ghost predicate Bearable(w: World, e: Event)
    requires Enabled(w, e)
  {
    e.Withdraw? ==> Backed(Next(w, e).db.transfers, e.user)
  }

  ghost predicate AllBearable(w: World, es: seq<Event>)
    requires Legal(w, es)
    decreases |es|
  {
    es == [] || (Bearable(w, es[0]) && AllBearable(Next(w, es[0]), es[1..]))
  }

  /** The invariant is inductive. */
  lemma NextKeeps(init: Wallets, w: World, e: Event)
    requires Inv(init, w) && Enabled(w, e) && Bearable(w, e)
    ensures Inv(init, Next(w, e))
  {
    match e
    case OpenWallet(u) => OpenKeeps(init, w, u);
    case Withdraw(u, ok, amount) => RequestKeeps(init, w, u, ok, amount);
    case Observe(to, tokens, source, _) => SeenKeeps(init, w, to, tokens, source);
    case RunBatch(picks) => BatchKeeps(init, w, picks);
  }

  lemma {:induction false} RunKeeps(init: Wallets, w: World, es: seq<Event>)
    requires Inv(init, w) && Legal(w, es) && AllBearable(w, es)
    ensures Inv(init, Run(w, es))
    decreases |es|
  {
    if es != [] {
      NextKeeps(init, w, es[0]);
      RunKeeps(init, Next(w, es[0]), es[1..]);
    }
  }

  /** The run adds no row with a negative amount. */
  predicate AddsNoNegative(ts: seq<Transfer>, ts': seq<Transfer>) {
    forall i | |ts| <= i < |ts'| :: ts'[i].amount >= 0
  }

  lemma NextBearable(init: Wallets, w: World, e: Event)
    requires Inv(init, w) && Enabled(w, e) && AddsNoNegative(w.db.transfers, Next(w, e).db.transfers)
    ensures Bearable(w, e)
  {
    if e.Withdraw? {
      var w' := Next(w, e);
      if w' == w {
        assert Balanced(init, w, e.user);
      } else {
        assert w'.db.transfers[|w.db.transfers|].amount == e.amount.value;
        NonNegativeIsBacked(init, w, e.user, e.addressOk, e.amount);
      }
    }
  }

  /** Runs that add no negative amount are bearable. */
  lemma {:induction false} NoNegativesKeep(init: Wallets, w: World, es: seq<Event>)
    requires Inv(init, w) && Legal(w, es) && AddsNoNegative(w.db.transfers, Run(w, es).db.transfers)
    ensures AllBearable(w, es) && Inv(init, Run(w, es))
    decreases |es|
  {
    if es != [] {
      var w' := Next(w, es[0]);
      NextPersists(w, es[0]);
      RunPersists(w', es[1..]);
      var ts', last := w'.db.transfers, Run(w, es).db.transfers;
      forall i | |w.db.transfers| <= i < |ts'| ensures ts'[i].amount >= 0 {
        assert Succeeds(ts'[i], last[i]);
      }
      NextBearable(init, w, es[0]);
      NextKeeps(init, w, es[0]);
      NoNegativesKeep(init, w', es[1..]);
    }
  }

  lemma StartHolds(init: Wallets)
    requires Opening(init)
    ensures Inv(init, Start(init))
  {
  }

  /// Without negative amounts

  /** No amount is negative, and no reservation exceeds its balance. */
  ghost predicate Solid(w: World) {
    Unsigned(w.db.transfers) && forall u :: PendingOf(w.db.wallets, u) <= BalanceOf(w.db.wallets, u)
  }

  lemma ProcessSolid(init: Wallets, w: World, p: Pick)
    requires Inv(init, w) && Solid(w) && p.id < |w.db.transfers| && w.db.transfers[p.id].Live()
    ensures Process(w, p).Some? && Solid(Process(w, p).value)
  {
    ProcessKeeps(init, w, p);
    var t := w.db.transfers[p.id];
    assert t in w.db.transfers && GoodRow(w.db.wallets, t);
    ProcessFrame(w, p);
    var w' := Process(w, p).value;
    forall x | x in w'.db.transfers ensures x.amount >= 0 {
      if x != w'.db.transfers[p.id] { assert x in w.db.transfers; }
    }
    forall u ensures PendingOf(w'.db.wallets, u) <= BalanceOf(w'.db.wallets, u) {
      assert PendingOf(w.db.wallets, u) <= BalanceOf(w.db.wallets, u);
    }
  }

  lemma {:induction false} BatchSolid(init: Wallets, w: World, picks: seq<Pick>)
    requires Inv(init, w) && Solid(w) && Selectable(w.db.transfers, picks)
    ensures Solid(Batch(w, picks))
    decreases |picks|
  {
    if picks != [] {
      ProcessKeeps(init, w, picks[0]);
      ProcessSolid(init, w, picks[0]);
      ProcessFrame(w, picks[0]);
      var w' := Process(w, picks[0]).value;
      assert Selectable(w'.db.transfers, picks[1..]);
      BatchSolid(init, w', picks[1..]);
      BatchKeeps(init, w', picks[1..]);
    }
  }

  lemma NextSolid(init: Wallets, w: World, e: Event)
    requires Inv(init, w) && Solid(w) && Enabled(w, e) && Unsigned(Next(w, e).db.transfers)
    ensures Solid(Next(w, e))
  {
    var w' := Next(w, e);
    if e.RunBatch? {
      BatchSolid(init, w, e.picks);
    } else {
      if e.Withdraw? && w' != w {
        assert w'.db.transfers[|w.db.transfers|] in w'.db.transfers;
      }
      forall u ensures PendingOf(w'.db.wallets, u) <= BalanceOf(w'.db.wallets, u) {
        assert PendingOf(w.db.wallets, u) <= BalanceOf(w.db.wallets, u);
      }
    }
  }

  lemma UnsignedBefore(ts: seq<Transfer>, ts': seq<Transfer>)
    requires Persists(ts, ts') && Unsigned(ts')
    ensures Unsigned(ts) && AddsNoNegative(ts, ts')
  {
    forall t | t in ts ensures t.amount >= 0 {
      var i :| 0 <= i < |ts| && ts[i] == t;
      assert Succeeds(t, ts'[i]) && ts'[i] in ts';
    }
  }

  lemma {:induction false} RunSolid(init: Wallets, w: World, es: seq<Event>)
    requires Inv(init, w) && Solid(w) && Legal(w, es) && Unsigned(Run(w, es).db.transfers)
    ensures Inv(init, Run(w, es)) && Solid(Run(w, es))
    decreases |es|
  {
    if es != [] {
      var w' := Next(w, es[0]);
      RunPersists(w', es[1..]);
      UnsignedBefore(w'.db.transfers, Run(w, es).db.transfers);
      NextPersists(w, es[0]);
      UnsignedBefore(w.db.transfers, w'.db.transfers);
      NextBearable(init, w, es[0]);
      NextKeeps(init, w, es[0]);
      NextSolid(init, w, es[0]);
      RunSolid(init, w', es[1..]);
    }
  }

  /** Then the wallet behind any reservation, sent or not, can be decreased by it. */
  lemma HeldIsCovered(init: Wallets, w: World, id: nat)
    requires Inv(init, w) && Solid(w)
    requires id < |w.db.transfers| && Reserves(w.db.transfers[id])
    ensures var t := w.db.transfers[id]; Decreased(w.db.wallets, t.user, t.amount).Some?
  {
    var t := w.db.transfers[id];
    assert t in w.db.transfers && GoodRow(w.db.wallets, t);
    assert Balanced(init, w, t.user);
    TotalCovers(w.db.transfers, id, Reserved, t.user);
  }

  /** Every run that registers no negative amount reaches a sound state. */
  lemma UnsignedRun(init: Wallets, es: seq<Event>)
    requires Opening(init) && Legal(Start(init), es) && Unsigned(Run(Start(init), es).db.transfers)
    ensures Inv(init, Run(Start(init), es)) && Solid(Run(Start(init), es))
  {
    StartHolds(init);
    RunSolid(init, Start(init), es);
  }

  /// Main results

  /** A withdrawal is waiting, sent or done: reservations and debits make up what waits and what was paid. */
  lemma {:induction false} ReservedIsWaitingOrPaid(ts: seq<Transfer>, u: UserId)
    requires forall t <- ts :: RowOk(t)
    ensures Total(ts, Reserved, u) + Total(ts, Withdrawn, u) == Total(ts, Waiting, u) + Total(ts, PaidOut, u)
  {
    if ts != [] {
      assert RowOk(ts[|ts| - 1]);
      ReservedIsWaitingOrPaid(ts[..|ts| - 1], u);
    }
  }

  lemma {:induction false} DepositedIsSwept(ts: seq<Transfer>, u: UserId)
    requires Unsigned(ts) && forall t <- ts :: RowOk(t)
    ensures Total(ts, Deposited, u) <= Total(ts, Swept, u)
  {
    if ts != [] {
      assert RowOk(ts[|ts| - 1]);
      DepositedIsSwept(ts[..|ts| - 1], u);
    }
  }

  /** The user was not sent more than what the user began with and what was credited since. */
  ghost predicate Covered(init: Wallets, w: World, u: UserId) {
    Moved(w.payouts, u) <= BalanceOf(init, u) + Total(w.db.transfers, Deposited, u)
  }

  lemma SolidCovers(init: Wallets, w: World, u: UserId)
    requires Inv(init, w) && Solid(w)
    ensures Covered(init, w, u) && Total(w.db.transfers, Deposited, u) <= Moved(w.sweeps, u)
  {
    var ts := w.db.transfers;
    assert Balanced(init, w, u) && PendingOf(w.db.wallets, u) <= BalanceOf(w.db.wallets, u);
    forall t | t in ts ensures RowOk(t) {
      assert GoodRow(w.db.wallets, t);
    }
    ReservedIsWaitingOrPaid(ts, u);
    TotalNonNegative(ts, Waiting, u);
    DepositedIsSwept(ts, u);
  }

  /** However requests, retries, successes and failures interleave, as long as no negative withdrawal was
      registered the tokens a user was sent on chain never exceed what the user started with plus what was
      credited, nor what the user started with plus what the chain moved from the user into the game account. */
  lemma Solvent(init: Wallets, es: seq<Event>, u: UserId)
    requires Opening(init) && Legal(Start(init), es) && Unsigned(Run(Start(init), es).db.transfers)
    ensures var w := Run(Start(init), es);
      Covered(init, w, u) && Total(w.db.transfers, Deposited, u) <= Moved(w.sweeps, u)
  {
    UnsignedRun(init, es);
    SolidCovers(init, Run(Start(init), es), u);
  }

  /** The reservation is the sum of the user's external transfers that are live or failed after being sent, it
      lies between zero and the balance, and the balance is the opening balance plus finished deposits minus
      finished withdrawals. */
  ghost predicate Agree(init: Wallets, w: World, u: UserId) {
    var ts := w.db.transfers;
    && 0 <= PendingOf(w.db.wallets, u) == Total(ts, Reserved, u) <= BalanceOf(w.db.wallets, u)
    && BalanceOf(w.db.wallets, u) == BalanceOf(init, u) + Total(ts, Deposited, u) - Total(ts, Withdrawn, u)
  }

  lemma SolidAgrees(init: Wallets, w: World, u: UserId)
    requires Inv(init, w) && Solid(w)
    ensures Agree(init, w, u)
  {
    assert Balanced(init, w, u);
    TotalNonNegative(w.db.transfers, Reserved, u);
  }

  /** In every such state the books agree. */
  lemma BooksAgree(init: Wallets, es: seq<Event>, u: UserId)
    requires Opening(init) && Legal(Start(init), es) && Unsigned(Run(Start(init), es).db.transfers)
    ensures Agree(init, Run(Start(init), es), u)
  {
    UnsignedRun(init, es);
    SolidAgrees(init, Run(Start(init), es), u);
  }

  /** As long as each negative withdrawal was backed by what is stuck, no exception escapes the error handler, so
      no batch is ever rolled back after tokens left, and neither decrease can complain about an insufficient
      balance. */
  lemma NoRollback(init: Wallets, es: seq<Event>, picks: seq<Pick>)
    requires Opening(init) && Legal(Start(init), es) && AllBearable(Start(init), es)
    requires Selectable(Run(Start(init), es).db.transfers, picks)
    ensures var w := Run(Start(init), es);
      && ProcessAll(w, picks).Finished?
      && forall t <- w.db.transfers :: t.kind.ToExternalWallet? && t.Live() ==>
           Decreased(w.db.wallets, t.user, t.amount).Some?
  {
    StartHolds(init);
    RunKeeps(init, Start(init), es);
    var w := Run(Start(init), es);
    BatchKeeps(init, w, picks);
    forall t | t in w.db.transfers && t.kind.ToExternalWallet? && t.Live()
      ensures Decreased(w.db.wallets, t.user, t.amount).Some?
    {
      var i :| 0 <= i < |w.db.transfers| && w.db.transfers[i] == t;
      LiveIsCovered(init, w, i);
    }
  }

  /** And each withdrawal is paid at most once, and only what and to whom its row says. */
  lemma PaidOnce(init: Wallets, es: seq<Event>)
    requires Opening(init) && Legal(Start(init), es) && AllBearable(Start(init), es)
    ensures var w := Run(Start(init), es);
      PayoutsSound(w.payouts, w.db.transfers)
  {
    StartHolds(init);
    RunKeeps(init, Start(init), es);
  }

  /// Every run

  predicate RowsOk(ts: seq<Transfer>) {
    forall t <- ts :: RowOk(t)
  }

  /** What holds of the transfer table in any run, whatever amounts are registered. */
  predicate TableOk(ts: seq<Transfer>) {
    RowsOk(ts) && SourcesDistinct(ts)
  }

  lemma ProcessTable(w: World, p: Pick)
    requires TableOk(w.db.transfers) && p.id < |w.db.transfers| && Process(w, p).Some?
    ensures TableOk(Process(w, p).value.db.transfers)
  {
    var ts, ts' := w.db.transfers, Process(w, p).value.db.transfers;
    ProcessFrame(w, p);
    assert RowOk(ts[p.id]);
    forall t | t in ts' ensures RowOk(t) {
      if t != ts'[p.id] { assert t in ts; }
    }
  }

  lemma NextTable(w: World, e: Event)
    requires TableOk(w.db.transfers) && Enabled(w, e)
    ensures TableOk(Next(w, e).db.transfers)
  {
    if e.RunBatch? {
      BatchTable(w, e.picks);
    } else {
      var ts, ts' := w.db.transfers, Next(w, e).db.transfers;
      assert ts' == ts || ts' == ts + [ts'[|ts|]];
      forall t | t in ts' && t !in ts ensures RowOk(t) {
        assert t == ts'[|ts|];
      }
      forall i, j | 0 <= i < j < |ts'| && ts'[i].source.Some? ensures ts'[i].source != ts'[j].source {
        assert ts[i] in ts;
      }
    }
  }

  lemma {:induction false} BatchTable(w: World, picks: seq<Pick>)
    requires TableOk(w.db.transfers) && forall p <- picks :: p.id < |w.db.transfers|
    ensures TableOk(Batch(w, picks).db.transfers)
    decreases |picks|
  {
    if picks != [] && Process(w, picks[0]).Some? {
      ProcessTable(w, picks[0]);
      ProcessFrame(w, picks[0]);
      BatchTable(Process(w, picks[0]).value, picks[1..]);
    }
  }

  lemma {:induction false} RunTable(w: World, es: seq<Event>)
    requires TableOk(w.db.transfers) && Legal(w, es)
    ensures TableOk(Run(w, es).db.transfers)
    decreases |es|
  {
    if es != [] {
      NextTable(w, es[0]);
      RunTable(Next(w, es[0]), es[1..]);
    }
  }

  /** In any run, a source transaction funds at most one deposit row, and seeing it again changes nothing. */
  lemma CreditedOnce(init: Wallets, es: seq<Event>, i: nat, j: nat, to: Option<UserId>, amount: nat)
    requires Legal(Start(init), es)
    requires i < |Run(Start(init), es).db.transfers| && j < |Run(Start(init), es).db.transfers|
    ensures var w := Run(Start(init), es);
      var source := w.db.transfers[i].source;
      source.Some? ==>
        && (w.db.transfers[j].source == source ==> i == j)
        && Seen(w, to, amount, source.value) == w
  {
    RunTable(Start(init), es);
    var w := Run(Start(init), es);
    assert w.db.transfers[i] in w.db.transfers;
  }
}
