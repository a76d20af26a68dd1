// The two blockchain services as they run: each method changes the tables row by row. Every method is
// proved to reach exactly the state that the step functions of MkcTransfers prescribe.

module MkcService {
  import opened Options
  import opened MkcTransfers

  /** The copy of a transfer row that the selecting query returned. */
  datatype Selected = Selected(id: nat, row: Transfer, answer: Answer)

  class MkcBackend {
    var wallets: Wallets
    var transfers: seq<Transfer>
    // what the chain has accepted; no rollback can take it back
    var payouts: seq<Movement>
    var sweeps: seq<Movement>

    ghost function State(): World
      reads this
    {
      World(Db(wallets, transfers), payouts, sweeps)
    }

    constructor (wallets: Wallets)
      ensures State() == Start(wallets)
    {
      this.wallets := wallets;
      transfers := [];
      payouts := [];
      sweeps := [];
    }

    /// In-game balances

    method GetBalance(user: UserId) returns (wallet: Wallet)
      modifies this`wallets
      ensures State() == Opened(old(State()), user)
      ensures user in wallets && wallet == wallets[user]
    {
      if user !in wallets {
        wallets := wallets[user := Wallet(0, None)];
      }
      wallet := wallets[user];
    }

    method IncrementBalance(user: UserId, amount: int)
      modifies this`wallets
      ensures wallets.Keys == old(wallets).Keys + {user}
      ensures BalanceOf(wallets, user) == BalanceOf(old(wallets), user) + amount
      ensures PendingOf(wallets, user) == PendingOf(old(wallets), user)
      ensures wallets == Incremented(old(wallets), user, amount)
    {
      if user !in wallets {
        wallets := wallets[user := Wallet(amount, None)];
      } else {
        wallets := wallets[user := wallets[user].(balance := wallets[user].balance + amount)];
      }
    }

    /** Returns None where the source throws: no row, a NULL pending column, or too little in either. */
    method LockBalanceForDecrease(user: UserId, amount: int) returns (locked: Option<Wallet>)
      ensures locked.Some? <==>
        user in wallets && wallets[user].pending.Some? && wallets[user].balance >= amount &&
        wallets[user].pending.value >= amount
      ensures locked.Some? ==>
        locked.value == Wallet(wallets[user].balance - amount, Some(wallets[user].pending.value - amount))
    {
      if user !in wallets || wallets[user].pending.None? {
        return None;
      }
      var balance, pending := wallets[user].balance, wallets[user].pending.value;
      if balance < amount || pending < amount {
        return None;
      }
      return Some(Wallet(balance - amount, Some(pending - amount)));
    }

    method DecreasePendingBalance(user: UserId, amount: int) returns (ok: bool)
      modifies this`wallets
      ensures ok == Decreased(old(wallets), user, amount).Some?
      ensures !ok ==> wallets == old(wallets)
      ensures ok ==>
        wallets == old(wallets)[user := Wallet(old(wallets)[user].balance,
                                               Some(PendingOf(old(wallets), user) - amount))]
    {
      var locked := LockBalanceForDecrease(user, amount);
      ok := locked.Some?;
      if ok {
        wallets := wallets[user := wallets[user].(pending := locked.value.pending)];
      }
    }

    method DecreaseBalance(user: UserId, amount: int) returns (ok: bool)
      modifies this`wallets
      ensures ok == Decreased(old(wallets), user, amount).Some?
      ensures !ok ==> wallets == old(wallets)
      ensures ok ==> wallets == old(wallets)[user := Decreased(old(wallets), user, amount).value]
    {
      var locked := LockBalanceForDecrease(user, amount);
      ok := locked.Some?;
      if ok {
        wallets := wallets[user := locked.value];
      }
    }

    /// Requests and chain events

    method TransferToExternalWallet(user: UserId, addressOk: bool, amount: Option<int>) returns (ok: bool)
      modifies this`wallets, this`transfers
      ensures State() == Request(old(State()), user, addressOk, amount)
      ensures ok <==> |transfers| == |old(transfers)| + 1
    {
      if user !in wallets || !addressOk || amount.None? {
        return false;
      }
      var balance := wallets[user].balance;
      var pending := if wallets[user].pending.Some? then wallets[user].pending.value else 0;
      if amount.value > balance - pending {
        return false;
      }
      transfers := transfers + [Transfer(ToExternalWallet, user, amount.value, Pending, 0, None, None)];
      wallets := wallets[user := wallets[user].(pending := Some(pending + amount.value))];
      return true;
    }

    method TransferListener(to: Option<UserId>, amount: nat, source: Hash)
      modifies this`transfers
      ensures State() == Seen(old(State()), to, amount, source)
    {
      if to.None? || amount == 0 {
        return;
      }
      if !Registered(transfers, source) { // ON CONFLICT (source_transaction_hash) DO NOTHING
        transfers := transfers + [Transfer(ToGameWallet, to.value, amount, Pending, 0, Some(source), None)];
      }
    }

    /// The processing job

    method IncrementTransferRetriesOrRevert(id: nat, row: Transfer) returns (ok: bool)
      requires id < |transfers| && transfers[id] == row
      modifies this`wallets, this`transfers
      ensures ok == Retry(old(State()), id).Some?
      ensures ok ==> State() == Retry(old(State()), id).value
    {
      if row.retries == MAX_TRANSFER_RETRIES {
        if row.kind.ToExternalWallet? && row.status.Pending? {
          ok := DecreasePendingBalance(row.user, row.amount);
          if !ok {
            return;
          }
        }
        transfers := transfers[id := transfers[id].(status := Failed)];
      } else {
        transfers := transfers[id := transfers[id].(retries := row.retries + 1)];
      }
      ok := true;
    }

    method ProcessGamePendingTransfer(id: nat, row: Transfer, answer: Answer) returns (ok: bool)
      requires id < |transfers| && transfers[id] == row && row.kind.ToGameWallet? && row.status.Pending?
      modifies this
      ensures ok == Process(old(State()), Pick(id, answer)).Some?
      ensures ok ==> State() == Process(old(State()), Pick(id, answer)).value
      ensures !ok ==> payouts == old(payouts) && sweeps == old(sweeps)
    {
      ok := true;
      match answer
      case Unconfirmed =>
      case Fails => ok := IncrementTransferRetriesOrRevert(id, row);
      case Accepted(hash) =>
        sweeps := sweeps + [Movement(id, row.user, row.amount)];
        transfers := transfers[id := transfers[id].(retries := 0, hash := Some(hash), status := InProgress)];
    }

    method ProcessGameInProgressTransfer(id: nat, row: Transfer, answer: Answer) returns (ok: bool)
      requires id < |transfers| && transfers[id] == row && row.kind.ToGameWallet? && row.status.InProgress?
      modifies this
      ensures ok == Process(old(State()), Pick(id, answer)).Some?
      ensures ok ==> State() == Process(old(State()), Pick(id, answer)).value
      ensures !ok ==> payouts == old(payouts) && sweeps == old(sweeps)
    {
      ok := true;
      match answer
      case Unconfirmed =>
      case Fails => ok := IncrementTransferRetriesOrRevert(id, row);
      case Accepted(_) =>
        IncrementBalance(row.user, row.amount);
        transfers := transfers[id := transfers[id].(status := Done)];
    }

    method ProcessExternalPendingTransfer(id: nat, row: Transfer, answer: Answer) returns (ok: bool)
      requires id < |transfers| && transfers[id] == row && row.kind.ToExternalWallet? && row.status.Pending?
      modifies this
      ensures ok == Process(old(State()), Pick(id, answer)).Some?
      ensures ok ==> State() == Process(old(State()), Pick(id, answer)).value
      ensures !ok ==> payouts == old(payouts) && sweeps == old(sweeps)
    {
      ok := true;
      if answer.Accepted? && row.amount >= 0 {
        payouts := payouts + [Movement(id, row.user, row.amount)];
        transfers := transfers[id := transfers[id].(retries := 0, hash := Some(answer.hash), status := InProgress)];
      } else {
        ok := IncrementTransferRetriesOrRevert(id, row);
      }
    }

    method ProcessExternalInProgressTransfer(id: nat, row: Transfer, answer: Answer) returns (ok: bool)
      requires id < |transfers| && transfers[id] == row && row.kind.ToExternalWallet? && row.status.InProgress?
      modifies this
      ensures ok == Process(old(State()), Pick(id, answer)).Some?
      ensures ok ==> State() == Process(old(State()), Pick(id, answer)).value
      ensures !ok ==> payouts == old(payouts) && sweeps == old(sweeps)
    {
      if answer.Unconfirmed? {
        return true;
      }
      ok := false;
      if answer.Accepted? {
        ok := DecreaseBalance(row.user, row.amount);
      }
      if ok {
        transfers := transfers[id := transfers[id].(status := Done)];
      } else {
        ok := IncrementTransferRetriesOrRevert(id, row);
      }
    }

    method Dispatch(id: nat, row: Transfer, answer: Answer) returns (ok: bool)
      requires id < |transfers| && transfers[id] == row
      modifies this
      ensures ok == Process(old(State()), Pick(id, answer)).Some?
      ensures ok ==> State() == Process(old(State()), Pick(id, answer)).value
      ensures !ok ==> payouts == old(payouts) && sweeps == old(sweeps)
    {
      ok := true;
      if row.kind.ToGameWallet? && row.status.Pending? {
        ok := ProcessGamePendingTransfer(id, row, answer);
      } else if row.kind.ToGameWallet? && row.status.InProgress? {
        ok := ProcessGameInProgressTransfer(id, row, answer);
      } else if row.kind.ToExternalWallet? && row.status.Pending? {
        ok := ProcessExternalPendingTransfer(id, row, answer);
      } else if row.kind.ToExternalWallet? && row.status.InProgress? {
        ok := ProcessExternalInProgressTransfer(id, row, answer);
      }
    }

    /** The job works from copies of the rows taken when it starts. The copies never go stale, because a
        row is selected once and a step writes no row but its own. */
    method ProcessTransfers(picks: seq<Pick>) returns (committed: bool)
      requires Selectable(transfers, picks)
      modifies this
      ensures State() == Batch(old(State()), picks)
      ensures committed == ProcessAll(old(State()), picks).Finished?
    {
      var savedWallets, savedTransfers := wallets, transfers;
      var rows := seq(|picks|, i requires 0 <= i < |picks| && picks[i].id < |savedTransfers| =>
        Selected(picks[i].id, savedTransfers[picks[i].id], picks[i].answer));
      ghost var before := State();
      for i := 0 to |rows|
        invariant |transfers| == |savedTransfers|
        invariant forall k :: i <= k < |rows| ==> transfers[rows[k].id] == rows[k].row
        invariant ProcessAll(before, picks) == ProcessAll(State(), picks[i..])
      {
        ghost var here := State();
        var ok := Dispatch(rows[i].id, rows[i].row, rows[i].answer);
        assert picks[i..][0] == picks[i] && picks[i..][1..] == picks[i + 1..];
        if !ok {
          wallets, transfers := savedWallets, savedTransfers;
          return false;
        }
        ProcessFrame(here, picks[i]);
      }
      return true;
    }
  }
}
