// Moving resources between two villages of a user, and between a village and its storage vault.

module VillageTransfers {
  import opened Options
  import opened Stock

  /** `village.villagesResourceTypes.find` on each requested type: the source throws when a row is missing,
      and stops at the first row that holds too little. */
  datatype Check = Enough | TooLittle | Throws

  function HasEnough(rows: seq<Row>, village: nat, sent: seq<Amount>): Check {
    if sent == [] then Enough
    else
      var found := Matching(rows, village, sent[0].kind);
      if found == [] then Throws
      else if found[0].count < sent[0].count then TooLittle
      else HasEnough(rows, village, sent[1..])
  }

  /** A passed check means that every requested amount is there. */
  lemma {:induction false} EnoughMeans(rows: seq<Row>, village: nat, sent: seq<Amount>)
    requires Keyed(rows)
    ensures HasEnough(rows, village, sent) == Enough <==>
      forall a <- sent :: Has(rows, village, a.kind) && a.count <= Tally(rows, At(village), a.kind)
  {
    if sent != [] {
      MatchingKeyed(rows, village, sent[0].kind);
      EnoughMeans(rows, village, sent[1..]);
      assert sent == [sent[0]] + sent[1..];
    }
  }

  /// Exchange between villages

  datatype Refusal = SameVillage | Forbidden | NothingToSend | NotEnough | Crashed

  /** Assigning to a key of the request object: a repeated type keeps its place and takes the last count. */
  function Put(sent: seq<Amount>, a: Amount): seq<Amount> {
    if sent == [] then [a]
    else if sent[0].kind == a.kind then [a] + sent[1..]
    else [sent[0]] + Put(sent[1..], a)
  }

  function Formatted(request: seq<Amount>): seq<Amount> {
    if request == [] then [] else Put(Formatted(request[..|request| - 1]), request[|request| - 1])
  }

  lemma {:induction false} PutAmount(sent: seq<Amount>, a: Amount, k: Kind)
    ensures AmountOf(Put(sent, a), k) == if k == a.kind then a.count else AmountOf(sent, k)
  {
    if sent != [] {
      assert Put(sent, a)[1..] == if sent[0].kind == a.kind then sent[1..] else Put(sent[1..], a);
      PutAmount(sent[1..], a, k);
    }
  }

  lemma {:induction false} PutMembers(sent: seq<Amount>, a: Amount)
    ensures forall x <- Put(sent, a) :: x == a || x in sent
    ensures OneEach(sent) ==> OneEach(Put(sent, a))
  {
    if sent != [] {
      PutMembers(sent[1..], a);
      if sent[0].kind == a.kind {
        assert Put(sent, a) == [a] + sent[1..];
      } else {
        var rest := Put(sent[1..], a);
        assert Put(sent, a) == [sent[0]] + rest;
        forall x | x in rest && OneEach(sent) ensures x.kind != sent[0].kind {
          if x != a { assert x in sent[1..]; }
        }
      }
    }
  }

  /** The refusal of an exchange, if any. */
  function Objection(rows: seq<Row>, sender: nat, receiver: nat, request: seq<Amount>): Option<Refusal> {
    if sender == receiver then Some(SameVillage)
    else if exists a <- request :: !IsBase(a.kind) then Some(Forbidden)
    else if request == [] then Some(NothingToSend)
    else
      match HasEnough(rows, sender, Formatted(request))
      case Throws => Some(Crashed)
      case TooLittle => Some(NotEnough)
      case Enough => None
  }

  function Exchanged(rows: seq<Row>, sender: nat, receiver: nat, request: seq<Amount>): seq<Row> {
    if Objection(rows, sender, receiver, request).Some? then rows
    else UpdateFrom(UpdateFrom(rows, sender, Formatted(request), false), receiver, Formatted(request), true)
  }

  lemma ExchangeChange(rows: seq<Row>, sender: nat, receiver: nat, request: seq<Amount>, k: Kind)
    requires Keyed(rows) && Objection(rows, sender, receiver, request).None?
    ensures var rows', n := Exchanged(rows, sender, receiver, request), AmountOf(Formatted(request), k);
      && Tally(rows', At(sender), k) == Tally(rows, At(sender), k) - n
      && Tally(rows', At(receiver), k) == Tally(rows, At(receiver), k) + (if Has(rows, receiver, k) then n else 0)
      && Tally(rows', Everywhere, k) == Tally(rows, Everywhere, k) - (if Has(rows, receiver, k) then 0 else n)
      && forall v | v != sender && v != receiver :: Tally(rows', At(v), k) == Tally(rows, At(v), k)
  {
    var sent := Formatted(request);
    EnoughMeans(rows, sender, sent);
    if !Has(rows, sender, k) {
      AmountAbsent(sent, k);
    }
    UpdateKeepsKeys(rows, sender, sent, false);
    var mid := UpdateFrom(rows, sender, sent, false);
    forall at ensures Tally(UpdateFrom(mid, receiver, sent, true), at, k) == Tally(rows, at, k)
      - (if at.Everywhere? || at.village == sender then AmountOf(sent, k) else 0)
      + (if Has(rows, receiver, k) && (at.Everywhere? || at.village == receiver) then AmountOf(sent, k) else 0)
    {
      UpdateTally(rows, sender, sent, false, at, k);
      UpdateTally(mid, receiver, sent, true, at, k);
    }
  }

  lemma {:induction false} FormattedCovers(request: seq<Amount>)
    ensures forall x <- request :: exists a <- Formatted(request) :: a.kind == x.kind
  {
    if request != [] {
      var n := |request| - 1;
      FormattedCovers(request[..n]);
      PutCovers(Formatted(request[..n]), request[n]);
      assert request == request[..n] + [request[n]];
    }
  }

  lemma {:induction false} PutCovers(sent: seq<Amount>, a: Amount)
    ensures a in Put(sent, a)
    ensures forall x <- sent :: exists y <- Put(sent, a) :: y.kind == x.kind
  {
    if sent != [] {
      var all := Put(sent, a);
      PutCovers(sent[1..], a);
      assert all[0].kind == sent[0].kind && all[0] in all;
      assert all[1..] == if sent[0].kind == a.kind then sent[1..] else Put(sent[1..], a);
      assert forall x <- all[1..] :: x in all;
    }
  }

  /** An exchange is accepted if and only if it is between two villages, asks for food, iron or wood only, for
      something at all, and the sender holds the last count asked for of each type. */
  lemma ExchangeGranted(rows: seq<Row>, sender: nat, receiver: nat, request: seq<Amount>)
    requires Keyed(rows)
    ensures Objection(rows, sender, receiver, request).None? <==>
      && sender != receiver && request != []
      && (forall a <- request :: IsBase(a.kind))
      && forall i: nat :: LastOfType(request, i) ==>
           Has(rows, sender, request[i].kind) && request[i].count <= Tally(rows, At(sender), request[i].kind)
  {
    EnoughMeans(rows, sender, Formatted(request));
    forall a: Amount {
      FormattedExactly(request, a);
    }
  }

  /** What a refusal of an exchange says. Between two villages, for base resources, it is a type without a row at the
      sender, where the code crashes, or one with too little. */
  lemma ExchangeRefused(rows: seq<Row>, sender: nat, receiver: nat, request: seq<Amount>)
    requires Keyed(rows)
    ensures var why := Objection(rows, sender, receiver, request);
      var plain := sender != receiver && forall a <- request :: IsBase(a.kind);
      && (why == Some(SameVillage) <==> sender == receiver)
      && (why == Some(Forbidden) <==> sender != receiver && !plain)
      && (why == Some(NothingToSend) <==> plain && request == [])
      && (why == Some(Crashed) || why == Some(NotEnough) ==> plain)
      && (why == Some(Crashed) ==> exists i: nat :: LastOfType(request, i) && !Has(rows, sender, request[i].kind))
      && (why == Some(NotEnough) ==>
            exists i: nat ::
              LastOfType(request, i) && Has(rows, sender, request[i].kind)
              && Tally(rows, At(sender), request[i].kind) < request[i].count)
  {
    ShortOf(rows, sender, Formatted(request));
    forall a: Amount {
      FormattedExactly(request, a);
    }
  }

  lemma {:induction false} ShortOf(rows: seq<Row>, village: nat, sent: seq<Amount>)
    requires Keyed(rows)
    ensures HasEnough(rows, village, sent) == Throws ==> exists a <- sent :: !Has(rows, village, a.kind)
    ensures HasEnough(rows, village, sent) == TooLittle ==>
      exists a <- sent :: Has(rows, village, a.kind) && Tally(rows, At(village), a.kind) < a.count
  {
    if sent != [] {
      MatchingKeyed(rows, village, sent[0].kind);
      ShortOf(rows, village, sent[1..]);
      assert sent[0] in sent && forall a <- sent[1..] :: a in sent;
    }
  }

  /** The formatted request lists exactly the last entries of each type. */
  lemma FormattedExactly(request: seq<Amount>, a: Amount)
    ensures a in Formatted(request) <==> exists i: nat :: LastOfType(request, i) && request[i] == a
  {
    var sent := Formatted(request);
    FormattedMembers(request);
    if j :| 0 <= j < |sent| && sent[j] == a {
      var i := FindLast(request, a.kind);
      RequestedAmount(request, a.kind);
      AmountAt(sent, j);
    }
    if i: nat :| LastOfType(request, i) && request[i] == a {
      RequestedAmount(request, a.kind);
      FormattedCovers(request);
      var j :| 0 <= j < |sent| && sent[j].kind == a.kind;
      AmountAt(sent, j);
    }
  }

  /** An accepted exchange conserves the total of type `k` if and only if none of it was sent or the
      receiver has a row for it. */
  lemma ExchangeConserves(rows: seq<Row>, sender: nat, receiver: nat, request: seq<Amount>, k: Kind)
    requires Keyed(rows) && Objection(rows, sender, receiver, request).None?
    ensures Tally(Exchanged(rows, sender, receiver, request), Everywhere, k) == Tally(rows, Everywhere, k)
      <==> AmountOf(Formatted(request), k) == 0 || Has(rows, receiver, k)
  {
    ExchangeChange(rows, sender, receiver, request, k);
  }

  /** Loss does happen: 5 food sent to a village without a food row are gone. */
  lemma ExchangeCanLose()
    ensures var rows, request := [Row(1, Food, 5)], [Amount(Food, 5)];
      && Objection(rows, 1, 2, request).None?
      && Tally(Exchanged(rows, 1, 2, request), Everywhere, Food) == Tally(rows, Everywhere, Food) - 5
  {
    var rows, request := [Row(1, Food, 5)], [Amount(Food, 5)];
    SingleRequest(rows, 1, Amount(Food, 5));
    ExchangeChange(rows, 1, 2, request, Food);
  }

  /** A request for one type is checked against the one row it names. */
  lemma SingleRequest(rows: seq<Row>, village: nat, a: Amount)
    requires Keyed(rows)
    ensures Formatted([a]) == [a]
    ensures HasEnough(rows, village, [a]) == Enough <==>
      Has(rows, village, a.kind) && a.count <= Tally(rows, At(village), a.kind)
  {
    assert [a][..0] == [];
    EnoughMeans(rows, village, [a]);
    assert a in [a];
  }

  lemma {:induction false} FormattedMembers(request: seq<Amount>)
    ensures forall x <- Formatted(request) :: x in request
    ensures OneEach(Formatted(request))
  {
    if request != [] {
      var n := |request| - 1;
      FormattedMembers(request[..n]);
      PutMembers(Formatted(request[..n]), request[n]);
    }
  }

  /** The last count requested for a type is the one that moves. */
  lemma {:induction false} LastCountWins(request: seq<Amount>, i: nat)
    requires i < |request| && forall j :: i < j < |request| ==> request[j].kind != request[i].kind
    ensures AmountOf(Formatted(request), request[i].kind) == request[i].count
    decreases |request|
  {
    var n := |request| - 1;
    PutAmount(Formatted(request[..n]), request[n], request[i].kind);
    if i < n {
      LastCountWins(request[..n], i);
    }
  }

  /** Entry `i` is the last one of its type, so it is the one that counts. */
  predicate LastOfType(request: seq<Amount>, i: nat) {
    i < |request| && forall j :: i < j < |request| ==> request[j].kind != request[i].kind
  }

  lemma {:induction false} FindLast(request: seq<Amount>, k: Kind) returns (i: nat)
    requires exists a <- request :: a.kind == k
    ensures LastOfType(request, i) && request[i].kind == k
  {
    var n := |request| - 1;
    if request[n].kind == k {
      i := n;
    } else {
      assert request == request[..n] + [request[n]];
      i := FindLast(request[..n], k);
    }
  }

  /** What the request moves of a type: the count of its last entry, or nothing. */
  lemma RequestedAmount(request: seq<Amount>, k: Kind)
    ensures (forall a <- request :: a.kind != k) ==> AmountOf(Formatted(request), k) == 0
    ensures forall i: nat :: LastOfType(request, i) && request[i].kind == k ==>
      AmountOf(Formatted(request), k) == request[i].count
  {
    FormattedMembers(request);
    if forall a <- request :: a.kind != k {
      AmountAbsent(Formatted(request), k);
    }
    forall i: nat | LastOfType(request, i) && request[i].kind == k
      ensures AmountOf(Formatted(request), k) == request[i].count
    {
      LastCountWins(request, i);
    }
  }

  /** Every requested type finds room for its count at the receiver; only a negative count can fail to. */
  ghost predicate LeavesRoom(rows: seq<Row>, receiver: nat, request: seq<Amount>) {
    forall i: nat :: LastOfType(request, i) && Has(rows, receiver, request[i].kind) ==>
      Tally(rows, At(receiver), request[i].kind) + request[i].count >= 0
  }

  lemma SenderStaysNonNegative(rows: seq<Row>, sender: nat, sent: seq<Amount>)
    requires Keyed(rows) && NonNegative(rows) && OneEach(sent) && HasEnough(rows, sender, sent) == Enough
    ensures NonNegative(UpdateFrom(rows, sender, sent, false))
  {
    EnoughMeans(rows, sender, sent);
    forall k | Has(rows, sender, k) ensures AmountOf(sent, k) <= Tally(rows, At(sender), k) {
      TallyNonNegative(rows, sender, k);
      if i :| 0 <= i < |sent| && sent[i].kind == k {
        AmountAt(sent, i);
        assert sent[i] in sent;
      } else {
        AmountAbsent(sent, k);
      }
    }
    UpdateNonNegative(rows, sender, sent, false);
  }

  /** An accepted exchange leaves no negative count if and only if the receiver can take what it is sent. */
  lemma ExchangeNonNegative(rows: seq<Row>, sender: nat, receiver: nat, request: seq<Amount>)
    requires Keyed(rows) && NonNegative(rows) && Objection(rows, sender, receiver, request).None?
    ensures NonNegative(Exchanged(rows, sender, receiver, request)) <==> LeavesRoom(rows, receiver, request)
  {
    var sent := Formatted(request);
    var mid := UpdateFrom(rows, sender, sent, false);
    FormattedMembers(request);
    SenderStaysNonNegative(rows, sender, sent);
    UpdateKeepsKeys(rows, sender, sent, false);
    UpdateNonNegative(mid, receiver, sent, true);
    forall k ensures Tally(mid, At(receiver), k) == Tally(rows, At(receiver), k) {
      UpdateTally(rows, sender, sent, false, At(receiver), k);
    }
    if LeavesRoom(rows, receiver, request) {
      forall k | Has(rows, receiver, k) ensures Tally(mid, At(receiver), k) + AmountOf(sent, k) >= 0 {
        RequestedAmount(request, k);
        TallyNonNegative(rows, receiver, k);
        if exists a <- request :: a.kind == k {
          var i := FindLast(request, k);
        }
      }
    }
    if NonNegative(Exchanged(rows, sender, receiver, request)) {
      forall i: nat | LastOfType(request, i) && Has(rows, receiver, request[i].kind)
        ensures Tally(rows, At(receiver), request[i].kind) + request[i].count >= 0
      {
        RequestedAmount(request, request[i].kind);
      }
    }
  }

  /** A negative count passes every check: -5 food from a village with none leaves the receiver at -2. */
  lemma NegativeExchange()
    ensures var rows, request := [Row(1, Food, 0), Row(2, Food, 3)], [Amount(Food, -5)];
      && Objection(rows, 1, 2, request).None?
      && Exchanged(rows, 1, 2, request) == [Row(1, Food, 5), Row(2, Food, -2)]
  {
    var rows, request := [Row(1, Food, 0), Row(2, Food, 3)], [Amount(Food, -5)];
    assert rows[0] in rows && rows[1] in rows;
    SingleRequest(rows, 1, request[0]);
    MatchingKeyed(rows, 1, Food);
  }

  /// The storage vault

  datatype Vault = Vault(kind: Kind, count: int)

  /** The transfer type is any text; the code tells WITHDRAW and DEPOSIT from everything else. */
  datatype Direction = Deposit | Withdraw | Other

  datatype VaultError =
    | ResourceNotFound | VillageNotEnough | VillageRowMissing | StorageNotFound | StorageEmpty | StorageFull

  datatype VaultResult = Moved(rows: seq<Row>, vault: Vault) | Denied(why: VaultError)

  /** The amount actually moved: a deposit that would reach the capacity is cut to what fits. */
  function Clamped(vault: Option<Vault>, count: int, direction: Direction, capacity: int): int {
    if direction.Deposit? && vault.Some? && vault.value.count + count >= capacity
    then capacity - vault.value.count else count
  }

  /** `kind` is None for an unknown type name. The village must hold the amount in every direction; it gives
      only on a deposit, and the vault gives only on a withdrawal. */
  function Transfer(rows: seq<Row>, village: nat, vault: Option<Vault>, kind: Option<Kind>, count: int,
                    direction: Direction, capacity: int): VaultResult
  {
    if kind.None? then Denied(ResourceNotFound)
    else
      match HasEnough(rows, village, [Amount(kind.value, count)])
      case Throws => Denied(VillageRowMissing)
      case TooLittle => Denied(VillageNotEnough)
      case Enough =>
        if direction.Withdraw? && vault.None? then Denied(StorageNotFound)
        else if direction.Withdraw? && (vault.value.count <= 0 || vault.value.count < count) then Denied(StorageEmpty)
        else if direction.Deposit? && vault.Some? && vault.value.count >= capacity then Denied(StorageFull)
        else
          var n := Clamped(vault, count, direction, capacity);
          var held := if vault.Some? then vault.value else Vault(kind.value, 0);
          Moved(UpdateFrom(rows, village, [Amount(kind.value, n)], !direction.Deposit?),
                held.(count := if direction.Withdraw? then held.count - n else held.count + n))
  }

  function Held(vault: Option<Vault>): int {
    if vault.Some? then vault.value.count else 0
  }

  function HeldOf(vault: Option<Vault>, k: Kind): int {
    if vault.Some? && vault.value.kind == k then vault.value.count else 0
  }

  /** What an accepted transfer does: the village's row of the type and the vault change by the amount moved,
      and that is nothing only if nothing was asked for. */
  lemma TransferChange(rows: seq<Row>, village: nat, vault: Option<Vault>, kind: Kind, count: int,
                       direction: Direction, capacity: int, k: Kind)
    requires Keyed(rows)
    requires Transfer(rows, village, vault, Some(kind), count, direction, capacity).Moved?
    ensures var r := Transfer(rows, village, vault, Some(kind), count, direction, capacity);
      var n := Clamped(vault, count, direction, capacity);
      && (n == 0 <==> count == 0)
      && Tally(r.rows, At(village), kind) == Tally(rows, At(village), kind) + Signed(!direction.Deposit?, n)
      && r.vault.count == Held(vault) + Signed(!direction.Withdraw?, n)
      && (k != kind ==> Tally(r.rows, At(village), k) == Tally(rows, At(village), k))
      && Tally(r.rows, Everywhere, k) - Tally(rows, Everywhere, k)
           == Tally(r.rows, At(village), k) - Tally(rows, At(village), k)
  {
    var n := Clamped(vault, count, direction, capacity);
    SingleRequest(rows, village, Amount(kind, count));
    var values := [Amount(kind, n)];
    SingleAmount(kind, n, k);
    SingleAmount(kind, n, kind);
    UpdateTally(rows, village, values, !direction.Deposit?, At(village), kind);
    UpdateTally(rows, village, values, !direction.Deposit?, At(village), k);
    UpdateTally(rows, village, values, !direction.Deposit?, Everywhere, k);
  }

  /** Village row plus vault is conserved if and only if the transfer is a deposit or a withdrawal, or moves
      nothing: any other transfer type adds the amount to both sides. */
  lemma TransferConserves(rows: seq<Row>, village: nat, vault: Option<Vault>, kind: Kind, count: int,
                          direction: Direction, capacity: int)
    requires Keyed(rows)
    requires Transfer(rows, village, vault, Some(kind), count, direction, capacity).Moved?
    ensures var r := Transfer(rows, village, vault, Some(kind), count, direction, capacity);
      Tally(r.rows, At(village), kind) + r.vault.count == Tally(rows, At(village), kind) + Held(vault)
      <==> !direction.Other? || count == 0
  {
    TransferChange(rows, village, vault, kind, count, direction, capacity, kind);
  }

  /** A village with a single row, of food: how a request is checked and how it is applied. */
  lemma OneRow(held: int, count: int)
    ensures var rows, request := [Row(1, Food, held)], [Amount(Food, count)];
      && HasEnough(rows, 1, request) == (if held < count then TooLittle else Enough)
      && forall add :: UpdateFrom(rows, 1, request, add) == [Row(1, Food, held + Signed(add, count))]
  {
    var rows, request := [Row(1, Food, held)], [Amount(Food, count)];
    assert rows[0] in rows && rows[..0] == [] && request[1..] == [];
    assert Matching(rows, 1, Food) == [rows[0]];
  }

  /** So 10 food become 20 in the village and 10 in the vault. */
  lemma OtherTypeCreates()
    ensures Transfer([Row(1, Food, 10)], 1, None, Some(Food), 10, Other, 100)
      == Moved([Row(1, Food, 20)], Vault(Food, 10))
  {
    OneRow(10, 10);
  }

  /** A vault row keeps the type of its first deposit, but later transfers are not compared with it. So
      village and vault together conserve each type if and only if the transfer moves nothing, or is a
      deposit or withdrawal of the vault's type or one that opens the vault. */
  lemma TransferConservesTypes(rows: seq<Row>, village: nat, vault: Option<Vault>, kind: Kind, count: int,
                               direction: Direction, capacity: int)
    requires Keyed(rows)
    requires Transfer(rows, village, vault, Some(kind), count, direction, capacity).Moved?
    ensures var r := Transfer(rows, village, vault, Some(kind), count, direction, capacity);
      (forall k :: Tally(r.rows, At(village), k) + HeldOf(Some(r.vault), k)
                     == Tally(rows, At(village), k) + HeldOf(vault, k))
      <==> count == 0 || (!direction.Other? && (vault.None? || vault.value.kind == kind))
  {
    var r := Transfer(rows, village, vault, Some(kind), count, direction, capacity);
    var n := Clamped(vault, count, direction, capacity);
    forall k ensures
      && Tally(r.rows, At(village), kind) == Tally(rows, At(village), kind) + Signed(!direction.Deposit?, n)
      && (k != kind ==> Tally(r.rows, At(village), k) == Tally(rows, At(village), k))
    {
      TransferChange(rows, village, vault, kind, count, direction, capacity, k);
    }
    TransferChange(rows, village, vault, kind, count, direction, capacity, kind);
    if !(count == 0 || (!direction.Other? && (vault.None? || vault.value.kind == kind))) {
      assert Tally(r.rows, At(village), kind) + HeldOf(Some(r.vault), kind)
        != Tally(rows, At(village), kind) + HeldOf(vault, kind);
    }
  }

  /** Food deposited into a vault of iron is iron afterwards. */
  lemma MixedVault()
    ensures Transfer([Row(1, Food, 10)], 1, Some(Vault(Iron, 5)), Some(Food), 10, Deposit, 100)
      == Moved([Row(1, Food, 0)], Vault(Iron, 15))
  {
    OneRow(10, 10);
  }

  /** An accepted deposit leaves the vault at or under capacity if and only if the vault was already open
      or the whole amount fits: the first deposit is not cut. */
  lemma DepositWithinCapacity(rows: seq<Row>, village: nat, vault: Option<Vault>, kind: Kind, count: int, capacity: int)
    requires Transfer(rows, village, vault, Some(kind), count, Deposit, capacity).Moved?
    ensures Transfer(rows, village, vault, Some(kind), count, Deposit, capacity).vault.count <= capacity
      <==> vault.Some? || count <= capacity
  {
  }

  lemma FirstDepositOverfills()
    ensures Transfer([Row(1, Food, 500)], 1, None, Some(Food), 500, Deposit, 100)
      == Moved([Row(1, Food, 0)], Vault(Food, 500))
  {
    OneRow(500, 500);
  }

  /** An accepted transfer leaves village and vault non-negative if and only if each side that receives can
      take the count; again only a negative count can fail to fit. */
  lemma TransferNonNegative(rows: seq<Row>, village: nat, vault: Option<Vault>, kind: Kind, count: int,
                            direction: Direction, capacity: int)
    requires Keyed(rows) && NonNegative(rows) && Held(vault) >= 0
    requires Transfer(rows, village, vault, Some(kind), count, direction, capacity).Moved?
    ensures var r := Transfer(rows, village, vault, Some(kind), count, direction, capacity);
      NonNegative(r.rows) && r.vault.count >= 0 <==>
        && (direction.Withdraw? || Held(vault) + count >= 0)
        && (direction.Deposit? || Tally(rows, At(village), kind) + count >= 0)
  {
    var n := Clamped(vault, count, direction, capacity);
    TransferChange(rows, village, vault, kind, count, direction, capacity, kind);
    SingleRequest(rows, village, Amount(kind, count));
    UpdateNonNegative(rows, village, [Amount(kind, n)], !direction.Deposit?);
    forall k
      ensures AmountOf([Amount(kind, n)], k) == (if k == kind then n else 0) && Tally(rows, At(village), k) >= 0
    {
      SingleAmount(kind, n, k);
      TallyNonNegative(rows, village, k);
    }
  }

  /** Depositing -1000 food opens a vault at -1000 and gives the village 1000. */
  lemma NegativeDeposit()
    ensures Transfer([Row(1, Food, 0)], 1, None, Some(Food), -1000, Deposit, 100)
      == Moved([Row(1, Food, 1000)], Vault(Food, -1000))
  {
    OneRow(0, -1000);
  }

  /** The guard on the village applies to withdrawals too: one is granted if and only if the vault and the
      village both hold the amount. */
  lemma WithdrawalGranted(rows: seq<Row>, village: nat, vault: Vault, kind: Kind, count: int, capacity: int)
    requires Keyed(rows)
    ensures var r := Transfer(rows, village, Some(vault), Some(kind), count, Withdraw, capacity);
      && (r.Moved? <==>
            && vault.count > 0 && vault.count >= count
            && Has(rows, village, kind) && Tally(rows, At(village), kind) >= count)
      && (r.Moved? ==>
            && r.vault == Vault(vault.kind, vault.count - count)
            && Tally(r.rows, At(village), kind) == Tally(rows, At(village), kind) + count)
  {
    MayWithdraw(rows, village, vault, kind, count, capacity);
    if Transfer(rows, village, Some(vault), Some(kind), count, Withdraw, capacity).Moved? {
      TransferChange(rows, village, Some(vault), kind, count, Withdraw, capacity, kind);
    }
  }

  lemma MayWithdraw(rows: seq<Row>, village: nat, vault: Vault, kind: Kind, count: int, capacity: int)
    requires Keyed(rows)
    ensures Transfer(rows, village, Some(vault), Some(kind), count, Withdraw, capacity).Moved? <==>
      && vault.count > 0 && vault.count >= count
      && Has(rows, village, kind) && Tally(rows, At(village), kind) >= count
  {
    SingleRequest(rows, village, Amount(kind, count));
  }

  /** A deposit is accepted if and only if the village holds the amount and the vault is not open or not full; the
      vault then gains the amount, or what still fits if it was open, and the village loses as much. */
  lemma DepositGranted(rows: seq<Row>, village: nat, vault: Option<Vault>, kind: Kind, count: int, capacity: int)
    requires Keyed(rows)
    ensures var r := Transfer(rows, village, vault, Some(kind), count, Deposit, capacity);
      && (r.Moved? <==>
            && Has(rows, village, kind) && Tally(rows, At(village), kind) >= count
            && (vault.None? || vault.value.count < capacity))
      && (r.Moved? ==>
            var n := if vault.None? then count else Min(count, capacity - vault.value.count);
            && r.vault == (if vault.None? then Vault(kind, n) else Vault(vault.value.kind, vault.value.count + n))
            && Tally(r.rows, At(village), kind) == Tally(rows, At(village), kind) - n)
  {
    SingleRequest(rows, village, Amount(kind, count));
    if Transfer(rows, village, vault, Some(kind), count, Deposit, capacity).Moved? {
      TransferChange(rows, village, vault, kind, count, Deposit, capacity, kind);
    }
  }

  /** What a denial says: the first of these demands, in this order, that is not met. */
  lemma DeniedBecause(rows: seq<Row>, village: nat, vault: Option<Vault>, kind: Kind, count: int,
                      direction: Direction, capacity: int)
    requires Keyed(rows)
    ensures Transfer(rows, village, vault, None, count, direction, capacity) == Denied(ResourceNotFound)
    ensures var r := Transfer(rows, village, vault, Some(kind), count, direction, capacity);
      var held := Has(rows, village, kind) && Tally(rows, At(village), kind) >= count;
      && (r == Denied(VillageRowMissing) <==> !Has(rows, village, kind))
      && (r == Denied(VillageNotEnough) <==> Has(rows, village, kind) && !held)
      && (r == Denied(StorageNotFound) <==> held && direction.Withdraw? && vault.None?)
      && (r == Denied(StorageEmpty) <==> held && direction.Withdraw? && vault.Some?
                                         && (vault.value.count <= 0 || vault.value.count < count))
      && (r == Denied(StorageFull) <==> held && direction.Deposit? && vault.Some? && vault.value.count >= capacity)
      && r != Denied(ResourceNotFound)
  {
    OneType(rows, village, Amount(kind, count));
  }

  lemma OneType(rows: seq<Row>, village: nat, a: Amount)
    requires Keyed(rows)
    ensures HasEnough(rows, village, [a]) ==
      if !Has(rows, village, a.kind) then Throws
      else if Tally(rows, At(village), a.kind) < a.count then TooLittle else Enough
  {
    MatchingKeyed(rows, village, a.kind);
    assert [a][1..] == [];
    if r :| r in rows && IsAt(r, village, a.kind) {
      assert Matching(rows, village, a.kind) == [r];
    }
  }

  /** An emptied village cannot take its own 10 food back out of the vault. */
  lemma EmptyVillageCannotWithdraw()
    ensures Transfer([Row(1, Food, 0)], 1, Some(Vault(Food, 10)), Some(Food), 10, Withdraw, 100)
      == Denied(VillageNotEnough)
  {
    OneRow(0, 10);
  }

  /** After depositing an uncut amount into an open vault, withdrawing it again is granted if and only if the
      village still holds as much and the vault was not overdrawn; it then puts everything back. */
  lemma DepositThenWithdraw(rows: seq<Row>, village: nat, vault: Vault, kind: Kind, count: int, capacity: int)
    requires Keyed(rows) && vault.count + count < capacity
    requires Transfer(rows, village, Some(vault), Some(kind), count, Deposit, capacity).Moved?
    ensures var there := Transfer(rows, village, Some(vault), Some(kind), count, Deposit, capacity);
      var back := Transfer(there.rows, village, Some(there.vault), Some(kind), count, Withdraw, capacity);
      && (back.Moved? <==>
            Tally(rows, At(village), kind) >= 2 * count && vault.count >= 0 && vault.count + count > 0)
      && (back.Moved? ==> back.rows == rows && back.vault == vault)
  {
    var there := Transfer(rows, village, Some(vault), Some(kind), count, Deposit, capacity);
    SingleRequest(rows, village, Amount(kind, count));
    TransferChange(rows, village, Some(vault), kind, count, Deposit, capacity, kind);
    UpdateKeepsKeys(rows, village, [Amount(kind, count)], false);
    MayWithdraw(there.rows, village, there.vault, kind, count, capacity);
  }

  /// The services as they run

  class StorageService {
    var rows: seq<Row>
    var vaults: map<nat, Vault> // by facility

    constructor (rows: seq<Row>)
      ensures this.rows == rows && vaults == map[]
    {
      this.rows, vaults := rows, map[];
    }

    method VillageHasEnoughResources(village: nat, sent: seq<Amount>) returns (check: Check)
      ensures check == HasEnough(rows, village, sent)
    {
      for i := 0 to |sent|
        invariant HasEnough(rows, village, sent) == HasEnough(rows, village, sent[i..])
      {
        assert sent[i..][1..] == sent[i + 1..];
        var found := Matching(rows, village, sent[i].kind);
        if found == [] {
          return Throws;
        }
        if found[0].count < sent[i].count {
          return TooLittle;
        }
      }
      return Enough;
    }

    method AddOrRemoveResources(village: nat, sent: seq<Amount>, remove: bool)
      modifies this`rows
      ensures rows == UpdateFrom(old(rows), village, sent, !remove)
    {
      for i := 0 to |rows|
        invariant |rows| == |old(rows)|
        invariant forall k :: 0 <= k < i ==> rows[k] == UpdateFrom(old(rows), village, sent, !remove)[k]
        invariant forall k :: i <= k < |rows| ==> rows[k] == old(rows)[k]
      {
        if rows[i].village == village {
          var requested := AmountOf(sent, rows[i].kind);
          var count := if remove then rows[i].count - requested else rows[i].count + requested;
          rows := rows[i := rows[i].(count := count)];
        }
      }
    }

    method ExchangeResources(sender: nat, receiver: nat, request: seq<Amount>) returns (refusal: Option<Refusal>)
      modifies this`rows
      ensures refusal == Objection(old(rows), sender, receiver, request)
      ensures rows == Exchanged(old(rows), sender, receiver, request)
    {
      if sender == receiver {
        return Some(SameVillage);
      }
      var sent: seq<Amount> := [];
      var forbidden := false;
      for i := 0 to |request|
        invariant sent == Formatted(request[..i])
        invariant forbidden <==> exists k :: 0 <= k < i && !IsBase(request[k].kind)
      {
        assert request[..i + 1][..i] == request[..i];
        if !IsBase(request[i].kind) {
          forbidden := true;
        }
        sent := Put(sent, request[i]);
      }
      assert request[..|request|] == request;
      if forbidden {
        return Some(Forbidden);
      }
      if request == [] {
        return Some(NothingToSend);
      }
      var check := VillageHasEnoughResources(sender, sent);
      if check.Throws? {
        return Some(Crashed);
      }
      if check.TooLittle? {
        return Some(NotEnough);
      }
      AddOrRemoveResources(sender, sent, true);
      AddOrRemoveResources(receiver, sent, false);
      return None;
    }

    method TransferResourcesToStorage(village: nat, facility: nat, kind: Option<Kind>, count: int,
                                      direction: Direction, capacity: int) returns (denied: Option<VaultError>)
      modifies this
      ensures var found := if facility in old(vaults) then Some(old(vaults)[facility]) else None;
        var r := Transfer(old(rows), village, found, kind, count, direction, capacity);
        && (r.Denied? ==> denied == Some(r.why) && rows == old(rows) && vaults == old(vaults))
        && (r.Moved? ==> denied == None && rows == r.rows && vaults == old(vaults)[facility := r.vault])
    {
      if kind.None? {
        return Some(ResourceNotFound);
      }
      var moved := count;
      var check := VillageHasEnoughResources(village, [Amount(kind.value, moved)]);
      if check.Throws? {
        return Some(VillageRowMissing);
      }
      if check.TooLittle? {
        return Some(VillageNotEnough);
      }
      if direction.Withdraw? {
        if facility !in vaults {
          return Some(StorageNotFound);
        }
        if vaults[facility].count <= 0 || vaults[facility].count < moved {
          return Some(StorageEmpty);
        }
      }
      if direction.Deposit? {
        if facility in vaults && vaults[facility].count >= capacity {
          return Some(StorageFull);
        }
        if facility in vaults && vaults[facility].count + moved >= capacity {
          moved := capacity - vaults[facility].count;
        }
      }
      if facility !in vaults {
        vaults := vaults[facility := Vault(kind.value, 0)];
      }
      AddOrRemoveResources(village, [Amount(kind.value, moved)], direction.Deposit?);
      var vault := vaults[facility];
      var total := if direction.Withdraw? then vault.count - moved else vault.count + moved;
      vaults := vaults[facility := vault.(count := total)];
      return None;
    }
  }
}
