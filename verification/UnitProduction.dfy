// Military unit production. Three services share the tickets: the order service takes payment, marks the
// barrack busy and enqueues a ticket; the scheduler moves due tickets to the pending list; the producer
// takes a ticket, delivers one unit and enqueues the ticket again, or releases the barrack.

module UnitProduction {
  import opened Stock
  import opened DelayedQueue

  datatype Cost = Cost(food: nat, iron: nat, wood: nat)

  /** The game rules: production time in seconds and cost of a unit, by unit id. */
  datatype Rules = Rules(seconds: nat -> nat, cost: nat -> Cost)

  datatype Order = Order(facility: nat, unit: nat, ordered: int, delivered: int, placedAt: int)

  datatype Ticket = Ticket(orderId: nat, unit: nat, ordered: int, seconds: nat, village: nat, facility: nat)

  /** The database tables, one delayed/pending pair of queues for each unit type, and the clock in ms. */
  datatype World = World(rows: seq<Row>, villageOf: map<nat, nat>, busy: set<nat>, orders: seq<Order>,
                         queues: map<nat, Queue<Ticket>>, now: int)

  /** A missing Redis key reads as an empty queue. */
  function QueueOf(w: World, unit: nat): Queue<Ticket> {
    if unit in w.queues then w.queues[unit] else Queue(map[], [])
  }

  function WithQueue(w: World, unit: nat, q: Queue<Ticket>): World {
    w.(queues := w.queues[unit := q])
  }

  function Millis(seconds: nat): nat {
    seconds * 1000
  }

  /// Placing an order

  datatype Refusal = OrderAtLeastOne | FacilityNotFound | NotAvailable | InsufficientResources | AlreadyInProduction
  datatype Verdict = Refused(why: Refusal) | Granted

  /** The food, iron and wood rows of a village. */
  function BaseRows(rows: seq<Row>, village: nat): seq<Row> {
    if rows == [] then []
    else
      var last := rows[|rows| - 1];
      BaseRows(rows[..|rows| - 1], village) + if last.village == village && IsBase(last.kind) then [last] else []
  }

  function Price(cost: Cost, k: Kind, quantity: int): int {
    match k
    case Food => cost.food * quantity
    case Iron => cost.iron * quantity
    case Wood => cost.wood * quantity
    case _ => 0
  }

  function Bill(cost: Cost, quantity: int): seq<Amount> {
    [Amount(Food, Price(cost, Food, quantity)), Amount(Wood, Price(cost, Wood, quantity)),
     Amount(Iron, Price(cost, Iron, quantity))]
  }

  predicate Affordable(rows: seq<Row>, village: nat, cost: Cost, quantity: int) {
    var base := BaseRows(rows, village);
    |base| == 3 && forall r <- base :: r.count >= Price(cost, r.kind, quantity)
  }

  /** `available` tells whether the facility is a barrack whose level offers this unit. */
  function Judge(rules: Rules, w: World, facility: nat, unit: nat, quantity: int, available: bool): Verdict {
    if quantity <= 0 then Refused(OrderAtLeastOne)
    else if facility !in w.villageOf then Refused(FacilityNotFound)
    else if !available then Refused(NotAvailable)
    else if !Affordable(w.rows, w.villageOf[facility], rules.cost(unit), quantity) then
      Refused(InsufficientResources)
    else if facility in w.busy then Refused(AlreadyInProduction)
    else Granted
  }

  /** `queued` is false when the ticket is lost on its way to Redis; that error is only logged. */
  function Placed(rules: Rules, w: World, facility: nat, unit: nat, quantity: int, available: bool, queued: bool): World
  {
    if Judge(rules, w, facility, unit, quantity, available).Refused? then w
    else
      var village := w.villageOf[facility];
      var ticket := Ticket(|w.orders|, unit, quantity, rules.seconds(unit), village, facility);
      var stored := w.(
        rows := UpdateFrom(w.rows, village, Bill(rules.cost(unit), quantity), false),
        busy := w.busy + {facility},
        orders := w.orders + [Order(facility, unit, quantity, 0, w.now)]);
      if queued
      then WithQueue(stored, unit, Zadd(QueueOf(w, unit), ticket, w.now + Millis(ticket.seconds)))
      else stored
  }

  /// Delivering a unit

  datatype Fault = NoFault | RolledBack | TicketLost

  /** The join of the order with the village's row of the ordered type. */
  function ReadBack(w: World, t: Ticket): seq<Row> {
    if t.orderId < |w.orders| then Matching(w.rows, t.village, Unit(w.orders[t.orderId].unit)) else []
  }

  /** What the database holds once the unit of ticket `t` is committed. */
  function Delivered(w: World, t: Ticket, joined: seq<Row>, last: bool): World {
    w.(
      rows := if joined == [] then w.rows + [Row(t.village, Unit(t.unit), 1)]
              else UpdateFrom(w.rows, t.village, [Amount(Unit(t.unit), 1)], true),
      busy := if last then w.busy - {t.facility} else w.busy,
      orders := if t.orderId < |w.orders|
                then w.orders[t.orderId := w.orders[t.orderId].(delivered := w.orders[t.orderId].delivered + 1)]
                else w.orders)
  }

  function Produced(w: World, unit: nat, fault: Fault): World {
    var q := QueueOf(w, unit);
    if q.pending == [] then w
    else
      var t := q.pending[0];
      var popped := WithQueue(w, unit, Lpop(q));
      var joined := ReadBack(w, t);
      if |joined| > 1 then popped // the source throws here and the ticket is gone
      else
        var delivered := if |joined| == 1 then w.orders[t.orderId].delivered else 0;
        if !(|joined| == 0 || delivered < t.ordered) || fault.RolledBack? then popped
        else
          var last := delivered + 1 >= t.ordered;
          var committed := Delivered(popped, t, joined, last);
          if last || fault.TicketLost? then committed
          else WithQueue(committed, unit, Zadd(Lpop(q), t, w.now + Millis(t.seconds)))
  }

  /// Runs

  datatype Event =
    | Place(facility: nat, unit: nat, quantity: int, available: bool, queued: bool)
    | Move(unit: nat, listing: seq<Ticket>)
    | Deliver(unit: nat, fault: Fault)
    | Adjust(village: nat, kind: Kind, change: int) // battles, loot, exchanges and resource production
    | Tick(elapsed: nat)

  const MOVE_LIMIT: nat := 21

  ghost predicate Enabled(w: World, e: Event) {
    e.Move? ==> Ranking(QueueOf(w, e.unit).delayed, MOVE_LIMIT, e.listing)
  }

  predicate FaultFree(e: Event) {
    (e.Place? ==> e.queued) && (e.Deliver? ==> e.fault.NoFault?)
  }

  ghost function Next(rules: Rules, w: World, e: Event): World
    requires Enabled(w, e)
  {
    match e
    case Place(f, u, n, available, queued) => Placed(rules, w, f, u, n, available, queued)
    case Move(u, listing) => WithQueue(w, u, MoveDue(QueueOf(w, u), listing, w.now))
    case Deliver(u, fault) => Produced(w, u, fault)
    case Adjust(v, k, n) => w.(rows := UpdateFrom(w.rows, v, [Amount(k, n)], true))
    case Tick(d) => w.(now := w.now + d)
  }

  ghost predicate Legal(rules: Rules, w: World, es: seq<Event>)
    decreases |es|
  {
    es == [] || (Enabled(w, es[0]) && Legal(rules, Next(rules, w, es[0]), es[1..]))
  }

  ghost function Run(rules: Rules, w: World, es: seq<Event>): World
    requires Legal(rules, w, es)
    decreases |es|
  {
    if es == [] then w else Run(rules, Next(rules, w, es[0]), es[1..])
  }

  /** A state before any order: nothing queued, no barrack busy. */
  predicate Idle(w: World) {
    w.orders == [] && w.queues == map[] && w.busy == {} && Keyed(w.rows)
  }

  /// The invariant

  function TicketOf(rules: Rules, w: World, id: nat): Ticket
    requires id < |w.orders| && w.orders[id].facility in w.villageOf
  {
    var o := w.orders[id];
    Ticket(id, o.unit, o.ordered, rules.seconds(o.unit), w.villageOf[o.facility], o.facility)
  }

  /** The earliest moment at which the order may have received `n` units. */
  function Earliest(rules: Rules, o: Order, n: int): int {
    o.placedAt + n * Millis(rules.seconds(o.unit))
  }

  /** Never over-delivered, never early, and any delivered unit left a village row behind. */
  predicate OrderOk(rules: Rules, w: World, id: nat)
    requires id < |w.orders|
  {
    var o := w.orders[id];
    && o.facility in w.villageOf
    && 0 <= o.delivered <= o.ordered
    && Earliest(rules, o, o.delivered) <= w.now
    && (o.delivered > 0 ==> Has(w.rows, w.villageOf[o.facility], Unit(o.unit)))
  }

  /** A live ticket belongs to an unfinished order of a busy barrack. */
  predicate TicketOk(rules: Rules, w: World, unit: nat, t: Ticket) {
    && t.unit == unit
    && t.orderId < |w.orders|
    && w.orders[t.orderId].facility in w.villageOf
    && t == TicketOf(rules, w, t.orderId)
    && w.orders[t.orderId].delivered < w.orders[t.orderId].ordered
    && t.facility in w.busy
  }

  predicate Timely(rules: Rules, w: World, unit: nat, t: Ticket) {
    t.orderId < |w.orders| ==>
      var o := w.orders[t.orderId];
      var due := Earliest(rules, o, o.delivered + 1);
      && (t in QueueOf(w, unit).delayed ==> due <= QueueOf(w, unit).delayed[t])
      && (t in QueueOf(w, unit).pending ==> due <= w.now)
  }

  ghost predicate OrdersOk(rules: Rules, w: World) {
    forall id: nat :: id < |w.orders| ==> OrderOk(rules, w, id)
  }

  predicate Queued(w: World, unit: nat, t: Ticket) {
    Holds(QueueOf(w, unit), t)
  }

  ghost predicate TicketsOk(rules: Rules, w: World) {
    forall unit, t :: Queued(w, unit, t) ==> TicketOk(rules, w, unit, t) && Timely(rules, w, unit, t)
  }

  ghost predicate QueuesSingle(w: World) {
    forall unit :: Single(QueueOf(w, unit))
  }

  /** One live ticket per barrack at most. */
  ghost predicate Exclusive(w: World) {
    forall u1, t1: Ticket, u2, t2: Ticket ::
      Queued(w, u1, t1) && Queued(w, u2, t2) && t1.facility == t2.facility ==> t1 == t2
  }

  ghost predicate Inv(rules: Rules, w: World) {
    Keyed(w.rows) && OrdersOk(rules, w) && TicketsOk(rules, w) && QueuesSingle(w) && Exclusive(w)
  }

  /** What holds in addition as long as no ticket was lost. */
  ghost predicate NothingLost(rules: Rules, w: World) {
    && (forall id: nat | id < |w.orders| && w.orders[id].delivered < w.orders[id].ordered ::
          w.orders[id].facility in w.villageOf && Queued(w, w.orders[id].unit, TicketOf(rules, w, id)))
    && (forall f <- w.busy :: exists id: nat :: Unfinished(w, f, id))
  }

  predicate Unfinished(w: World, f: nat, id: nat) {
    id < |w.orders| && w.orders[id].facility == f && w.orders[id].delivered < w.orders[id].ordered
  }

  lemma IdleHolds(rules: Rules, w: World)
    requires Idle(w)
    ensures Inv(rules, w) && NothingLost(rules, w)
  {
  }

  /// Keeping it

  lemma PlaceKeeps(rules: Rules, w: World, f: nat, u: nat, n: int, available: bool, queued: bool)
    requires Inv(rules, w)
    ensures Inv(rules, Placed(rules, w, f, u, n, available, queued))
    ensures queued && NothingLost(rules, w) ==> NothingLost(rules, Placed(rules, w, f, u, n, available, queued))
  {
    var w' := Placed(rules, w, f, u, n, available, queued);
    if w' != w {
      var id := |w.orders|;
      UpdateKeepsKeys(w.rows, w.villageOf[f], Bill(rules.cost(u), n), false);
      var t' := TicketOf(rules, w', id);
      forall i: nat | i < |w'.orders| ensures OrderOk(rules, w', i) {
        if i < id { assert OrderOk(rules, w, i); }
      }
      forall unit, t ensures Queued(w', unit, t) <==> Queued(w, unit, t) || (queued && unit == u && t == t') {
      }
      forall unit, t | Queued(w', unit, t)
        ensures TicketOk(rules, w', unit, t) && Timely(rules, w', unit, t)
      {
        if Queued(w, unit, t) {
          assert TicketOk(rules, w, unit, t) && Timely(rules, w, unit, t);
        }
      }
      forall t | Queued(w, u, t) ensures t.orderId < id {
        assert TicketOk(rules, w, u, t);
      }
      forall unit ensures Single(QueueOf(w', unit)) {
        assert Single(QueueOf(w, unit)) && !Queued(w, u, t');
      }
      if queued && NothingLost(rules, w) {
        assert Unfinished(w', f, id);
        forall g | g in w'.busy ensures exists i: nat :: Unfinished(w', g, i) {
          if g != f {
            var i: nat :| Unfinished(w, g, i);
            assert Unfinished(w', g, i);
          }
        }
      }
    }
  }

  /** A step that only reorders live tickets keeps everything about them. */
  lemma MoveFacts(w: World, u: nat, listing: seq<Ticket>)
    requires Enabled(w, Move(u, listing)) && QueuesSingle(w)
    ensures var w' := WithQueue(w, u, MoveDue(QueueOf(w, u), listing, w.now));
      && QueuesSingle(w')
      && (forall unit, t :: Queued(w', unit, t) <==> Queued(w, unit, t))
      && (forall unit, t | t in QueueOf(w', unit).delayed ::
            t in QueueOf(w, unit).delayed && QueueOf(w', unit).delayed[t] == QueueOf(w, unit).delayed[t])
      && (forall unit, t | t in QueueOf(w', unit).pending && t !in QueueOf(w, unit).pending ::
            t in QueueOf(w, unit).delayed && QueueOf(w, unit).delayed[t] <= w.now)
  {
    var q := QueueOf(w, u);
    assert Single(q);
    MoveKeepsSingle(q, listing, w.now);
    MoveIsDue(q, listing, w.now);
    ReplaceQueue(w, u, MoveDue(q, listing, w.now));
  }

  lemma ReplaceQueue(w: World, u: nat, q: Queue<Ticket>)
    requires QueuesSingle(w) && Single(q) && forall t :: Holds(q, t) <==> Holds(QueueOf(w, u), t)
    requires forall t <- q.delayed :: t in QueueOf(w, u).delayed && q.delayed[t] == QueueOf(w, u).delayed[t]
    requires forall t <- q.pending ::
      t in QueueOf(w, u).pending || (t in QueueOf(w, u).delayed && QueueOf(w, u).delayed[t] <= w.now)
    ensures var w' := WithQueue(w, u, q);
      && QueuesSingle(w')
      && (forall unit, t :: Queued(w', unit, t) <==> Queued(w, unit, t))
      && (forall unit, t | t in QueueOf(w', unit).delayed ::
            t in QueueOf(w, unit).delayed && QueueOf(w', unit).delayed[t] == QueueOf(w, unit).delayed[t])
      && (forall unit, t | t in QueueOf(w', unit).pending && t !in QueueOf(w, unit).pending ::
            t in QueueOf(w, unit).delayed && QueueOf(w, unit).delayed[t] <= w.now)
  {
    var w' := WithQueue(w, u, q);
    forall unit ensures QueueOf(w', unit) == if unit == u then q else QueueOf(w, unit) {
    }
    forall unit ensures Single(QueueOf(w', unit)) {
      assert Single(QueueOf(w, unit));
    }
  }

  lemma MoveKeeps(rules: Rules, w: World, u: nat, listing: seq<Ticket>)
    requires Inv(rules, w) && Enabled(w, Move(u, listing))
    ensures Inv(rules, Next(rules, w, Move(u, listing)))
    ensures NothingLost(rules, w) ==> NothingLost(rules, Next(rules, w, Move(u, listing)))
  {
    var w' := Next(rules, w, Move(u, listing));
    MoveFacts(w, u, listing);
    SameTables(rules, w, w');
    MoveTimely(rules, w, w');
  }

  /** Moving due tickets keeps all of them on time. */
  lemma MoveTimely(rules: Rules, w: World, w': World)
    requires TicketsOk(rules, w) && w'.orders == w.orders && w'.now == w.now
    requires forall unit, t :: Queued(w', unit, t) ==> Queued(w, unit, t)
    requires forall unit, t | t in QueueOf(w', unit).delayed ::
      t in QueueOf(w, unit).delayed && QueueOf(w', unit).delayed[t] == QueueOf(w, unit).delayed[t]
    requires forall unit, t | t in QueueOf(w', unit).pending && t !in QueueOf(w, unit).pending ::
      t in QueueOf(w, unit).delayed && QueueOf(w, unit).delayed[t] <= w.now
    ensures forall unit, t :: Queued(w', unit, t) ==> Timely(rules, w', unit, t)
  {
  }

  /** A step that leaves orders, barracks and the set of live tickets alone, adds at most village rows
      and lets time pass. */
  lemma SameTables(rules: Rules, w: World, w': World)
    requires Inv(rules, w)
    requires w'.orders == w.orders && w'.villageOf == w.villageOf && w'.busy == w.busy && w.now <= w'.now
    requires forall v, k :: Has(w.rows, v, k) ==> Has(w'.rows, v, k)
    requires forall unit, t :: Queued(w', unit, t) <==> Queued(w, unit, t)
    ensures OrdersOk(rules, w') && Exclusive(w')
    ensures forall unit, t :: Queued(w', unit, t) ==> TicketOk(rules, w', unit, t)
    ensures NothingLost(rules, w) ==> NothingLost(rules, w')
  {
    forall i: nat | i < |w'.orders| ensures OrderOk(rules, w', i) {
      assert OrderOk(rules, w, i);
    }
    forall unit, t | Queued(w', unit, t) ensures TicketOk(rules, w', unit, t) {
      assert TicketOk(rules, w, unit, t);
    }
    if NothingLost(rules, w) {
      forall f | f in w'.busy ensures exists i: nat :: Unfinished(w', f, i) {
        var i: nat :| Unfinished(w, f, i);
        assert Unfinished(w', f, i);
      }
    }
  }

  /** Changes to stock counts by other services and the passing of time. */
  lemma OthersKeep(rules: Rules, w: World, e: Event)
    requires Inv(rules, w) && (e.Adjust? || e.Tick?)
    ensures Inv(rules, Next(rules, w, e))
    ensures NothingLost(rules, w) ==> NothingLost(rules, Next(rules, w, e))
  {
    var w' := Next(rules, w, e);
    if e.Adjust? {
      UpdateKeepsKeys(w.rows, e.village, [Amount(e.kind, e.change)], true);
    }
    SameTables(rules, w, w');
    forall unit, t | Queued(w', unit, t)
      ensures TicketOk(rules, w', unit, t) && Timely(rules, w', unit, t)
    {
      assert TicketOk(rules, w, unit, t) && Timely(rules, w, unit, t);
    }
    forall unit ensures Single(QueueOf(w', unit)) {
      assert Single(QueueOf(w, unit));
    }
  }

  /** The producer's reading of the database can be trusted: at most one row comes back, and when none
      does the order has received nothing yet, so assuming zero is right. */
  lemma ReadBackSound(rules: Rules, w: World, unit: nat)
    requires Inv(rules, w) && QueueOf(w, unit).pending != []
    ensures var t := QueueOf(w, unit).pending[0];
      && TicketOk(rules, w, unit, t)
      && |ReadBack(w, t)| <= 1
      && (ReadBack(w, t) == [] ==> w.orders[t.orderId].delivered == 0)
      && Earliest(rules, w.orders[t.orderId], w.orders[t.orderId].delivered + 1) <= w.now
  {
    var t := QueueOf(w, unit).pending[0];
    assert Queued(w, unit, t);
    assert TicketOk(rules, w, unit, t) && Timely(rules, w, unit, t) && OrderOk(rules, w, t.orderId);
    MatchingKeyed(w.rows, t.village, Unit(t.unit));
  }

  /** Taking the head ticket leaves its barrack without a live ticket. */
  lemma PopKeeps(rules: Rules, w: World, unit: nat)
    requires Inv(rules, w) && QueueOf(w, unit).pending != []
    ensures var q := QueueOf(w, unit);
      var w' := WithQueue(w, unit, Lpop(q));
      && Inv(rules, w')
      && (forall u, t :: Queued(w', u, t) <==> Queued(w, u, t) && !(u == unit && t == q.pending[0]))
      && (forall u, t :: Queued(w', u, t) ==> t.facility != q.pending[0].facility)
  {
    var q := QueueOf(w, unit);
    var w' := WithQueue(w, unit, Lpop(q));
    var t0 := q.pending[0];
    assert Single(q) && Queued(w, unit, t0) && TicketOk(rules, w, unit, t0);
    forall u, t ensures Queued(w', u, t) <==> Queued(w, u, t) && !(u == unit && t == t0) {
      assert u != unit ==> QueueOf(w', u) == QueueOf(w, u);
    }
    forall u, t | Queued(w', u, t)
      ensures TicketOk(rules, w', u, t) && Timely(rules, w', u, t) && t.facility != t0.facility
    {
      assert TicketOk(rules, w, u, t) && Timely(rules, w, u, t);
    }
    forall i: nat | i < |w'.orders| ensures OrderOk(rules, w', i) {
      assert OrderOk(rules, w, i);
    }
    forall u ensures Single(QueueOf(w', u)) {
      assert Single(QueueOf(w, u));
    }
  }

  /** The stock part of a delivery. */
  lemma DeliveryRows(w: World, t: Ticket, last: bool)
    requires Keyed(w.rows) && ReadBack(w, t) == Matching(w.rows, t.village, Unit(t.unit))
    ensures var rows := Delivered(w, t, ReadBack(w, t), last).rows;
      && Keyed(rows)
      && (forall v, k :: Has(rows, v, k) <==> Has(w.rows, v, k) || (v == t.village && k == Unit(t.unit)))
      && (forall at, k :: Tally(rows, at, k) == Tally(w.rows, at, k) +
            if k == Unit(t.unit) && (at.Everywhere? || at.village == t.village) then 1 else 0)
  {
    MatchingKeyed(w.rows, t.village, Unit(t.unit));
    var one := [Amount(Unit(t.unit), 1)];
    if ReadBack(w, t) == [] {
      var r := Row(t.village, Unit(t.unit), 1);
      AppendKeeps(w.rows, r);
      forall at, k ensures Tally(w.rows + [r], at, k) == Tally(w.rows, at, k) +
        if k == r.kind && (at.Everywhere? || at.village == r.village) then 1 else 0
      {
        AppendTally(w.rows, r, at, k);
      }
    } else {
      UpdateKeepsKeys(w.rows, t.village, one, true);
      forall at, k ensures Tally(UpdateFrom(w.rows, t.village, one, true), at, k) == Tally(w.rows, at, k) +
        if k == Unit(t.unit) && (at.Everywhere? || at.village == t.village) then 1 else 0
      {
        UpdateTally(w.rows, t.village, one, true, at, k);
        assert AmountOf(one, k) == if k == Unit(t.unit) then 1 else 0;
      }
    }
  }

  /** `t` is the ticket just taken: its order still waits for the unit that is due by now. */
  ghost predicate Taken(rules: Rules, w: World, unit: nat, t: Ticket) {
    && TicketOk(rules, w, unit, t)
    && ReadBack(w, t) == Matching(w.rows, t.village, Unit(t.unit))
    && Earliest(rules, w.orders[t.orderId], w.orders[t.orderId].delivered + 1) <= w.now
    && forall u, x :: Queued(w, u, x) ==> x.facility != t.facility
  }

  lemma CommitKeeps(rules: Rules, w: World, unit: nat, t: Ticket, last: bool)
    requires Inv(rules, w) && Taken(rules, w, unit, t)
    ensures Inv(rules, Delivered(w, t, ReadBack(w, t), last))
  {
    var w' := Delivered(w, t, ReadBack(w, t), last);
    DeliveryRows(w, t, last);
    forall i: nat | i < |w'.orders| ensures OrderOk(rules, w', i) {
      assert OrderOk(rules, w, i);
    }
    forall u, x ensures Queued(w', u, x) <==> Queued(w, u, x) {
      assert QueueOf(w', u) == QueueOf(w, u);
    }
    forall u, x | Queued(w', u, x) ensures TicketOk(rules, w', u, x) && Timely(rules, w', u, x) {
      assert TicketOk(rules, w, u, x) && Timely(rules, w, u, x);
      assert x.facility != t.facility;
    }
    forall u ensures Single(QueueOf(w', u)) {
      assert Single(QueueOf(w, u));
    }
  }

  lemma RequeueKeeps(rules: Rules, w: World, unit: nat, t: Ticket)
    requires Inv(rules, w) && TicketOk(rules, w, unit, t)
    requires forall u, x :: Queued(w, u, x) ==> x.facility != t.facility
    ensures var w' := WithQueue(w, unit, Zadd(QueueOf(w, unit), t, w.now + Millis(t.seconds)));
      Inv(rules, w') && forall u, x :: Queued(w', u, x) <==> Queued(w, u, x) || (u == unit && x == t)
  {
    var q := QueueOf(w, unit);
    var w' := WithQueue(w, unit, Zadd(q, t, w.now + Millis(t.seconds)));
    assert !Queued(w, unit, t);
    forall u, x ensures Queued(w', u, x) <==> Queued(w, u, x) || (u == unit && x == t) {
      assert u != unit ==> QueueOf(w', u) == QueueOf(w, u);
    }
    forall i: nat | i < |w'.orders| ensures OrderOk(rules, w', i) {
      assert OrderOk(rules, w, i);
    }
    assert OrderOk(rules, w, t.orderId);
    forall u, x | Queued(w', u, x) ensures TicketOk(rules, w', u, x) && Timely(rules, w', u, x) {
      if Queued(w, u, x) {
        assert TicketOk(rules, w, u, x) && Timely(rules, w, u, x);
      }
    }
    forall u ensures Single(QueueOf(w', u)) {
      assert Single(QueueOf(w, u));
    }
  }

  /** The steps of a delivery in a reachable state: neither of the producer's two guards ever drops a
      ticket. */
  lemma ProducedForm(rules: Rules, w: World, unit: nat, fault: Fault)
    requires Inv(rules, w) && QueueOf(w, unit).pending != []
    ensures TicketOk(rules, w, unit, QueueOf(w, unit).pending[0])
    ensures var t := QueueOf(w, unit).pending[0];
      var popped := WithQueue(w, unit, Lpop(QueueOf(w, unit)));
      var last := w.orders[t.orderId].delivered + 1 == w.orders[t.orderId].ordered;
      && Inv(rules, popped) && Taken(rules, popped, unit, t)
      && Produced(w, unit, fault) ==
           if fault.RolledBack? then popped
           else
             var committed := Delivered(popped, t, ReadBack(popped, t), last);
             if last || fault.TicketLost? then committed
             else WithQueue(committed, unit, Zadd(QueueOf(committed, unit), t, w.now + Millis(t.seconds)))
  {
    ReadBackSound(rules, w, unit);
    PopKeeps(rules, w, unit);
    var t := QueueOf(w, unit).pending[0];
    assert ReadBack(w, t) == Matching(w.rows, t.village, Unit(t.unit));
  }

  lemma ProduceKeeps(rules: Rules, w: World, unit: nat, fault: Fault)
    requires Inv(rules, w)
    ensures Inv(rules, Produced(w, unit, fault))
  {
    if QueueOf(w, unit).pending != [] && !fault.RolledBack? {
      ProducedForm(rules, w, unit, fault);
      var t := QueueOf(w, unit).pending[0];
      var popped := WithQueue(w, unit, Lpop(QueueOf(w, unit)));
      var last := w.orders[t.orderId].delivered + 1 == w.orders[t.orderId].ordered;
      CommitKeeps(rules, popped, unit, t, last);
      var committed := Delivered(popped, t, ReadBack(popped, t), last);
      forall u, x | Queued(committed, u, x) ensures x.facility != t.facility {
        assert Queued(popped, u, x);
      }
      if !last && !fault.TicketLost? {
        RequeueKeeps(rules, committed, unit, t);
      }
    } else if QueueOf(w, unit).pending != [] {
      ProducedForm(rules, w, unit, fault);
    }
  }

  /** A delivery adds one unit to the ticket's order and touches no other order; a rolled-back one
      delivers nothing. */
  lemma DeliversExactlyOne(rules: Rules, w: World, unit: nat, fault: Fault)
    requires Inv(rules, w) && QueueOf(w, unit).pending != []
    ensures var t := QueueOf(w, unit).pending[0];
      var orders := Produced(w, unit, fault).orders;
      && t.orderId < |w.orders| == |orders|
      && orders[t.orderId].delivered == w.orders[t.orderId].delivered + (if fault.RolledBack? then 0 else 1)
      && orders[t.orderId].delivered <= orders[t.orderId].ordered
      && forall i | 0 <= i < |orders| && i != t.orderId :: orders[i] == w.orders[i]
  {
    ProducedForm(rules, w, unit, fault);
  }

  /** Without faults a delivery either keeps the order's ticket alive or finishes the order and frees
      its barrack. */
  lemma ProduceLosesNothing(rules: Rules, w: World, unit: nat)
    requires Inv(rules, w) && NothingLost(rules, w)
    ensures NothingLost(rules, Produced(w, unit, NoFault))
  {
    if QueueOf(w, unit).pending != [] {
      var w' := Produced(w, unit, NoFault);
      var q := QueueOf(w, unit);
      var t := q.pending[0];
      ProducedForm(rules, w, unit, NoFault);
      PopKeeps(rules, w, unit);
      var o := w.orders[t.orderId];
      var last := o.delivered + 1 == o.ordered;
      forall u, x | Queued(w, u, x) && !(u == unit && x == t) ensures Queued(w', u, x) {
        var popped := WithQueue(w, unit, Lpop(q));
        assert Queued(popped, u, x);
        assert u != unit ==> QueueOf(w', u) == QueueOf(w, u);
      }
      assert !last ==> Queued(w', unit, t);
      forall id: nat | id < |w'.orders| && w'.orders[id].delivered < w'.orders[id].ordered
        ensures w'.orders[id].facility in w'.villageOf && Queued(w', w'.orders[id].unit, TicketOf(rules, w', id))
      {
        assert w.orders[id].delivered < w.orders[id].ordered;
        assert TicketOf(rules, w', id) == TicketOf(rules, w, id);
      }
      forall f | f in w'.busy ensures exists id: nat :: Unfinished(w', f, id) {
        var id: nat :| Unfinished(w, f, id);
        if id == t.orderId {
          assert !last;
        }
        assert Unfinished(w', f, id);
      }
    }
  }

  /** Every step of every service keeps the invariant; without faults no ticket is lost. */
  lemma NextKeeps(rules: Rules, w: World, e: Event)
    requires Inv(rules, w) && Enabled(w, e)
    ensures Inv(rules, Next(rules, w, e))
    ensures FaultFree(e) && NothingLost(rules, w) ==> NothingLost(rules, Next(rules, w, e))
  {
    match e
    case Place(f, u, n, available, queued) => PlaceKeeps(rules, w, f, u, n, available, queued);
    case Move(u, listing) => MoveKeeps(rules, w, u, listing);
    case Deliver(u, fault) =>
      ProduceKeeps(rules, w, u, fault);
      if fault.NoFault? && NothingLost(rules, w) { ProduceLosesNothing(rules, w, u); }
    case Adjust(_, _, _) => OthersKeep(rules, w, e);
    case Tick(_) => OthersKeep(rules, w, e);
  }

  lemma {:induction false} RunKeeps(rules: Rules, w: World, es: seq<Event>)
    requires Inv(rules, w) && Legal(rules, w, es)
    ensures Inv(rules, Run(rules, w, es))
    ensures NothingLost(rules, w) && (forall e <- es :: FaultFree(e)) ==> NothingLost(rules, Run(rules, w, es))
    decreases |es|
  {
    if es != [] {
      NextKeeps(rules, w, es[0]);
      RunKeeps(rules, Next(rules, w, es[0]), es[1..]);
    }
  }

  /// The pace of the scheduler

  /** One move takes up to 21 due tickets of a unit type; with no more than that none is left waiting. */
  lemma TwentyOneMove(rules: Rules, w: World, u: nat, listing: seq<Ticket>)
    requires Enabled(w, Move(u, listing))
    ensures var q, q' := QueueOf(w, u), QueueOf(Next(rules, w, Move(u, listing)), u);
      var due := |DueSet(q.delayed, w.now)|;
      && |q'.pending| == |q.pending| + (if due <= 21 then due else 21)
      && (due <= 21 ==> forall t <- q'.delayed :: q'.delayed[t] > w.now)
  {
    MoveTakesAllDue(QueueOf(w, u), MOVE_LIMIT, listing, w.now);
  }

  /// Main results

  /** Pacing across the three services: at any time an order has received at most as many units as its
      production time allows, and never more than were ordered. */
  lemma Paced(rules: Rules, w: World, es: seq<Event>, id: nat)
    requires Idle(w) && Legal(rules, w, es) && id < |Run(rules, w, es).orders|
    ensures var w' := Run(rules, w, es);
      var o := w'.orders[id];
      && 0 <= o.delivered <= o.ordered
      && o.delivered * (1000 * rules.seconds(o.unit)) <= w'.now - o.placedAt
  {
    IdleHolds(rules, w);
    RunKeeps(rules, w, es);
    assert OrderOk(rules, Run(rules, w, es), id);
    var s := rules.seconds(Run(rules, w, es).orders[id].unit);
    assert Millis(s) == 1000 * s;
  }

  /** In every run an order has at most one live ticket, in one place, and a live ticket means a busy
      barrack and an unfinished order. */
  lemma OneLiveTicket(rules: Rules, w: World, es: seq<Event>, u1: nat, t1: Ticket, u2: nat, t2: Ticket)
    requires Idle(w) && Legal(rules, w, es)
    requires Queued(Run(rules, w, es), u1, t1) && Queued(Run(rules, w, es), u2, t2)
    ensures var w' := Run(rules, w, es);
      && Single(QueueOf(w', u1))
      && t1.facility in w'.busy && Unfinished(w', t1.facility, t1.orderId)
      && (t1.orderId == t2.orderId || t1.facility == t2.facility ==> t1 == t2 && u1 == u2)
  {
    IdleHolds(rules, w);
    RunKeeps(rules, w, es);
    var w' := Run(rules, w, es);
    assert TicketOk(rules, w', u1, t1) && TicketOk(rules, w', u2, t2);
  }

  /** As long as nothing is lost, a barrack is busy exactly while it has an unfinished order; that order
      is the only one and its ticket is live. */
  lemma BusyExactly(rules: Rules, w: World, es: seq<Event>, f: nat)
    requires Idle(w) && Legal(rules, w, es) && forall e <- es :: FaultFree(e)
    ensures var w' := Run(rules, w, es);
      && (f in w'.busy <==> exists id: nat :: Unfinished(w', f, id))
      && (forall i: nat, j: nat :: Unfinished(w', f, i) && Unfinished(w', f, j) ==> i == j)
      && (forall i: nat :: Unfinished(w', f, i) ==>
            f in w'.villageOf && Queued(w', w'.orders[i].unit, TicketOf(rules, w', i)))
  {
    IdleHolds(rules, w);
    RunKeeps(rules, w, es);
    var w' := Run(rules, w, es);
    forall i: nat | Unfinished(w', f, i)
      ensures f in w'.villageOf && Queued(w', w'.orders[i].unit, TicketOf(rules, w', i)) && f in w'.busy
    {
      assert Queued(w', w'.orders[i].unit, TicketOf(rules, w', i));
      assert TicketOk(rules, w', w'.orders[i].unit, TicketOf(rules, w', i));
    }
    forall i: nat, j: nat | Unfinished(w', f, i) && Unfinished(w', f, j) ensures i == j {
      assert TicketOf(rules, w', i) == TicketOf(rules, w', j);
    }
  }

  /** Without faults, once no ticket is left every order is filled to the unit and no barrack is busy. */
  lemma QuietMeansFilled(rules: Rules, w: World, es: seq<Event>)
    requires Idle(w) && Legal(rules, w, es) && forall e <- es :: FaultFree(e)
    requires forall unit, t :: !Queued(Run(rules, w, es), unit, t)
    ensures var w' := Run(rules, w, es);
      w'.busy == {} && forall id: nat | id < |w'.orders| :: w'.orders[id].delivered == w'.orders[id].ordered
  {
    IdleHolds(rules, w);
    RunKeeps(rules, w, es);
    var w' := Run(rules, w, es);
    forall id: nat | id < |w'.orders| ensures w'.orders[id].delivered == w'.orders[id].ordered {
      assert OrderOk(rules, w', id);
    }
    assert forall f: nat, id: nat :: !Unfinished(w', f, id);
  }

  /// What the village gains

  /** Units of type `u` that orders of barracks in village `v` have received. */
  function DeliveredTo(orders: seq<Order>, villageOf: map<nat, nat>, v: nat, u: nat): int {
    if orders == [] then 0
    else
      var o := orders[|orders| - 1];
      DeliveredTo(orders[..|orders| - 1], villageOf, v, u) +
      if o.facility in villageOf && villageOf[o.facility] == v && o.unit == u then o.delivered else 0
  }

  lemma {:induction false} OneMoreDelivered(orders: seq<Order>, i: nat, villageOf: map<nat, nat>, v: nat, u: nat)
    requires i < |orders| && orders[i].facility in villageOf
    ensures var more := orders[i := orders[i].(delivered := orders[i].delivered + 1)];
      DeliveredTo(more, villageOf, v, u) == DeliveredTo(orders, villageOf, v, u) +
        if villageOf[orders[i].facility] == v && orders[i].unit == u then 1 else 0
  {
    var n := |orders| - 1;
    var o := orders[i].(delivered := orders[i].delivered + 1);
    if i == n {
      assert orders[i := o][..n] == orders[..n];
    } else {
      assert orders[i := o][..n] == orders[..n][i := o];
      OneMoreDelivered(orders[..n], i, villageOf, v, u);
    }
  }

  /** What the other services add to (or take from) one village's units over a run. */
  ghost function Drift(rules: Rules, w: World, es: seq<Event>, v: nat, u: nat): int
    requires Legal(rules, w, es)
    decreases |es|
  {
    if es == [] then 0
    else
      var e := es[0];
      (if e.Adjust? && e.village == v && e.kind == Unit(u) && Has(w.rows, v, Unit(u)) then e.change else 0)
      + Drift(rules, Next(rules, w, e), es[1..], v, u)
  }

  ghost function Surplus(w: World, v: nat, u: nat): int {
    Tally(w.rows, At(v), Unit(u)) - DeliveredTo(w.orders, w.villageOf, v, u)
  }

  /** The two tables a delivery changes. */
  lemma ProducedTables(rules: Rules, w: World, unit: nat, fault: Fault)
    requires Inv(rules, w) && QueueOf(w, unit).pending != [] && !fault.RolledBack?
    ensures TicketOk(rules, w, unit, QueueOf(w, unit).pending[0])
    ensures var t := QueueOf(w, unit).pending[0];
      var w' := Produced(w, unit, fault);
      && w'.villageOf == w.villageOf
      && w'.orders == w.orders[t.orderId := w.orders[t.orderId].(delivered := w.orders[t.orderId].delivered + 1)]
      && forall v, k :: Tally(w'.rows, At(v), k) == Tally(w.rows, At(v), k) +
           if k == Unit(t.unit) && v == t.village then 1 else 0
  {
    ProducedForm(rules, w, unit, fault);
    var t := QueueOf(w, unit).pending[0];
    var popped := WithQueue(w, unit, Lpop(QueueOf(w, unit)));
    var last := w.orders[t.orderId].delivered + 1 == w.orders[t.orderId].ordered;
    DeliveryRows(popped, t, last);
  }

  lemma DeliverySurplus(rules: Rules, w: World, unit: nat, fault: Fault, v: nat, u: nat)
    requires Inv(rules, w)
    ensures Surplus(Produced(w, unit, fault), v, u) == Surplus(w, v, u)
  {
    if QueueOf(w, unit).pending != [] && !fault.RolledBack? {
      ProducedTables(rules, w, unit, fault);
      OneMoreDelivered(w.orders, QueueOf(w, unit).pending[0].orderId, w.villageOf, v, u);
    } else if QueueOf(w, unit).pending != [] {
      ProducedForm(rules, w, unit, fault);
    }
  }

  lemma PlaceSurplus(rules: Rules, w: World, f: nat, x: nat, n: int, available: bool, queued: bool, v: nat, u: nat)
    requires Inv(rules, w)
    ensures Surplus(Placed(rules, w, f, x, n, available, queued), v, u) == Surplus(w, v, u)
  {
    var w' := Placed(rules, w, f, x, n, available, queued);
    if w' != w {
      var bill := Bill(rules.cost(x), n);
      BillLists(rules.cost(x), n, Unit(u));
      UpdateTally(w.rows, w.villageOf[f], bill, false, At(v), Unit(u));
      assert w'.orders[..|w.orders|] == w.orders;
    }
  }

  lemma StepSurplus(rules: Rules, w: World, e: Event, v: nat, u: nat)
    requires Inv(rules, w) && Enabled(w, e)
    ensures Surplus(Next(rules, w, e), v, u) == Surplus(w, v, u) +
      if e.Adjust? && e.village == v && e.kind == Unit(u) && Has(w.rows, v, Unit(u)) then e.change else 0
  {
    match e
    case Place(f, x, n, available, queued) => PlaceSurplus(rules, w, f, x, n, available, queued, v, u);
    case Move(_, _) =>
    case Tick(_) =>
    case Adjust(village, k, n) => UpdateTally(w.rows, village, [Amount(k, n)], true, At(v), Unit(u));
    case Deliver(unit, fault) => DeliverySurplus(rules, w, unit, fault, v, u);
  }

  /** A village gains exactly the units its orders received, whatever else happens to its stock. */
  lemma {:induction false} StockGain(rules: Rules, w: World, es: seq<Event>, v: nat, u: nat)
    requires Inv(rules, w) && Legal(rules, w, es)
    ensures var w' := Run(rules, w, es);
      Tally(w'.rows, At(v), Unit(u)) - Tally(w.rows, At(v), Unit(u)) ==
        DeliveredTo(w'.orders, w'.villageOf, v, u) - DeliveredTo(w.orders, w.villageOf, v, u)
        + Drift(rules, w, es, v, u)
    decreases |es|
  {
    if es != [] {
      StepSurplus(rules, w, es[0], v, u);
      NextKeeps(rules, w, es[0]);
      StockGain(rules, Next(rules, w, es[0]), es[1..], v, u);
    }
  }

  /// Payment

  lemma {:induction false} BaseRowsFound(rows: seq<Row>, village: nat)
    requires Keyed(rows)
    ensures |BaseRows(rows, village)| ==
      (if Has(rows, village, Food) then 1 else 0) + (if Has(rows, village, Iron) then 1 else 0)
      + (if Has(rows, village, Wood) then 1 else 0)
    ensures forall r :: r in BaseRows(rows, village) <==> r in rows && r.village == village && IsBase(r.kind)
  {
    if rows != [] {
      BaseRowsFound(rows[..|rows| - 1], village);
      HasLast(rows, village, Food);
      HasLast(rows, village, Iron);
      HasLast(rows, village, Wood);
      assert rows == rows[..|rows| - 1] + [rows[|rows| - 1]];
    }
  }

  lemma BillLists(cost: Cost, n: int, k: Kind)
    ensures AmountOf(Bill(cost, n), k) == Price(cost, k, n)
  {
    var bill := Bill(cost, n);
    match k
    case Food => AmountAt(bill, 0);
    case Wood => AmountAt(bill, 1);
    case Iron => AmountAt(bill, 2);
    case _ => AmountAbsent(bill, k);
  }

  /** The village has a row of `k` that holds `n`. */
  predicate Stocks(rows: seq<Row>, v: nat, k: Kind, n: int) {
    Has(rows, v, k) && Tally(rows, At(v), k) >= n
  }

  /** The price check passes exactly when the village stocks the food, iron and wood that `n` units cost. */
  lemma AffordableMeans(rows: seq<Row>, v: nat, cost: Cost, n: int)
    requires Keyed(rows)
    ensures Affordable(rows, v, cost, n) <==>
      && Stocks(rows, v, Food, cost.food * n)
      && Stocks(rows, v, Iron, cost.iron * n)
      && Stocks(rows, v, Wood, cost.wood * n)
  {
    BaseRowsFound(rows, v);
    forall r | r in rows && r.village == v ensures Tally(rows, At(v), r.kind) == r.count {
      MatchingKeyed(rows, v, r.kind);
    }
    forall r | r in BaseRows(rows, v) ensures r in rows && r.village == v && IsBase(r.kind) {
    }
    if Affordable(rows, v, cost, n) {
      forall k | IsBase(k) ensures Stocks(rows, v, k, Price(cost, k, n)) {
        var r :| r in rows && IsAt(r, v, k);
        assert r in BaseRows(rows, v);
      }
      assert Price(cost, Food, n) == cost.food * n;
    }
  }

  /** An order is granted if and only if it is for one unit at least, its barrack is known, offers the unit and
      is idle, and the village stocks food, iron and wood for all units. It then costs exactly that, enters the
      order as asked for and occupies the barrack; a refused order changes nothing. */
  lemma OrderPayment(rules: Rules, w: World, f: nat, u: nat, n: int, available: bool, queued: bool)
    requires Keyed(w.rows)
    ensures var w' := Placed(rules, w, f, u, n, available, queued);
      var food, iron, wood := rules.cost(u).food * n, rules.cost(u).iron * n, rules.cost(u).wood * n;
      if n > 0 && f in w.villageOf && available && f !in w.busy
         && Stocks(w.rows, w.villageOf[f], Food, food)
         && Stocks(w.rows, w.villageOf[f], Iron, iron)
         && Stocks(w.rows, w.villageOf[f], Wood, wood)
      then
        var v := w.villageOf[f];
        && w'.orders == w.orders + [Order(f, u, n, 0, w.now)] && w'.busy == w.busy + {f} && w'.now == w.now
        && Tally(w'.rows, At(v), Food) == Tally(w.rows, At(v), Food) - food
        && Tally(w'.rows, At(v), Iron) == Tally(w.rows, At(v), Iron) - iron
        && Tally(w'.rows, At(v), Wood) == Tally(w.rows, At(v), Wood) - wood
        && OnlyBaseOf(w.rows, w'.rows, v)
        && (NonNegative(w.rows) ==> NonNegative(w'.rows))
      else w' == w
  {
    if f in w.villageOf {
      AffordableMeans(w.rows, w.villageOf[f], rules.cost(u), n);
    }
    if Judge(rules, w, f, u, n, available).Granted? {
      PaidRows(w.rows, w.villageOf[f], rules.cost(u), n);
    }
  }

  /** Nothing but food, iron and wood of village `v` changes. */
  ghost predicate OnlyBaseOf(rows: seq<Row>, rows': seq<Row>, v: nat) {
    forall x, k :: (x == v && IsBase(k)) || SameTally(rows, rows', x, k)
  }

  predicate SameTally(rows: seq<Row>, rows': seq<Row>, x: nat, k: Kind) {
    Tally(rows', At(x), k) == Tally(rows, At(x), k)
  }

  /** What a refusal says: the first of the five demands, in this order, that is not met. */
  lemma RefusedBecause(rules: Rules, w: World, f: nat, u: nat, n: int, available: bool)
    requires Keyed(w.rows)
    ensures var verdict := Judge(rules, w, f, u, n, available);
      var stocked := f in w.villageOf
        && Stocks(w.rows, w.villageOf[f], Food, rules.cost(u).food * n)
        && Stocks(w.rows, w.villageOf[f], Iron, rules.cost(u).iron * n)
        && Stocks(w.rows, w.villageOf[f], Wood, rules.cost(u).wood * n);
      && (verdict == Refused(OrderAtLeastOne) <==> n <= 0)
      && (verdict == Refused(FacilityNotFound) <==> n > 0 && f !in w.villageOf)
      && (verdict == Refused(NotAvailable) <==> n > 0 && f in w.villageOf && !available)
      && (verdict == Refused(InsufficientResources) <==> n > 0 && f in w.villageOf && available && !stocked)
      && (verdict == Refused(AlreadyInProduction) <==> n > 0 && available && stocked && f in w.busy)
      && (verdict == Granted <==> n > 0 && available && stocked && f !in w.busy)
  {
    if f in w.villageOf {
      AffordableMeans(w.rows, w.villageOf[f], rules.cost(u), n);
    }
  }

  /** What paying the bill does to the table. */
  lemma PaidRows(rows: seq<Row>, v: nat, cost: Cost, n: int)
    requires Keyed(rows) && n > 0
    requires Stocks(rows, v, Food, cost.food * n) && Stocks(rows, v, Iron, cost.iron * n)
    requires Stocks(rows, v, Wood, cost.wood * n)
    ensures var rows' := UpdateFrom(rows, v, Bill(cost, n), false);
      && Tally(rows', At(v), Food) == Tally(rows, At(v), Food) - cost.food * n
      && Tally(rows', At(v), Iron) == Tally(rows, At(v), Iron) - cost.iron * n
      && Tally(rows', At(v), Wood) == Tally(rows, At(v), Wood) - cost.wood * n
      && OnlyBaseOf(rows, rows', v)
      && (NonNegative(rows) ==> NonNegative(rows'))
  {
    var bill := Bill(cost, n);
    var rows' := UpdateFrom(rows, v, bill, false);
    PaidTally(rows, v, cost, n, v, Food);
    PaidTally(rows, v, cost, n, v, Iron);
    PaidTally(rows, v, cost, n, v, Wood);
    PaidOnlyBase(rows, v, cost, n);
    if NonNegative(rows) {
      forall r | r in rows && r.village == v ensures AmountOf(bill, r.kind) <= r.count {
        PriceFits(rows, v, cost, n, r);
      }
      TakeKeepsNonNegative(rows, v, bill);
    }
  }

  lemma PaidOnlyBase(rows: seq<Row>, v: nat, cost: Cost, n: int)
    requires Keyed(rows)
    ensures OnlyBaseOf(rows, UpdateFrom(rows, v, Bill(cost, n), false), v)
  {
    forall x, k ensures (x == v && IsBase(k)) || SameTally(rows, UpdateFrom(rows, v, Bill(cost, n), false), x, k) {
      PaidTally(rows, v, cost, n, x, k);
    }
  }

  lemma PaidTally(rows: seq<Row>, v: nat, cost: Cost, n: int, x: nat, k: Kind)
    requires Keyed(rows)
    ensures Tally(UpdateFrom(rows, v, Bill(cost, n), false), At(x), k)
      == Tally(rows, At(x), k) - if Has(rows, v, k) && x == v then Price(cost, k, n) else 0
  {
    BillLists(cost, n, k);
    UpdateTally(rows, v, Bill(cost, n), false, At(x), k);
  }

  lemma PriceFits(rows: seq<Row>, v: nat, cost: Cost, n: int, r: Row)
    requires Keyed(rows) && NonNegative(rows) && r in rows && r.village == v
    requires Stocks(rows, v, Food, cost.food * n) && Stocks(rows, v, Iron, cost.iron * n)
    requires Stocks(rows, v, Wood, cost.wood * n)
    ensures AmountOf(Bill(cost, n), r.kind) <= r.count
  {
    BillLists(cost, n, r.kind);
    MatchingKeyed(rows, v, r.kind);
    assert IsAt(r, v, r.kind);
  }
}
