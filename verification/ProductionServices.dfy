// The order service and the units producer as they run, proved to take exactly the steps of UnitProduction.

module ProductionServices {
  import opened Stock
  import opened DelayedQueue
  import opened UnitProduction

  class ProductionBackend {
    const rules: Rules
    const villageOf: map<nat, nat>
    var rows: seq<Row>
    var busy: set<nat>
    var orders: seq<Order>
    var queues: map<nat, Queue<Ticket>>
    var now: int

    ghost function State(): World
      reads this
    {
      World(rows, villageOf, busy, orders, queues, now)
    }

    constructor (rules: Rules, villageOf: map<nat, nat>, rows: seq<Row>, now: int)
      requires Keyed(rows)
      ensures Idle(State()) && this.rules == rules && this.villageOf == villageOf
    {
      this.rules, this.villageOf, this.rows, this.now := rules, villageOf, rows, now;
      busy, orders, queues := {}, [], map[];
    }

    /** The price check of the order service: one flag, cleared by every row that cannot pay. */
    method HasEnoughResources(village: nat, cost: Cost, quantity: int) returns (enough: bool)
      ensures enough == Affordable(rows, village, cost, quantity)
      ensures Keyed(rows) ==> (enough <==>
        && Stocks(rows, village, Food, cost.food * quantity)
        && Stocks(rows, village, Iron, cost.iron * quantity)
        && Stocks(rows, village, Wood, cost.wood * quantity))
    {
      if Keyed(rows) {
        AffordableMeans(rows, village, cost, quantity);
      }
      var resources := BaseRows(rows, village);
      enough := true;
      if |resources| != 3 {
        enough := false;
      }
      for i := 0 to |resources|
        invariant enough <==> |resources| == 3 && forall k :: 0 <= k < i ==>
          resources[k].count >= Price(cost, resources[k].kind, quantity)
      {
        if resources[i].count < Price(cost, resources[i].kind, quantity) {
          enough := false;
        }
      }
    }

    method Create(facility: nat, unit: nat, quantity: int, available: bool, queued: bool) returns (verdict: Verdict)
      modifies this
      ensures verdict == Judge(rules, old(State()), facility, unit, quantity, available)
      ensures State() == Placed(rules, old(State()), facility, unit, quantity, available, queued)
    {
      if quantity <= 0 {
        return Refused(OrderAtLeastOne);
      }
      if facility !in villageOf {
        return Refused(FacilityNotFound);
      }
      if !available {
        return Refused(NotAvailable);
      }
      var village := villageOf[facility];
      var cost := rules.cost(unit);
      var enough := HasEnoughResources(village, cost, quantity);
      if !enough {
        return Refused(InsufficientResources);
      }
      if facility in busy {
        return Refused(AlreadyInProduction);
      }
      rows := UpdateFrom(rows, village, Bill(cost, quantity), false);
      var id := |orders|;
      orders := orders + [Order(facility, unit, quantity, 0, now)];
      busy := busy + {facility};
      if queued {
        var q := if unit in queues then queues[unit] else Queue(map[], []);
        var ticket := Ticket(id, unit, quantity, rules.seconds(unit), village, facility);
        queues := queues[unit := Zadd(q, ticket, now + rules.seconds(unit) * 1000)];
      }
      return Granted;
    }

    /** One round of the producer for one unit type. */
    method Produce(unit: nat, fault: Fault)
      modifies this
      ensures State() == Produced(old(State()), unit, fault)
    {
      var q := if unit in queues then queues[unit] else Queue(map[], []);
      if q.pending == [] {
        return;
      }
      var t := q.pending[0];
      queues := queues[unit := Lpop(q)];
      var joined :=
        if t.orderId < |orders| then Matching(rows, t.village, Unit(orders[t.orderId].unit)) else [];
      var delivered := 0;
      if |joined| == 1 {
        delivered := orders[t.orderId].delivered;
      } else if |joined| > 1 {
        return;
      }
      if |joined| == 0 || delivered < t.ordered {
        if fault.RolledBack? {
          return;
        }
        if t.orderId < |orders| {
          orders := orders[t.orderId := orders[t.orderId].(delivered := orders[t.orderId].delivered + 1)];
        }
        if |joined| == 0 {
          rows := rows + [Row(t.village, Unit(t.unit), 1)];
        } else {
          rows := UpdateFrom(rows, t.village, [Amount(Unit(t.unit), 1)], true);
        }
        delivered := delivered + 1;
        var continued := delivered < t.ordered;
        if !continued {
          busy := busy - {t.facility};
        } else if !fault.TicketLost? {
          var left := queues[unit];
          queues := queues[unit := Zadd(left, t, now + t.seconds * 1000)];
        }
      }
    }
  }
}
