// How late units can arrive. Time is assumed to pass only while no ticket is pending, and no further than a lag
// beyond the moment at which a delayed ticket came due; then deliveries keep up with the production time plus lag.

module ProductionDeadlines {
  import opened Stock
  import opened DelayedQueue
  import opened UnitProduction

  /** The scheduler and the producer keep up: nothing is pending when time passes, and no delayed ticket is left more
      than `lag` beyond its score. */
  ghost predicate Prompt(w: World, e: Event, lag: nat) {
    e.Tick? ==> forall unit ::
      && QueueOf(w, unit).pending == []
      && forall t <- QueueOf(w, unit).delayed :: w.now + e.elapsed <= QueueOf(w, unit).delayed[t] + lag
  }

  ghost predicate AllPrompt(rules: Rules, w: World, es: seq<Event>, lag: nat)
    requires Legal(rules, w, es)
    decreases |es|
  {
    es == [] || (Prompt(w, es[0], lag) && AllPrompt(rules, Next(rules, w, es[0]), es[1..], lag))
  }

  /** The moment until which unit `n` of an order may take. */
  function Latest(rules: Rules, o: Order, n: int, lag: nat): int {
    o.placedAt + n * (Millis(rules.seconds(o.unit)) + lag)
  }

  /** The ticket of an order is neither scored late nor overdue. */
  predicate InTime(rules: Rules, w: World, unit: nat, t: Ticket, lag: nat) {
    t.orderId < |w.orders| ==>
      var o, q := w.orders[t.orderId], QueueOf(w, unit);
      && (t in q.delayed ==>
            && q.delayed[t] <= Latest(rules, o, o.delivered, lag) + Millis(rules.seconds(o.unit))
            && w.now <= q.delayed[t] + lag)
      && (t in q.pending ==> w.now <= Latest(rules, o, o.delivered + 1, lag))
  }

  ghost predicate AllInTime(rules: Rules, w: World, lag: nat) {
    forall unit, t :: Queued(w, unit, t) ==> InTime(rules, w, unit, t, lag)
  }

  lemma NextUnit(rules: Rules, o: Order, n: int, lag: nat)
    ensures Latest(rules, o, n + 1, lag) == Latest(rules, o, n, lag) + Millis(rules.seconds(o.unit)) + lag
  {
  }

  lemma PlaceInTime(rules: Rules, w: World, f: nat, u: nat, n: int, available: bool, queued: bool, lag: nat)
    requires Inv(rules, w) && AllInTime(rules, w, lag)
    ensures AllInTime(rules, Placed(rules, w, f, u, n, available, queued), lag)
  {
    var w' := Placed(rules, w, f, u, n, available, queued);
    forall unit, t | Queued(w', unit, t) ensures InTime(rules, w', unit, t, lag) {
      if Queued(w, unit, t) {
        assert InTime(rules, w, unit, t, lag) && TicketOk(rules, w, unit, t);
      }
    }
  }

  lemma MoveInTime(rules: Rules, w: World, u: nat, listing: seq<Ticket>, lag: nat)
    requires Inv(rules, w) && AllInTime(rules, w, lag) && Enabled(w, Move(u, listing))
    ensures AllInTime(rules, Next(rules, w, Move(u, listing)), lag)
  {
    MoveFacts(w, u, listing);
    Reordered(rules, w, Next(rules, w, Move(u, listing)), lag);
  }

  lemma Reordered(rules: Rules, w: World, w': World, lag: nat)
    requires AllInTime(rules, w, lag) && w'.orders == w.orders && w'.now == w.now
    requires forall unit, t :: Queued(w', unit, t) ==> Queued(w, unit, t)
    requires forall unit, t | t in QueueOf(w', unit).delayed ::
      t in QueueOf(w, unit).delayed && QueueOf(w', unit).delayed[t] == QueueOf(w, unit).delayed[t]
    requires forall unit, t | t in QueueOf(w', unit).pending && t !in QueueOf(w, unit).pending ::
      t in QueueOf(w, unit).delayed && QueueOf(w, unit).delayed[t] <= w.now
    ensures AllInTime(rules, w', lag)
  {
    forall unit, t | Queued(w', unit, t) ensures InTime(rules, w', unit, t, lag) {
      assert Queued(w, unit, t) && InTime(rules, w, unit, t, lag);
      if t.orderId < |w.orders| {
        NextUnit(rules, w.orders[t.orderId], w.orders[t.orderId].delivered, lag);
      }
    }
  }

  /** A committed delivery concerns only its own order, whose ticket has just been taken. */
  lemma DeliveredInTime(rules: Rules, w: World, unit: nat, t: Ticket, last: bool, lag: nat)
    requires Inv(rules, w) && AllInTime(rules, w, lag) && Taken(rules, w, unit, t)
    ensures AllInTime(rules, Delivered(w, t, ReadBack(w, t), last), lag)
  {
    var w' := Delivered(w, t, ReadBack(w, t), last);
    forall u, x | Queued(w', u, x) ensures InTime(rules, w', u, x, lag) {
      assert QueueOf(w', u) == QueueOf(w, u) && Queued(w, u, x);
      assert InTime(rules, w, u, x, lag) && TicketOk(rules, w, u, x) && x.facility != t.facility;
    }
  }

  /** A ticket that comes back is scored from now. */
  lemma RequeueInTime(rules: Rules, w: World, unit: nat, t: Ticket, lag: nat)
    requires Inv(rules, w) && AllInTime(rules, w, lag) && TicketOk(rules, w, unit, t)
    requires forall u, x :: Queued(w, u, x) ==> x.facility != t.facility
    requires w.now <= Latest(rules, w.orders[t.orderId], w.orders[t.orderId].delivered, lag)
    ensures AllInTime(rules, WithQueue(w, unit, Zadd(QueueOf(w, unit), t, w.now + Millis(t.seconds))), lag)
  {
    var w' := WithQueue(w, unit, Zadd(QueueOf(w, unit), t, w.now + Millis(t.seconds)));
    RequeueKeeps(rules, w, unit, t);
    forall u, x | Queued(w', u, x) ensures InTime(rules, w', u, x, lag) {
      if Queued(w, u, x) {
        assert InTime(rules, w, u, x, lag) && x != t;
      }
    }
  }

  lemma PopInTime(rules: Rules, w: World, unit: nat, lag: nat)
    requires Inv(rules, w) && AllInTime(rules, w, lag) && QueueOf(w, unit).pending != []
    ensures AllInTime(rules, WithQueue(w, unit, Lpop(QueueOf(w, unit))), lag)
  {
    var w' := WithQueue(w, unit, Lpop(QueueOf(w, unit)));
    forall u, x | Queued(w', u, x) ensures InTime(rules, w', u, x, lag) {
      assert Queued(w, u, x) && InTime(rules, w, u, x, lag);
    }
  }

  lemma ProduceInTime(rules: Rules, w: World, unit: nat, fault: Fault, lag: nat)
    requires Inv(rules, w) && AllInTime(rules, w, lag)
    ensures AllInTime(rules, Produced(w, unit, fault), lag)
  {
    if QueueOf(w, unit).pending != [] {
      var t := QueueOf(w, unit).pending[0];
      assert Queued(w, unit, t) && InTime(rules, w, unit, t, lag);
      ProducedForm(rules, w, unit, fault);
      PopInTime(rules, w, unit, lag);
      var popped := WithQueue(w, unit, Lpop(QueueOf(w, unit)));
      var last := w.orders[t.orderId].delivered + 1 == w.orders[t.orderId].ordered;
      CommitKeeps(rules, popped, unit, t, last);
      DeliveredInTime(rules, popped, unit, t, last, lag);
      var committed := Delivered(popped, t, ReadBack(popped, t), last);
      if !last {
        forall u, x | Queued(committed, u, x) ensures x.facility != t.facility {
          assert Queued(popped, u, x);
        }
        RequeueInTime(rules, committed, unit, t, lag);
      }
    }
  }

  lemma NextInTime(rules: Rules, w: World, e: Event, lag: nat)
    requires Inv(rules, w) && AllInTime(rules, w, lag) && Enabled(w, e) && Prompt(w, e, lag)
    ensures AllInTime(rules, Next(rules, w, e), lag)
  {
    match e
    case Place(f, u, n, available, queued) => PlaceInTime(rules, w, f, u, n, available, queued, lag);
    case Move(u, listing) => MoveInTime(rules, w, u, listing, lag);
    case Deliver(u, fault) => ProduceInTime(rules, w, u, fault, lag);
    case Adjust(_, _, _) => SameQueues(rules, w, Next(rules, w, e), lag);
    case Tick(_) => SameQueues(rules, w, Next(rules, w, e), lag);
  }

  lemma SameQueues(rules: Rules, w: World, w': World, lag: nat)
    requires AllInTime(rules, w, lag) && w'.queues == w.queues && w'.orders == w.orders
    requires w'.now == w.now || forall unit ::
      && QueueOf(w, unit).pending == []
      && forall t <- QueueOf(w, unit).delayed :: w'.now <= QueueOf(w, unit).delayed[t] + lag
    ensures AllInTime(rules, w', lag)
  {
    forall unit, t | Queued(w', unit, t) ensures InTime(rules, w', unit, t, lag) {
      assert QueueOf(w', unit) == QueueOf(w, unit);
      assert Queued(w, unit, t) && InTime(rules, w, unit, t, lag);
    }
  }

  lemma {:induction false} RunInTime(rules: Rules, w: World, es: seq<Event>, lag: nat)
    requires Inv(rules, w) && AllInTime(rules, w, lag) && Legal(rules, w, es) && AllPrompt(rules, w, es, lag)
    ensures AllInTime(rules, Run(rules, w, es), lag)
    decreases |es|
  {
    if es != [] {
      NextInTime(rules, w, es[0], lag);
      NextKeeps(rules, w, es[0]);
      RunInTime(rules, Next(rules, w, es[0]), es[1..], lag);
    }
  }

  /** The lower bound: in a prompt run without faults, once more than `n` times the production time plus lag has
      passed since an order was placed, at least `n` of its units have arrived, or all. */
  lemma Arrived(rules: Rules, w: World, es: seq<Event>, id: nat, lag: nat, n: nat)
    requires Idle(w) && Legal(rules, w, es) && AllPrompt(rules, w, es, lag) && forall e <- es :: FaultFree(e)
    requires id < |Run(rules, w, es).orders|
    ensures var w' := Run(rules, w, es);
      var o := w'.orders[id];
      w'.now - o.placedAt > n * (1000 * rules.seconds(o.unit) + lag) ==> o.delivered >= n || o.delivered == o.ordered
  {
    IdleHolds(rules, w);
    RunKeeps(rules, w, es);
    RunInTime(rules, w, es, lag);
    var w' := Run(rules, w, es);
    var o := w'.orders[id];
    assert OrderOk(rules, w', id);
    if o.delivered < o.ordered {
      var t := TicketOf(rules, w', id);
      assert Queued(w', o.unit, t) && InTime(rules, w', o.unit, t, lag);
      NextUnit(rules, o, o.delivered, lag);
      assert w'.now <= Latest(rules, o, o.delivered + 1, lag);
      if o.delivered < n {
        Monotone(o.delivered + 1, n, Millis(rules.seconds(o.unit)) + lag);
      }
    }
  }

  lemma Monotone(m: int, n: int, c: nat)
    requires m <= n
    ensures m * c <= n * c
  {
  }
}
