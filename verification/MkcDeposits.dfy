// Which of the token movements on chain end up as deposits.

module MkcDeposits {
  import opened Options
  import opened Sequences
  import opened MkcTransfers

  /** A token movement on chain: the position within the transaction tells movements of one hash apart. */
  datatype TokenMove = TokenMove(source: Hash, index: nat, user: UserId, amount: nat)

  /** The movement to a user that an event brings to the listener, if any. */
  function Arrival(e: Event): seq<TokenMove> {
    if e.Observe? && e.to.Some? && e.tokens > 0 then [TokenMove(e.source, e.index, e.to.value, e.tokens)] else []
  }

  /** The movements a run brings, in order of arrival and with repetitions. */
  function Observed(es: seq<Event>): seq<TokenMove> {
    if es == [] then [] else Arrival(es[0]) + Observed(es[1..])
  }

  /** One user, or everyone. */
  type Party = Option<UserId>

  predicate Concerns(who: Party, u: UserId) {
    who == None || who == Some(u)
  }

  function Amounts(ms: seq<TokenMove>, who: Party): nat {
    if ms == [] then 0 else (if Concerns(who, ms[0].user) then ms[0].amount else 0) + Amounts(ms[1..], who)
  }

  predicate HashesDistinct(ms: seq<TokenMove>) {
    forall i, j :: 0 <= i < j < |ms| ==> ms[i].source != ms[j].source
  }

  /** What the deposit rows record. */
  function Recorded(ts: seq<Transfer>, who: Party): int {
    if ts == [] then 0
    else
      var last := ts[|ts| - 1];
      Recorded(ts[..|ts| - 1], who) + if last.kind.ToGameWallet? && Concerns(who, last.user) then last.amount else 0
  }

  function Sources(ts: seq<Transfer>): set<Hash> {
    set t | t in ts && t.source.Some? :: t.source.value
  }

  /** The observed movements whose hash is new when they arrive. */
  function FirstOfEach(ms: seq<TokenMove>, known: set<Hash>): (firsts: seq<TokenMove>)
    ensures HashesDistinct(firsts)
    ensures forall m <- firsts :: m in ms && m.source !in known
  {
    if ms == [] then []
    else if ms[0].source in known then FirstOfEach(ms[1..], known)
    else [ms[0]] + FirstOfEach(ms[1..], known + {ms[0].source})
  }

  lemma {:induction false} RecordedPersists(ts: seq<Transfer>, ts': seq<Transfer>, who: Party)
    requires Persists(ts, ts') && |ts| == |ts'|
    ensures Recorded(ts', who) == Recorded(ts, who)
  {
    if ts != [] {
      RecordedPersists(ts[..|ts| - 1], ts'[..|ts| - 1], who);
    }
  }

  lemma SourcesPersist(ts: seq<Transfer>, ts': seq<Transfer>)
    requires Persists(ts, ts') && |ts| == |ts'|
    ensures Sources(ts') == Sources(ts)
  {
    forall h ensures h in Sources(ts) <==> h in Sources(ts') {
      if h in Sources(ts) {
        var i :| 0 <= i < |ts| && ts[i].source == Some(h);
        assert ts'[i] in ts';
      }
      if h in Sources(ts') {
        var i :| 0 <= i < |ts'| && ts'[i].source == Some(h);
        assert ts[i] in ts;
      }
    }
  }

  lemma RecordedAppend(ts: seq<Transfer>, t: Transfer, who: Party)
    ensures Recorded(ts + [t], who) == Recorded(ts, who)
      + if t.kind.ToGameWallet? && Concerns(who, t.user) then t.amount else 0
    ensures Sources(ts + [t]) == Sources(ts) + if t.source.Some? then {t.source.value} else {}
  {
    assert (ts + [t])[..|ts|] == ts;
    assert forall x :: x in ts + [t] <==> x in ts || x == t;
  }

  lemma SeenRecords(w: World, to: Option<UserId>, tokens: nat, source: Hash, who: Party)
    ensures var ts, ts' := w.db.transfers, Seen(w, to, tokens, source).db.transfers;
      if to.Some? && tokens > 0 && source !in Sources(ts)
      then
        && Recorded(ts', who) == Recorded(ts, who) + (if Concerns(who, to.value) then tokens else 0)
        && Sources(ts') == Sources(ts) + {source}
      else ts' == ts
  {
    var ts := w.db.transfers;
    assert Registered(ts, source) <==> source in Sources(ts);
    if to.Some? {
      RecordedAppend(ts, Transfer(ToGameWallet, to.value, tokens, Pending, 0, Some(source), None), who);
    }
  }

  /** A step records the movement it observes if its hash is new, and nothing else. */
  lemma NextRecords(w: World, e: Event, who: Party)
    requires Enabled(w, e)
    ensures var ms := Arrival(e);
      var ts, ts' := w.db.transfers, Next(w, e).db.transfers;
      if ms != [] && ms[0].source !in Sources(ts)
      then Recorded(ts', who) == Recorded(ts, who) + Amounts(ms, who) && Sources(ts') == Sources(ts) + {ms[0].source}
      else Recorded(ts', who) == Recorded(ts, who) && Sources(ts') == Sources(ts)
  {
    if e.Observe? {
      SeenRecords(w, e.to, e.tokens, e.source, who);
      OneArrival(e, who);
    } else {
      OthersRecordNothing(w, e, who);
    }
  }

  lemma OneArrival(e: Event, who: Party)
    requires e.Observe?
    ensures Arrival(e) != [] <==> e.to.Some? && e.tokens > 0
    ensures Arrival(e) != [] ==>
      Arrival(e)[0].source == e.source && Amounts(Arrival(e), who) == if Concerns(who, e.to.value) then e.tokens else 0
  {
    assert Arrival(e) != [] ==> Arrival(e)[1..] == [];
  }

  lemma OthersRecordNothing(w: World, e: Event, who: Party)
    requires Enabled(w, e) && !e.Observe?
    ensures var ts, ts' := w.db.transfers, Next(w, e).db.transfers;
      Recorded(ts', who) == Recorded(ts, who) && Sources(ts') == Sources(ts)
  {
    var ts, ts' := w.db.transfers, Next(w, e).db.transfers;
    if e.RunBatch? {
      BatchPersists(w, e.picks);
      RecordedPersists(ts, ts', who);
      SourcesPersist(ts, ts');
    } else if ts' != ts {
      RecordedAppend(ts, Transfer(ToExternalWallet, e.user, e.amount.value, Pending, 0, None, None), who);
    }
  }

  lemma FirstsStep(ms: seq<TokenMove>, rest: seq<TokenMove>, known: set<Hash>, who: Party)
    requires |ms| <= 1
    ensures Amounts(FirstOfEach(ms + rest, known), who) ==
      if ms != [] && ms[0].source !in known
      then Amounts(ms, who) + Amounts(FirstOfEach(rest, known + {ms[0].source}), who)
      else Amounts(FirstOfEach(rest, known), who)
  {
    if ms == [] {
      assert ms + rest == rest;
    } else {
      assert (ms + rest)[1..] == rest;
      var firsts := FirstOfEach(rest, known + {ms[0].source});
      assert ([ms[0]] + firsts)[1..] == firsts;
    }
  }

  lemma {:induction false} RunRecords(w: World, es: seq<Event>, who: Party)
    requires Legal(w, es)
    ensures Recorded(Run(w, es).db.transfers, who)
      == Recorded(w.db.transfers, who) + Amounts(FirstOfEach(Observed(es), Sources(w.db.transfers)), who)
    decreases |es|
  {
    if es != [] {
      var w' := Next(w, es[0]);
      NextRecords(w, es[0], who);
      RunRecords(w', es[1..], who);
      FirstsStep(Arrival(es[0]), Observed(es[1..]), Sources(w.db.transfers), who);
    }
  }

  lemma {:induction false} AmountsWithout(ms: seq<TokenMove>, i: nat, who: Party)
    requires i < |ms|
    ensures Amounts(ms, who)
      == (if Concerns(who, ms[i].user) then ms[i].amount else 0) + Amounts(ms[..i] + ms[i + 1..], who)
  {
    var rest := ms[..i] + ms[i + 1..];
    if i > 0 {
      AmountsWithout(ms[1..], i - 1, who);
      assert rest[1..] == ms[1..][..i - 1] + ms[1..][i..];
    } else {
      assert rest == ms[1..];
    }
  }

  lemma OthersThan(part: seq<TokenMove>, i: nat)
    requires Distinct(part) && i < |part|
    ensures var others := part[..i] + part[i + 1..];
      Distinct(others) && forall x :: x in others <==> x in part && x != part[i]
  {
  }

  /** Part of a list of positive amounts adds up to the whole only if it is all of it. */
  lemma {:induction false} PartAmounts(part: seq<TokenMove>, ms: seq<TokenMove>, who: Party)
    requires Distinct(part) && Distinct(ms) && (forall m <- part :: m in ms)
    requires forall m <- ms :: m.amount > 0
    ensures Amounts(part, who) <= Amounts(ms, who)
    ensures Amounts(part, who) == Amounts(ms, who) <==> forall m <- ms :: Concerns(who, m.user) ==> m in part
    decreases |ms|
  {
    assert forall i :: 0 <= i < |part| ==> part[i] in ms;
    if ms != [] {
      var m, rest := ms[0], ms[1..];
      assert forall x :: x in ms <==> x == m || x in rest;
      if m in part {
        var i :| 0 <= i < |part| && part[i] == m;
        var others := part[..i] + part[i + 1..];
        AmountsWithout(part, i, who);
        OthersThan(part, i);
        PartAmounts(others, rest, who);
      } else {
        PartAmounts(part, rest, who);
      }
    }
  }

  /** The first movement of its hash to arrive is kept. */
  lemma {:induction false} OnlyOfItsHash(ms: seq<TokenMove>, known: set<Hash>, m: TokenMove)
    requires m in ms && m.source !in known && forall x <- ms :: x.source == m.source ==> x == m
    ensures m in FirstOfEach(ms, known)
  {
    if ms[0] != m {
      assert m in ms[1..];
      OnlyOfItsHash(ms[1..], if ms[0].source in known then known else known + {ms[0].source}, m);
    }
  }

  /** The recorded deposits of a user, or of everyone, are the observed movements whose hash arrived first; of
      movements with different hashes these are all. */
  lemma RecordedDeposits(init: Wallets, es: seq<Event>, ms: seq<TokenMove>, who: Party)
    requires Legal(Start(init), es) && Distinct(ms)
    requires forall m :: m in ms <==> m in Observed(es)
    ensures var firsts := FirstOfEach(Observed(es), {});
      && Recorded(Run(Start(init), es).db.transfers, who) == Amounts(firsts, who)
      && (Amounts(firsts, who) == Amounts(ms, who) <==> forall m <- ms :: Concerns(who, m.user) ==> m in firsts)
      && (HashesDistinct(ms) ==> Amounts(firsts, who) == Amounts(ms, who))
  {
    var seen := Observed(es);
    RunRecords(Start(init), es, who);
    assert Sources([]) == {};
    ObservedPositive(es);
    PartAmounts(FirstOfEach(seen, {}), ms, who);
    if HashesDistinct(ms) {
      forall m | m in ms ensures m in FirstOfEach(seen, {}) {
        OnlyOne(seen, ms, m);
        OnlyOfItsHash(seen, {}, m);
      }
    }
  }

  lemma OnlyOne(seen: seq<TokenMove>, ms: seq<TokenMove>, m: TokenMove)
    requires HashesDistinct(ms) && m in ms && forall x <- seen :: x in ms
    ensures forall x <- seen :: x.source == m.source ==> x == m
  {
  }

  /** The source hash is the whole key. Of distinct token movements, each observed at least once, in any order
      and between any other events, the recorded deposits add up to all of them if and only if no two share
      a transaction hash. */
  lemma DepositsRecorded(init: Wallets, es: seq<Event>, ms: seq<TokenMove>)
    requires Legal(Start(init), es) && Distinct(ms)
    requires forall m :: m in ms <==> m in Observed(es)
    ensures Recorded(Run(Start(init), es).db.transfers, None) == Amounts(ms, None) <==> HashesDistinct(ms)
  {
    RecordedDeposits(init, es, ms, None);
    if i, j :| 0 <= i < j < |ms| && ms[i].source == ms[j].source {
      OneOfAHash(FirstOfEach(Observed(es), {}), ms[i], ms[j]);
      assert ms[i] in ms && ms[j] in ms;
    }
  }

  lemma OneOfAHash(ms: seq<TokenMove>, a: TokenMove, b: TokenMove)
    requires HashesDistinct(ms) && a.source == b.source
    ensures a in ms && b in ms ==> a == b
  {
  }

  lemma {:induction false} ObservedPositive(es: seq<Event>)
    ensures forall m <- Observed(es) :: m.amount > 0
  {
    if es != [] {
      ObservedPositive(es[1..]);
    }
  }

  /** So of two movements inside one transaction only the first is recorded. */
  lemma SecondMovementOfOneTransactionIsDropped(w: World, a: UserId, b: UserId, x: nat, y: nat, source: Hash)
    requires !Registered(w.db.transfers, source) && x > 0
    ensures var w1 := Seen(w, Some(a), x, source);
      |w1.db.transfers| == |w.db.transfers| + 1 && Seen(w1, Some(b), y, source) == w1
  {
  }
}
