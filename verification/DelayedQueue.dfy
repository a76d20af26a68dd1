// A delayed set (Redis sorted set: member -> score) in front of a pending list, and the job that moves
// entries that have come due from the one to the other. Both game pipelines are built on such pairs.

module DelayedQueue {
  import opened Sequences

  datatype Queue<T(==)> = Queue(delayed: map<T, int>, pending: seq<T>)

  /** A cell of the flattened reply to ZRANGE ... WITHSCORES: member, score, member, score, ... */
  datatype Cell<T> = Member(member: T) | Score(score: int)

  predicate Holds<T(==)>(q: Queue<T>, t: T) {
    t in q.delayed || t in q.pending
  }

  /** No entry occurs twice, be it delayed or pending. */
  predicate Single<T(==)>(q: Queue<T>) {
    Distinct(q.pending) && forall t <- q.pending :: t !in q.delayed
  }

  function Zadd<T(==)>(q: Queue<T>, t: T, score: int): Queue<T> {
    q.(delayed := q.delayed[t := score])
  }

  function Lpop<T(==)>(q: Queue<T>): Queue<T>
    requires q.pending != []
  {
    q.(pending := q.pending[1..])
  }

  ghost function Contents<T>(q: Queue<T>): multiset<T> {
    multiset(q.delayed.Keys) + multiset(q.pending)
  }

  /** `listing` is a reply to ZRANGE 0 (limit-1): the lowest scores in score order. Entries with equal
      scores may come in any order. */
  ghost predicate Ranking<T>(delayed: map<T, int>, limit: nat, listing: seq<T>) {
    && Distinct(listing)
    && |listing| == (if |delayed| < limit then |delayed| else limit)
    && (forall t <- listing :: t in delayed)
    && (forall i, j :: 0 <= i < j < |listing| ==> delayed[listing[i]] <= delayed[listing[j]])
    && (forall t, j | t in delayed && t !in listing && 0 <= j < |listing| :: delayed[listing[j]] <= delayed[t])
  }

  /** The length of the leading part of `listing` that is due at `now`. */
  function DuePrefix<T(==)>(delayed: map<T, int>, listing: seq<T>, now: int): (p: nat)
    requires forall t <- listing :: t in delayed
    ensures p <= |listing|
    ensures forall i :: 0 <= i < p ==> delayed[listing[i]] <= now
    ensures p < |listing| ==> delayed[listing[p]] > now
  {
    if listing == [] || delayed[listing[0]] > now then 0
    else 1 + DuePrefix(delayed, listing[1..], now)
  }

  function Elements<T(==)>(s: seq<T>): set<T> {
    set t | t in s
  }

  /** The state after moving the first `k` entries of the reply, and after moving the due prefix. */
  function MoveFirst<T(==)>(q: Queue<T>, listing: seq<T>, k: nat): Queue<T>
    requires k <= |listing|
  {
    Queue(q.delayed - Elements(listing[..k]), q.pending + listing[..k])
  }

  function MoveDue<T(==)>(q: Queue<T>, listing: seq<T>, now: int): Queue<T>
    requires forall t <- listing :: t in q.delayed
  {
    MoveFirst(q, listing, DuePrefix(q.delayed, listing, now))
  }

  lemma {:induction false} SetOfDistinct<T>(s: seq<T>)
    requires Distinct(s)
    ensures |Elements(s)| == |s|
    ensures multiset(Elements(s)) == multiset(s)
  {
    if s != [] {
      var n := |s| - 1;
      SetOfDistinct(s[..n]);
      assert s == s[..n] + [s[n]];
      assert Elements(s) == Elements(s[..n]) + {s[n]};
    }
  }

  lemma SubsetSize<T>(a: set<T>, b: set<T>)
    requires a <= b
    ensures |a| <= |b|
    ensures |a| == |b| ==> a == b
  {
    assert b == a + (b - a);
    assert |b| == |a| + |b - a|;
  }

  lemma SplitMultiset<T>(a: set<T>, b: set<T>)
    requires a !! b
    ensures multiset(a + b) == multiset(a) + multiset(b)
  {
  }

  /** Nothing is lost or duplicated by a move. */
  lemma MoveConserves<T>(q: Queue<T>, listing: seq<T>, now: int)
    requires Distinct(listing) && forall t <- listing :: t in q.delayed
    ensures Contents(MoveDue(q, listing, now)) == Contents(q)
  {
    var moved := listing[..DuePrefix(q.delayed, listing, now)];
    SetOfDistinct(moved);
    KeysSplit(q.delayed, moved);
  }

  lemma KeysSplit<T>(delayed: map<T, int>, moved: seq<T>)
    requires forall t <- moved :: t in delayed
    ensures multiset(delayed.Keys) == multiset((delayed - Elements(moved)).Keys) + multiset(Elements(moved))
  {
    var left := (delayed - Elements(moved)).Keys;
    assert delayed.Keys == left + Elements(moved);
    SplitMultiset(left, Elements(moved));
  }

  /** Only due entries leave the delayed set, the others keep their scores, and arrivals are appended. */
  lemma MoveIsDue<T>(q: Queue<T>, listing: seq<T>, now: int)
    requires forall t <- listing :: t in q.delayed
    ensures var q' := MoveDue(q, listing, now);
      && q.pending <= q'.pending
      && (forall t <- q'.delayed :: t in q.delayed && q'.delayed[t] == q.delayed[t])
      && (forall t <- q'.pending :: t in q.pending || (t in q.delayed && q.delayed[t] <= now))
  {
  }

  /** Arrivals stand in the order of their scores. */
  lemma MoveInOrder<T>(q: Queue<T>, limit: nat, listing: seq<T>, now: int)
    requires Ranking(q.delayed, limit, listing)
    ensures var q' := MoveDue(q, listing, now);
      forall i, j :: |q.pending| <= i < j < |q'.pending| ==>
        && q'.pending[i] in q.delayed && q'.pending[j] in q.delayed
        && q.delayed[q'.pending[i]] <= q.delayed[q'.pending[j]]
  {
    var q' := MoveDue(q, listing, now);
    assert forall i :: |q.pending| <= i < |q'.pending| ==> q'.pending[i] == listing[i - |q.pending|];
  }

  lemma MoveKeepsSingle<T>(q: Queue<T>, listing: seq<T>, now: int)
    requires Single(q) && Distinct(listing) && forall t <- listing :: t in q.delayed
    ensures var q' := MoveDue(q, listing, now);
      Single(q') && forall t :: Holds(q', t) <==> Holds(q, t)
  {
    var q' := MoveDue(q, listing, now);
    var moved := listing[..DuePrefix(q.delayed, listing, now)];
    assert forall t <- moved :: t in q.delayed;
    assert forall t :: t in q'.pending <==> t in q.pending || t in moved;
    forall i, j | 0 <= i < j < |q'.pending| ensures q'.pending[i] != q'.pending[j] {
      if i < |q.pending| <= j {
        assert q'.pending[i] in q.pending && q'.pending[j] in moved;
      }
    }
  }

  ghost function DueSet<T>(delayed: map<T, int>, now: int): set<T> {
    set t | t in delayed && delayed[t] <= now
  }

  /** A reply shorter than the limit lists every entry. */
  lemma ShortReplyIsComplete<T>(delayed: map<T, int>, limit: nat, listing: seq<T>, t: T)
    requires Ranking(delayed, limit, listing) && |listing| < limit && t in delayed
    ensures t in listing
  {
    SetOfDistinct(listing);
    SubsetSize(Elements(listing), delayed.Keys);
  }

  /** A due entry beyond the leading part that is due exists only when the limit was reached. */
  lemma DueIsListed<T>(delayed: map<T, int>, limit: nat, listing: seq<T>, now: int, p: nat, t: T)
    requires Ranking(delayed, limit, listing)
    requires t in delayed && delayed[t] <= now
    requires p <= |listing| && p < limit && (p < |listing| ==> delayed[listing[p]] > now)
    ensures t in listing[..p]
  {
    if p == |listing| {
      ShortReplyIsComplete(delayed, limit, listing, t);
      assert listing[..p] == listing;
    } else {
      var j :| 0 <= j < |listing| && listing[j] == t;
      assert listing[..p][j] == t;
    }
  }

  /** The leading due part holds due entries only, and all of them unless the limit was reached. */
  lemma DuePart<T>(delayed: map<T, int>, limit: nat, listing: seq<T>, now: int, p: nat)
    requires Ranking(delayed, limit, listing) && p <= |listing| && (p < |listing| ==> delayed[listing[p]] > now)
    requires forall i :: 0 <= i < p ==> delayed[listing[i]] <= now
    ensures Elements(listing[..p]) <= DueSet(delayed, now) && |Elements(listing[..p])| == p
    ensures p < limit ==> Elements(listing[..p]) == DueSet(delayed, now)
  {
    SetOfDistinct(listing[..p]);
    if p < limit {
      forall t | t in DueSet(delayed, now) ensures t in listing[..p] {
        DueIsListed(delayed, limit, listing, now, p, t);
      }
    }
  }

  /** Exactly as many entries move as are due, up to the limit; so nothing due stays behind unless the
      limit was reached. */
  lemma MoveTakesAllDue<T>(q: Queue<T>, limit: nat, listing: seq<T>, now: int)
    requires Ranking(q.delayed, limit, listing)
    ensures var due := |DueSet(q.delayed, now)|;
      && |MoveDue(q, listing, now).pending| == |q.pending| + (if due < limit then due else limit)
      && (due <= limit ==> forall t <- MoveDue(q, listing, now).delayed :: q.delayed[t] > now)
  {
    var p := DuePrefix(q.delayed, listing, now);
    DuePart(q.delayed, limit, listing, now, p);
    SubsetSize(Elements(listing[..p]), DueSet(q.delayed, now));
  }

  /** The reply as the client library delivers it: members and scores in turn. */
  predicate Flattened<T(==)>(delayed: map<T, int>, listing: seq<T>, cells: seq<Cell<T>>) {
    && |cells| == 2 * |listing|
    && forall i :: 0 <= i < |listing| ==>
         listing[i] in delayed && cells[2 * i] == Member(listing[i]) && cells[2 * i + 1] == Score(delayed[listing[i]])
  }

  lemma MoveNext<T>(q: Queue<T>, listing: seq<T>, k: nat)
    requires k < |listing|
    ensures var q' := MoveFirst(q, listing, k);
      MoveFirst(q, listing, k + 1) == Queue(q'.delayed - {listing[k]}, q'.pending + [listing[k]])
  {
    assert listing[..k + 1] == listing[..k] + [listing[k]];
  }

  class Scheduler<T(==)> {
    var delayed: map<T, int>
    var pending: seq<T>

    /** Moves the entries of `results` one by one and stops at the first that is not due. */
    method MoveFromZsetToList(results: seq<Cell<T>>, now: int, ghost listing: seq<T>)
      requires Distinct(listing) && forall t <- listing :: t in delayed
      requires Flattened(delayed, listing, results)
      modifies this
      ensures Queue(delayed, pending) == MoveDue(old(Queue(delayed, pending)), listing, now)
    {
      ghost var before, p := Queue(delayed, pending), DuePrefix(delayed, listing, now);
      var i := 0;
      while i < |results|
        invariant 0 <= i <= |results| && i % 2 == 0
        invariant i / 2 <= p
        invariant Queue(delayed, pending) == MoveFirst(before, listing, i / 2)
      {
        ghost var k := i / 2;
        assert results[2 * k] == Member(listing[k]) && results[2 * k + 1] == Score(before.delayed[listing[k]]);
        var member, score := results[i].member, results[i + 1].score;
        if score > now {
          return;
        }
        MoveNext(before, listing, k);
        pending := pending + [member];
        delayed := delayed - {member};
        i := i + 2;
      }
    }
  }
}
