/**
 * `InMemoryChallengeStore`: one hash map over mutable records, each method proved to
 * do what the corresponding function of `Challenges` does to the store's value.
 */
module ChallengeStore {
  import opened Options
  import opened Challenges

  class ChallengeRecord {
    const challengeId: string
    const challenge: string
    const npub: string
    const pubkey: string
    const authUrl: string
    const issuedAt: int
    const expiresAt: int
    const clientIp: Option<string>
    var state: State
    var redeemedEventId: Option<string>
    var redeemedSessionId: Option<string>
    var resultCacheUntil: Option<int>
    var failureCount: nat
    /** The record's place in the store's heap. */
    ghost const ref: Ref

    constructor (x: Challenge, ghost r: Ref)
      ensures Value() == x && ref == r
    {
      ref := r;
      challengeId, challenge, npub, pubkey, authUrl := x.challengeId, x.challenge, x.npub, x.pubkey, x.authUrl;
      issuedAt, expiresAt, clientIp, state := x.issuedAt, x.expiresAt, x.clientIp, x.state;
      redeemedEventId, redeemedSessionId := x.redeemedEventId, x.redeemedSessionId;
      resultCacheUntil, failureCount := x.resultCacheUntil, x.failureCount;
    }

    ghost function Value(): Challenge
      reads this
    {
      Challenge(challengeId, challenge, npub, pubkey, authUrl, issuedAt, expiresAt, state,
                redeemedEventId, redeemedSessionId, resultCacheUntil, clientIp, failureCount)
    }

    /** The branches of `redeem` on the record found. */
    method Redeem(p: Redemption) returns (status: RedeemStatus)
      modifies this
      ensures Value() == RedeemRecord(old(Value()), p) && status == RedeemStatusOf(old(Value()), p)
    {
      if expiresAt < p.now || state == Expired {
        state := Expired;
        status := HasExpired;
      } else if state == Issued {
        state := Redeemed;
        redeemedEventId := Some(p.eventId);
        redeemedSessionId := Some(p.sessionId);
        resultCacheUntil := Some(p.resultCacheUntil);
        status := WasRedeemed;
      } else {
        status := AlreadyRedeemed;
      }
    }
  }

  /** The objects currently have the values the view lists, each at its own place. */
  ghost predicate Holds(heap: seq<ChallengeRecord>, objs: seq<Challenge>)
    reads heap
  {
    && |objs| == |heap|
    && (forall i | 0 <= i < |heap| :: heap[i].ref == i && heap[i].Value() == objs[i])
  }

  /** The map from keys to objects that a map from keys to heap positions stands for. */
  ghost function Objects(heap: seq<ChallengeRecord>, v: map<string, Ref>): map<string, ChallengeRecord> {
    map k | k in v && v[k] < |heap| :: heap[v[k]]
  }

  lemma ObjectsMinus(heap: seq<ChallengeRecord>, v: map<string, Ref>, keys: set<string>)
    ensures Objects(heap, v - keys) == Objects(heap, v) - keys
  {
  }

  class InMemoryChallengeStore {
    var records: map<string, ChallengeRecord>
    var lastSweptAt: Option<int>

    /** Every record this store ever held, swept ones included, and the store's value. */
    ghost var heap: seq<ChallengeRecord>
    ghost var view: Store

    ghost predicate Valid()
      reads this, heap
    {
      && records == Objects(heap, view.records)
      && lastSweptAt == view.lastSweptAt
      && Closed(view) && Holds(heap, view.objs)
    }

    constructor ()
      ensures Valid() && view == EMPTY && heap == []
    {
      records, lastSweptAt := map[], None;
      heap, view := [], EMPTY;
    }

    /** The sweep's look at one record; `todo` are the records it has not looked at yet. */
    method Visit(challengeId: string, now: int, ghost start: Store, ghost todo: set<string>)
      requires Closed(start) && Holds(heap, start.objs)
      requires challengeId in start.records && challengeId in todo
      requires records == Objects(heap, start.records - (Stale(start, now) - todo))
      modifies this`records
      ensures records == Objects(heap, start.records - (Stale(start, now) - (todo - {challengeId})))
    {
      ghost var gone := Stale(start, now) - todo;
      var record := records[challengeId];
      assert record == heap[start.records[challengeId]];
      var retainUntil := if record.resultCacheUntil.Some? then record.resultCacheUntil.value else record.expiresAt;
      if retainUntil < now {
        ObjectsMinus(heap, start.records - gone, {challengeId});
        assert Stale(start, now) - (todo - {challengeId}) == gone + {challengeId};
        assert start.records - (gone + {challengeId}) == start.records - gone - {challengeId};
        records := records - {challengeId};
      } else {
        assert Stale(start, now) - (todo - {challengeId}) == gone;
      }
    }

    method SweepAll(now: int)
      requires Valid()
      modifies this`records, this`view
      ensures Valid()
      ensures view == old(view).(records := old(view).records - Stale(old(view), now))
    {
      ghost var start := view;
      var todo := records.Keys;
      assert todo == start.records.Keys;
      assert start.records - (Stale(start, now) - todo) == start.records;
      while todo != {}
        invariant view == start && todo <= start.records.Keys
        invariant records == Objects(heap, start.records - (Stale(start, now) - todo))
        decreases todo
      {
        var challengeId :| challengeId in todo;
        Visit(challengeId, now, start, todo);
        todo := todo - {challengeId};
      }
      assert Stale(start, now) - todo == Stale(start, now);
      view := start.(records := start.records - Stale(start, now));
    }

    method Sweep(now: int)
      requires Valid()
      modifies this`records, this`view, this`lastSweptAt
      ensures Valid()
      ensures view == Challenges.Sweep(old(view), now)
    {
      if lastSweptAt.Some? && now <= lastSweptAt.value {
        return;
      }
      lastSweptAt := Some(now);
      view := view.(lastSweptAt := Some(now));
      SweepAll(now);
    }

    method Insert(record: Challenge)
      requires Valid()
      modifies this`records, this`view, this`heap
      ensures Valid() && |heap| == |old(heap)| + 1 && old(heap) <= heap && fresh(heap[|old(heap)|])
      ensures view == old(view).(objs := old(view).objs + [record],
                                 records := old(view).records[record.challengeId := |old(view).objs|])
    {
      var stored := new ChallengeRecord(record, |heap|);
      assert Objects(heap + [stored], view.records) == Objects(heap, view.records);
      records := records[record.challengeId := stored];
      heap := heap + [stored];
      view := view.(objs := view.objs + [record], records := view.records[record.challengeId := |view.objs|]);
    }

    method Create(record: Challenge, now: int)
      requires Valid()
      modifies this
      ensures Valid() && |heap| == |old(heap)| + 1 && old(heap) <= heap && fresh(heap[|old(heap)|])
      ensures view == Challenges.Create(old(view), now, record)
    {
      Sweep(now);
      Insert(record);
    }

    method Get(challengeId: string) returns (record: ChallengeRecord?)
      requires Valid()
      ensures record == null <==> Challenges.Get(view, challengeId).None?
      ensures record != null ==> record == heap[view.records[challengeId]]
    {
      record := if challengeId in records then records[challengeId] else null;
    }

    method Redeem(challengeId: string, p: Redemption) returns (status: RedeemStatus)
      requires Valid()
      modifies this`view, heap
      ensures Valid()
      ensures (view, status) == Challenges.Redeem(old(view), challengeId, p)
    {
      if challengeId !in records {
        return NotFound;
      }
      var record := records[challengeId];
      view := Update(view, challengeId, RedeemRecord(record.Value(), p));
      status := record.Redeem(p);
    }

    /** Expire one record if it has lapsed; `todo` are the records still to look at. */
    method ExpireIfLapsed(challengeId: string, now: int, ghost start: Store, ghost todo: set<string>) returns (hit: bool)
      requires Valid() && Closed(start) && challengeId in start.records && challengeId in todo
      requires view == start.(objs := ExpireRefs(start.objs, LapsedRefs(start, start.records.Keys - todo, now)))
      modifies this`view, heap
      ensures Valid()
      ensures var lapsed := LapsedRefs(start, start.records.Keys - (todo - {challengeId}), now);
              && view == start.(objs := ExpireRefs(start.objs, lapsed))
              && |lapsed| == |LapsedRefs(start, start.records.Keys - todo, now)| + if hit then 1 else 0
    {
      assert start.records.Keys - (todo - {challengeId}) == start.records.Keys - todo + {challengeId};
      LapsedOneMore(start, start.records.Keys - todo, challengeId, now);
      var record := records[challengeId];
      assert record == heap[start.records[challengeId]];
      hit := record.state == Issued && record.expiresAt < now;
      if hit {
        view := view.(objs := view.objs[record.ref := record.Value().(state := Expired)]);
        record.state := Expired;
      }
    }

    method MarkExpired(now: int) returns (count: nat)
      requires Valid()
      modifies this`view, heap
      ensures Valid()
      ensures view == Challenges.MarkExpired(old(view), now)
      ensures count == |LapsedRefs(old(view), old(view).records.Keys, now)|
    {
      ghost var start := view;
      var todo := records.Keys;
      assert todo == start.records.Keys;
      count := 0;
      assert LapsedRefs(start, start.records.Keys - todo, now) == {};
      assert ExpireRefs(start.objs, {}) == start.objs;
      while todo != {}
        invariant Valid()
        invariant todo <= start.records.Keys
        invariant view == start.(objs := ExpireRefs(start.objs, LapsedRefs(start, start.records.Keys - todo, now)))
        invariant count == |LapsedRefs(start, start.records.Keys - todo, now)|
        decreases todo
      {
        var challengeId :| challengeId in todo;
        var hit := ExpireIfLapsed(challengeId, now, start, todo);
        todo := todo - {challengeId};
        count := if hit then count + 1 else count;
      }
      assert start.records.Keys - todo == start.records.Keys;
    }

    /** The three tests a record passes to be counted. */
    method IsOutstanding(challengeId: string, f: Filter) returns (counts: bool)
      requires Valid() && challengeId in view.records
      ensures counts <==> challengeId in Outstanding(view, f)
    {
      var record := records[challengeId];
      assert record == heap[view.records[challengeId]];
      if record.state != Issued || record.expiresAt < f.now {
        return false;
      }
      if f.npub.Some? && record.npub != f.npub.value {
        return false;
      }
      if f.clientIp.Some? && record.clientIp != f.clientIp {
        return false;
      }
      return true;
    }

    method CountOutstanding(f: Filter) returns (count: nat)
      requires Valid()
      ensures count == |Outstanding(view, f)|
    {
      count := 0;
      ghost var all := Outstanding(view, f);
      var todo := records.Keys;
      assert todo == view.records.Keys;
      NoneVisited(all, todo);
      while todo != {}
        invariant todo <= view.records.Keys && all == Outstanding(view, f)
        invariant count == |all - todo|
        decreases todo
      {
        var challengeId :| challengeId in todo;
        var counts := IsOutstanding(challengeId, f);
        OneMoreVisited(all, todo, challengeId);
        todo := todo - {challengeId};
        count := if counts then count + 1 else count;
      }
      assert all - todo == all;
    }

    method RecordFailure(challengeId: string, maxFailures: int) returns (result: Option<(nat, State)>)
      requires Valid()
      modifies this`view, heap
      ensures Valid()
      ensures view == Challenges.RecordFailure(old(view), challengeId, maxFailures)
      ensures result.Some? <==> challengeId in old(view).records &&
                                old(view).objs[old(view).records[challengeId]].state == Issued
      ensures result.Some? ==>
                var x := view.objs[view.records[challengeId]]; result.value == (x.failureCount, x.state)
    {
      if challengeId !in records || records[challengeId].state != Issued {
        return None;
      }
      var record := records[challengeId];
      view := Update(view, challengeId, FailRecord(record.Value(), maxFailures));
      record.failureCount := record.failureCount + 1;
      if record.failureCount >= maxFailures {
        record.state := FailedTerminal;
      }
      result := Some((record.failureCount, record.state));
    }
  }

  lemma NoneVisited(all: set<string>, todo: set<string>)
    requires all <= todo
    ensures |all - todo| == 0
  {
  }

  lemma OneMoreVisited(all: set<string>, todo: set<string>, k: string)
    requires k in todo
    ensures |all - (todo - {k})| == |all - todo| + if k in all then 1 else 0
  {
    if k in all {
      assert all - (todo - {k}) == all - todo + {k};
    } else {
      assert all - (todo - {k}) == all - todo;
    }
  }

  /** Visiting one more record expires it exactly when no earlier visit did. */
  lemma LapsedOneMore(s: Store, ids: set<string>, k: string, now: int)
    requires Closed(s) && ids <= s.records.Keys && k in s.records && k !in ids
    ensures var before := ExpireRefs(s.objs, LapsedRefs(s, ids, now));
            var after := ExpireRefs(s.objs, LapsedRefs(s, ids + {k}, now));
            var r := s.records[k];
            if Lapsed(before[r], now)
            then after == before[r := before[r].(state := Expired)] &&
                 |LapsedRefs(s, ids + {k}, now)| == |LapsedRefs(s, ids, now)| + 1
            else after == before && |LapsedRefs(s, ids + {k}, now)| == |LapsedRefs(s, ids, now)|
  {
    var r := s.records[k];
    LapsedRefsOneMore(s, ids, k, now);
    if Lapsed(s.objs[r], now) && r in LapsedRefs(s, ids, now) {
      assert LapsedRefs(s, ids, now) + {r} == LapsedRefs(s, ids, now);
    }
  }

  lemma LapsedRefsOneMore(s: Store, ids: set<string>, k: string, now: int)
    requires Closed(s) && ids <= s.records.Keys && k in s.records
    ensures LapsedRefs(s, ids + {k}, now) == LapsedRefs(s, ids, now) + if Lapsed(s.objs[s.records[k]], now) then {s.records[k]} else {}
  {
  }
}
