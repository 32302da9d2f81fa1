/**
 * The challenge store that sweeps once per tick, beside one that never deletes: they agree on
 * every record anything can still ask about.
 */
module ChallengeSweep {
  import opened Challenges
  import opened Server

  ghost function Insert(s: Store, record: Challenge): Store {
    s.(objs := s.objs + [record], records := s.records[record.challengeId := |s.objs|])
  }

  // ------------------------------------------------------------------ the simulation

  /** What redemption leaves behind: a cache window exactly with an event, and never on an issued record. */
  predicate Tidy(x: Challenge) {
    && (x.resultCacheUntil.Some? <==> x.redeemedEventId.Some?)
    && (x.redeemedSessionId.Some? <==> x.redeemedEventId.Some?)
    && (x.resultCacheUntil.Some? ==> x.resultCacheUntil.value > 0 && x.state != State.Issued)
    && (x.state == Redeemed ==> x.redeemedEventId.Some?)
  }

  ghost predicate Keyed(s: Store) {
    && Closed(s)
    && (forall k <- s.records :: s.objs[s.records[k]].challengeId == k && Tidy(s.objs[s.records[k]]))
  }

  /** Nothing can still ask about a record. */
  predicate Gone(x: Challenge, now: int) {
    RetainUntil(x) < now
  }

  /** The sweeping store holds the other's records, except ones nothing can still ask about. */
  ghost predicate Sim(a: Store, b: Store, now: int) {
    && Keyed(a) && Keyed(b)
    && (forall k <- a.records :: k in b.records && b.objs[b.records[k]] == a.objs[a.records[k]])
    && (forall k <- b.records :: k in a.records || Gone(b.objs[b.records[k]], now))
  }

  lemma SimLater(a: Store, b: Store, now: int, later: int)
    requires Sim(a, b, now) && now <= later
    ensures Sim(a, b, later) && Sim(Sweep(a, later), b, later)
  {
  }

  lemma IssueAgrees(a: Store, b: Store, record: Challenge, now: int)
    requires Sim(a, b, now) && record.challengeId !in b.records && Tidy(record)
    ensures Sim(Create(a, now, record), Insert(b, record), now)
  {
    SimLater(a, b, now, now);
    var swept := Sweep(a, now);
    var a', b' := Create(a, now, record), Insert(b, record);
    forall k <- a'.records ensures k in b'.records && b'.objs[b'.records[k]] == a'.objs[a'.records[k]] {
      if k != record.challengeId {
        assert k in swept.records;
      }
    }
  }

  lemma CountAgrees(a: Store, b: Store, f: Filter)
    requires Sim(a, b, f.now)
    ensures Outstanding(a, f) == Outstanding(b, f)
  {
  }

  /** One record's change, on both sides. */
  lemma UpdateAgrees(a: Store, b: Store, now: int, k: string, y: Challenge)
    requires Sim(a, b, now) && k in a.records && y.challengeId == k && Tidy(y)
    ensures Closed(Update(a, k, y)) && Closed(Update(b, k, y)) && Sim(Update(a, k, y), Update(b, k, y), now)
  {
    forall j <- b.records | j != k ensures b.records[j] != b.records[k] {
      assert b.objs[b.records[j]].challengeId == j;
    }
    forall j <- a.records | j != k ensures a.records[j] != a.records[k] {
      assert a.objs[a.records[j]].challengeId == j;
    }
  }

  lemma SameUpdates(cfg: Config, s: Store, k: string, p: Redemption)
    requires Keyed(s) && k in s.records
    ensures Challenges.Redeem(s, k, p) == (Update(s, k, RedeemRecord(s.objs[s.records[k]], p)), RedeemStatusOf(s.objs[s.records[k]], p))
    ensures CountFailure(cfg, s, k) == Update(s, k, Failed(cfg, s.objs[s.records[k]]))
  {
    assert Update(s, k, s.objs[s.records[k]]) == s;
  }

  /** What `recordChallengeFailure` does to the record. */
  function Failed(cfg: Config, x: Challenge): Challenge {
    if cfg.maxFailures > 0 && x.state == State.Issued then FailRecord(x, cfg.maxFailures) else x
  }

  lemma ExpireEntries(s: Store, now: int, k: string)
    requires Keyed(s) && k in s.records
    ensures MarkExpired(s, now).objs[s.records[k]] ==
            if Lapsed(s.objs[s.records[k]], now) then s.objs[s.records[k]].(state := State.Expired) else s.objs[s.records[k]]
  {
    assert s.records[k] in LapsedRefs(s, s.records.Keys, now) <==> Lapsed(s.objs[s.records[k]], now);
  }

  lemma ExpireAgrees(a: Store, b: Store, now: int)
    requires Sim(a, b, now)
    ensures Sim(MarkExpired(a, now), MarkExpired(b, now), now)
  {
    var a', b' := MarkExpired(a, now), MarkExpired(b, now);
    forall k <- a.records ensures a'.objs[a'.records[k]].challengeId == k && Tidy(a'.objs[a'.records[k]]) && b'.objs[b'.records[k]] == a'.objs[a'.records[k]] {
      ExpireEntries(a, now, k);
      ExpireEntries(b, now, k);
    }
    forall k <- b.records ensures b'.objs[b'.records[k]].challengeId == k && Tidy(b'.objs[b'.records[k]]) && (k in a.records || Gone(b'.objs[b'.records[k]], now)) {
      ExpireEntries(b, now, k);
    }
  }
}
