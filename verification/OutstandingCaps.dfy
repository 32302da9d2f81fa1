/** How many outstanding challenges one caller can hold, with inits racing between count and create. */
module OutstandingCaps {
  import opened Options
  import Challenges
  import opened Server
  import opened ServerInvariants
  import opened ServerRuns

  /** A cap: on an npub from one address, on an npub whose callers have no address, or on an address. */
  datatype Cap = PerNpub(npub: string, ip: string) | PerNpubAlone(npub: string) | PerIp(ip: string)

  function Limit(cfg: Config, cap: Cap): int {
    if cap.PerIp? then cfg.perIp else cfg.perNpub
  }

  /** What the init that a cap applies to counts. */
  function FilterOf(cap: Cap, now: int): Challenges.Filter {
    match cap
    case PerNpub(npub, ip) => Challenges.Filter(Some(npub), Some(ip), now)
    case PerNpubAlone(npub) => Challenges.Filter(Some(npub), None, now)
    case PerIp(ip) => Challenges.Filter(None, Some(ip), now)
  }

  /** A challenge the cap is about; one from callers without an address has none itself. */
  predicate Charges(x: Challenges.Challenge, cap: Cap, now: int) {
    Challenges.Counts(x, FilterOf(cap, now)) && (cap.PerNpubAlone? ==> x.clientIp.None?)
  }

  /** An init call that has counted and not yet created, and whose challenge the cap will be charged with. */
  predicate Pends(call: Call, cap: Cap) {
    && call.Counted?
    && match cap
       case PerNpub(npub, ip) => call.npub == npub && call.ip == Some(ip) && ip != ""
       case PerNpubAlone(npub) => call.npub == npub && !Truthy(call.ip)
       case PerIp(ip) => call.ip == Some(ip) && ip != ""
  }

  ghost function Pending(s: Sys, cap: Cap): set<nat> {
    set c | c in s.calls && Pends(s.calls[c], cap)
  }

  ghost function Charged(st: Challenges.Store, cap: Cap, now: int): set<string>
    requires Challenges.Closed(st)
  {
    set k | k in st.records && Charges(st.objs[st.records[k]], cap, now)
  }

  ghost function Held(s: Sys, cap: Cap, now: int): set<string>
    requires Challenges.Closed(s.challenges)
  {
    Charged(s.challenges, cap, now)
  }

  /** Live challenges and the ones about to be created exceed the limit by less than `k` together. */
  ghost predicate Capped(cfg: Config, s: Sys, cap: Cap, k: nat)
    requires Challenges.Closed(s.challenges)
  {
    |Held(s, cap, s.clock)| + |Pending(s, cap)| < Limit(cfg, cap) + k
  }

  lemma SubsetIsSmaller<T>(a: set<T>, b: set<T>)
    requires a <= b
    ensures |a| <= |b|
  {
    assert b == a + (b - a);
  }

  lemma HeldShrinksWithTime(s: Sys, cap: Cap, now: int, later: int)
    requires Challenges.Closed(s.challenges) && now <= later
    ensures |Held(s, cap, later)| <= |Held(s, cap, now)|
  {
    SubsetIsSmaller(Held(s, cap, later), Held(s, cap, now));
  }

  /** No operation but `create` adds an outstanding challenge. */
  lemma OperationsOnlyFree(cfg: Config, st: Challenges.Store, op: ChallengeOp, used: set<string>, used': set<string>, cap: Cap, now: int)
    requires ChallengeInv(cfg, st, used) && OpFreshC(cfg, op, used, used') && !op.DoIssue?
    ensures Challenges.Closed(ApplyC(st, op))
    ensures Charged(ApplyC(st, op), cap, now) <= Charged(st, cap, now)
  {
    ApplyCAges(cfg, st, op, used, used');
    ApplyCKeepsInv(cfg, st, op, used, used');
    var after := ApplyC(st, op);
    assert after.records == st.records;
    forall k <- Charged(after, cap, now) ensures k in Charged(st, cap, now) {
      AgedIsChargedLess(st.objs[st.records[k]], after.objs[st.records[k]], cap, now);
    }
  }

  lemma AgedIsChargedLess(x: Challenges.Challenge, y: Challenges.Challenge, cap: Cap, now: int)
    requires AgesC(x, y) && Charges(y, cap, now)
    ensures Charges(x, cap, now)
  {
  }

  lemma CreateAddsOne(st: Challenges.Store, now: int, record: Challenges.Challenge, cap: Cap, at: int)
    requires Challenges.Closed(st)
    ensures var after := Challenges.Create(st, now, record);
            && Challenges.Closed(after)
            && Charged(after, cap, at) <= Charged(st, cap, at) + if Charges(record, cap, at) then {record.challengeId} else {}
  {
  }

  lemma OtherStoreChange(cfg: Config, s: Sys, l: Label, cap: Cap, now: int)
    requires Inv(cfg, s) && Enabled(cfg, s, l) && !l.CreateChallenge?
    ensures Challenges.Closed(Next(cfg, s, l).challenges)
    ensures Held(Next(cfg, s, l), cap, now) <= Held(s, cap, now)
  {
    OpsAreFresh(cfg, s, l);
    ChallengeEffect(cfg, s, l);
    OperationsOnlyFree(cfg, s.challenges, ChallengeOpOf(cfg, s, l), s.used, Next(cfg, s, l).used, cap, now);
  }

  lemma CreateStoreChange(cfg: Config, s: Sys, l: Label, cap: Cap, now: int)
    requires WellFormed(s) && Enabled(cfg, s, l) && l.CreateChallenge?
    ensures Challenges.Closed(Next(cfg, s, l).challenges)
    ensures Held(Next(cfg, s, l), cap, now) <= Held(s, cap, now) + if Pends(s.calls[l.c], cap) then {l.challengeId} else {}
  {
    var record := NewChallenge(cfg, s.calls[l.c], l.challengeId, l.challenge);
    CreateAddsOne(s.challenges, s.clock, record, cap, now);
    assert Charges(record, cap, now) ==> Pends(s.calls[l.c], cap);
  }

  lemma StoreChange(cfg: Config, s: Sys, l: Label, cap: Cap, now: int)
    requires Inv(cfg, s) && Enabled(cfg, s, l)
    ensures Challenges.Closed(Next(cfg, s, l).challenges)
    ensures !l.CreateChallenge? ==> |Held(Next(cfg, s, l), cap, now)| <= |Held(s, cap, now)|
    ensures l.CreateChallenge? ==>
              |Held(Next(cfg, s, l), cap, now)| <= |Held(s, cap, now)| + if Pends(s.calls[l.c], cap) then 1 else 0
  {
    if l.CreateChallenge? {
      CreateStoreChange(cfg, s, l, cap, now);
      var more := if Pends(s.calls[l.c], cap) then {l.challengeId} else {};
      SubsetIsSmaller(Held(Next(cfg, s, l), cap, now), Held(s, cap, now) + more);
    } else {
      OtherStoreChange(cfg, s, l, cap, now);
      SubsetIsSmaller(Held(Next(cfg, s, l), cap, now), Held(s, cap, now));
    }
  }

  lemma PendingChange(cfg: Config, s: Sys, l: Label, cap: Cap)
    requires WellFormed(s) && Enabled(cfg, s, l)
    ensures !l.BeginInit? ==> Pending(Next(cfg, s, l), cap) <= Pending(s, cap)
    ensures l.CreateChallenge? ==> Pending(Next(cfg, s, l), cap) == Pending(s, cap) - {l.c}
    ensures l.BeginInit? ==>
              Pending(Next(cfg, s, l), cap) == Pending(s, cap) +
                if Pends(Next(cfg, s, l).calls[l.c], cap) then {l.c} else {}
  {
    var t := Next(cfg, s, l);
    OneCallMoves(cfg, s, l);
    if CallOf(l).Some? && !l.BeginInit? {
      assert !t.calls[CallOf(l).value].Counted?;
    }
  }

  /** An init that goes on to create found the cap not yet reached. */
  lemma CountedBelowCap(cfg: Config, s: Sys, l: Label, cap: Cap)
    requires WellFormed(s) && Enabled(cfg, s, l) && l.BeginInit? && Limit(cfg, cap) > 0
    requires Pends(Next(cfg, s, l).calls[l.c], cap)
    ensures |Held(s, cap, s.clock)| < Limit(cfg, cap)
  {
    SubsetIsSmaller(Held(s, cap, s.clock), Challenges.Outstanding(s.challenges, FilterOf(cap, s.clock)));
  }

  lemma NextKeepsCapped(cfg: Config, s: Sys, l: Label, cap: Cap, k: nat)
    requires Inv(cfg, s) && Enabled(cfg, s, l) && Capped(cfg, s, cap, k) && Limit(cfg, cap) > 0
    requires |Pending(Next(cfg, s, l), cap)| <= k
    ensures Challenges.Closed(Next(cfg, s, l).challenges) && Capped(cfg, Next(cfg, s, l), cap, k)
  {
    var t := Next(cfg, s, l);
    NextKeepsInv(cfg, s, l);
    StoreChange(cfg, s, l, cap, s.clock);
    PendingChange(cfg, s, l, cap);
    HeldShrinksWithTime(t, cap, s.clock, t.clock);
    if l.BeginInit? {
      if Pends(t.calls[l.c], cap) {
        CountedBelowCap(cfg, s, l, cap);
      }
    } else if l.CreateChallenge? {
      assert Pends(s.calls[l.c], cap) ==> l.c in Pending(s, cap);
    } else {
      SubsetIsSmaller(Pending(t, cap), Pending(s, cap));
    }
  }

  /** At most `k` inits that this cap counts are between their count and their create, all along. */
  ghost predicate Races(cfg: Config, s: Sys, ls: seq<Label>, cap: Cap, k: nat)
    requires Runs(cfg, s, ls)
    decreases |ls|
  {
    |Pending(s, cap)| <= k && (ls == [] || Races(cfg, Next(cfg, s, ls[0]), ls[1..], cap, k))
  }

  lemma {:induction false} RunKeepsCapped(cfg: Config, s: Sys, ls: seq<Label>, cap: Cap, k: nat)
    requires Inv(cfg, s) && Runs(cfg, s, ls) && Races(cfg, s, ls, cap, k)
    requires Capped(cfg, s, cap, k) && Limit(cfg, cap) > 0
    ensures Challenges.Closed(After(cfg, s, ls).challenges) && Capped(cfg, After(cfg, s, ls), cap, k)
    decreases |ls|
  {
    if ls != [] {
      NextKeepsInv(cfg, s, ls[0]);
      NextKeepsCapped(cfg, s, ls[0], cap, k);
      RunKeepsCapped(cfg, Next(cfg, s, ls[0]), ls[1..], cap, k);
    }
  }

  /** With at most `k` racing inits the live challenges overshoot a cap by at most `k - 1`; with inits
      run one at a time (`k` is 1) they never exceed it. Any other calls may interleave. */
  lemma OvershootIsBelowRaces(cfg: Config, s0: Sys, ls: seq<Label>, cap: Cap, k: nat)
    requires Initial(s0) && Runs(cfg, s0, ls) && k >= 1 && Races(cfg, s0, ls, cap, k) && Limit(cfg, cap) > 0
    ensures Challenges.Closed(After(cfg, s0, ls).challenges)
    ensures |Held(After(cfg, s0, ls), cap, After(cfg, s0, ls).clock)| <= Limit(cfg, cap) + (k - 1)
  {
    assert Reaches(cfg, s0, [], s0);
    ReachableInv(cfg, s0);
    assert Held(s0, cap, s0.clock) == {} && Pending(s0, cap) == {};
    RunKeepsCapped(cfg, s0, ls, cap, k);
  }
}
