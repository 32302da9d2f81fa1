/** Which logins may begin, counted over the records themselves, and what a login that begins is recorded as. */
module Inits {
  import opened Options
  import Challenges
  import opened Server

  /** A caller whose address is not known gives none, or an empty one. */
  predicate Unknown(ip: Option<string>) {
    ip == None || ip == Some("")
  }

  /** A challenge of this record can still be answered. */
  predicate Live(x: Challenges.Challenge, now: int) {
    x.state == Challenges.Issued && now <= x.expiresAt
  }

  /** The live challenges of an npub: those asked for from the caller's own address, if it is known. */
  ghost function OfNpub(st: Challenges.Store, npub: string, ip: Option<string>, now: int): set<string>
    requires Challenges.Closed(st)
  {
    set k | k in st.records && Live(st.objs[st.records[k]], now) && st.objs[st.records[k]].npub == npub
            && (Unknown(ip) || st.objs[st.records[k]].clientIp == ip)
  }

  /** The live challenges asked for from an address, with the npub each is for. */
  ghost function FromAddress(st: Challenges.Store, ip: Option<string>, now: int): map<string, string>
    requires Challenges.Closed(st)
  {
    map k | k in st.records && Live(st.objs[st.records[k]], now) && st.objs[st.records[k]].clientIp == ip :: st.objs[st.records[k]].npub
  }

  ghost predicate LetThrough(cfg: Config, st: Challenges.Store, npub: string, ip: Option<string>, now: int)
    requires Challenges.Closed(st)
  {
    && (cfg.perNpub <= 0 || |OfNpub(st, npub, ip, now)| < cfg.perNpub)
    && (Unknown(ip) || cfg.perIp <= 0 || |FromAddress(st, ip, now)| < cfg.perIp)
  }

  lemma CountsAreSpelled(st: Challenges.Store, npub: string, ip: Option<string>, now: int)
    requires Challenges.Closed(st)
    ensures Challenges.Outstanding(st, NpubFilter(npub, ip, now)) == OfNpub(st, npub, ip, now)
    ensures !Unknown(ip) ==> Challenges.Outstanding(st, IpFilter(ip, now)) == FromAddress(st, ip, now).Keys
  {
  }

  /**
   * A login may begin exactly while fewer live challenges than each cap allows are there: of the npub from
   * the caller's own address, and of that address. A cap of zero is none, and nothing else changes.
   */
  lemma InitIsLetThrough(cfg: Config, s: Sys, l: Label)
    requires WellFormed(s) && Enabled(cfg, s, l) && l.BeginInit?
    ensures Next(cfg, s, l) == s.(calls := s.calls[l.c :=
              if LetThrough(cfg, s.challenges, l.npub, l.ip, s.clock)
              then Counted(l.npub, l.pubkey, l.authUrl, l.ip, s.clock) else Issued(None)])
  {
    CountsAreSpelled(s.challenges, l.npub, l.ip, s.clock);
    if !Unknown(l.ip) {
      assert |FromAddress(s.challenges, l.ip, s.clock).Keys| == |FromAddress(s.challenges, l.ip, s.clock)|;
    }
    assert Next(cfg, s, l) == BeginInitStep(cfg, s, l);
  }

  lemma OfNpubFromAddress(st: Challenges.Store, npub: string, ip: Option<string>, now: int)
    requires Challenges.Closed(st) && !Unknown(ip)
    ensures var own := FromAddress(st, ip, now); OfNpub(st, npub, ip, now) == set k | k in own && own[k] == npub
  {
  }

  /**
   * What others ask for from other addresses never keeps a caller out: two stores with the same live
   * challenges from the caller's address, whatever else is in them, let the same logins begin.
   */
  lemma OtherAddressesDoNotCount(cfg: Config, st: Challenges.Store, other: Challenges.Store, npub: string, ip: Option<string>, now: int)
    requires Challenges.Closed(st) && Challenges.Closed(other) && !Unknown(ip)
    requires FromAddress(st, ip, now) == FromAddress(other, ip, now)
    ensures LetThrough(cfg, st, npub, ip, now) <==> LetThrough(cfg, other, npub, ip, now)
  {
    OfNpubFromAddress(st, npub, ip, now);
    OfNpubFromAddress(other, npub, ip, now);
  }

  /**
   * What a login that begins is recorded as: the names it was asked with, the random challenge, issued
   * when it was counted and open for the configured time, with no failure and no answer yet.
   */
  lemma ChallengeIsRecorded(cfg: Config, s: Sys, l: Label)
    requires WellFormed(s) && Enabled(cfg, s, l) && l.CreateChallenge?
    ensures var t, call := Next(cfg, s, l), s.calls[l.c];
            && t.calls == s.calls[l.c := Issued(Some(l.challengeId))] && t.sessions == s.sessions && t.clock == s.clock
            && t.used == s.used + {l.challengeId, l.challenge}
            && l.challengeId in t.challenges.records && t.challenges.records[l.challengeId] < |t.challenges.objs|
            && var x := t.challenges.objs[t.challenges.records[l.challengeId]];
            && x.challengeId == l.challengeId && x.challenge == l.challenge
            && x.npub == call.npub && x.pubkey == call.pubkey && x.authUrl == call.authUrl
            && x.issuedAt == call.now && x.expiresAt == call.now + cfg.challengeTtl
            && x.state == Challenges.Issued && x.failureCount == 0
            && x.redeemedEventId == None && x.redeemedSessionId == None && x.resultCacheUntil == None
            && x.clientIp == if Unknown(call.ip) then None else call.ip
  {
    assert Next(cfg, s, l) == CreateChallengeStep(cfg, s, l);
  }
}
