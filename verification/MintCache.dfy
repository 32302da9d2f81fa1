/** The mint client's keyset cache: one entry per origin, refetched at most once before it expires. */
module MintCache {
  import opened Options

  type Keyset = map<string, string>
  type Keysets = map<string, Keyset>

  datatype Entry = Entry(keysets: Keysets, expiresAt: int, refreshed: bool)

  /** One request to a mint: when its answer was dated, whether a miss caused it, and the answer. */
  datatype Fetch = Fetch(origin: string, at: int, refetch: bool, reply: Option<Keysets>)

  /** The cache, and every fetch so far. */
  datatype State = State(cache: map<string, Entry>, log: seq<Fetch>)

  /** The clock readings around a load and what the mint would answer; `None` is an error. */
  datatype Visit = Visit(checked: int, reply: Option<Keysets>, fetched: int)

  datatype Answer = Key(key: string) | Unavailable | Unknown

  // ---------------------------------------------------------------- what one call does

  function Load(ttl: int, s: State, origin: string, refreshed: bool, v: Visit): (State, Option<Keysets>) {
    if origin in s.cache && s.cache[origin].expiresAt > v.checked then (s, Some(s.cache[origin].keysets))
    else
      var asked := s.(log := s.log + [Fetch(origin, v.fetched, refreshed, v.reply)]);
      if v.reply.None? then (asked, None)
      else (asked.(cache := s.cache[origin := Entry(v.reply.value, v.fetched + ttl, refreshed)]), v.reply)
  }

  /** A miss on an entry that no miss has refreshed yet. */
  predicate Refetches(s: State, origin: string, keysets: Keysets, keysetId: string) {
    keysetId !in keysets && origin in s.cache && !s.cache[origin].refreshed
  }

  function Look(keysets: Keysets, keysetId: string, amount: string): Answer {
    if keysetId !in keysets || amount !in keysets[keysetId] || keysets[keysetId][amount] == "" then Unknown
    else Key(keysets[keysetId][amount])
  }

  function GetKey(ttl: int, s: State, origin: string, keysetId: string, amount: string, v: Visit, w: Visit): (State, Answer) {
    var (s1, first) := Load(ttl, s, origin, false, v);
    if first.None? then (s1, Unavailable)
    else if !Refetches(s1, origin, first.value, keysetId) then (s1, Look(first.value, keysetId, amount))
    else
      var (s2, second) := Load(ttl, s1.(cache := s1.cache - {origin}), origin, true, w);
      if second.None? then (s2, Unavailable) else (s2, Look(second.value, keysetId, amount))
  }

  // ------------------------------------------------------------------------ the object

  class MintClient {
    const ttl: int
    var cache: map<string, Entry>
    ghost var log: seq<Fetch>

    ghost function View(): State
      reads this
    {
      State(cache, log)
    }

    constructor (ttl: int)
      ensures this.ttl == ttl && View() == State(map[], [])
    {
      this.ttl := ttl;
      cache, log := map[], [];
    }

    method LoadKeysets(origin: string, refreshed: bool, v: Visit) returns (keysets: Option<Keysets>)
      modifies this
      ensures (View(), keysets) == Load(ttl, old(View()), origin, refreshed, v)
    {
      if origin in cache && cache[origin].expiresAt > v.checked {
        return Some(cache[origin].keysets);
      }
      log := log + [Fetch(origin, v.fetched, refreshed, v.reply)];
      if v.reply.Some? {
        cache := cache[origin := Entry(v.reply.value, v.fetched + ttl, refreshed)];
      }
      keysets := v.reply;
    }

    method Get(origin: string, keysetId: string, amount: string, v: Visit, w: Visit) returns (answer: Answer)
      modifies this
      ensures (View(), answer) == GetKey(ttl, old(View()), origin, keysetId, amount, v, w)
    {
      var keysets := LoadKeysets(origin, false, v);
      if keysets.None? {
        return Unavailable;
      }
      if keysetId !in keysets.value && origin in cache && !cache[origin].refreshed {
        cache := cache - {origin};
        keysets := LoadKeysets(origin, true, w);
        if keysets.None? {
          return Unavailable;
        }
      }
      answer := Look(keysets.value, keysetId, amount);
    }
  }

  // ------------------------------------------------------------------ which key is given

  /** The keysets have this key, and it is not empty. */
  predicate Has(keysets: Keysets, keysetId: string, amount: string, key: string) {
    keysetId in keysets && amount in keysets[keysetId] && keysets[keysetId][amount] == key != ""
  }

  /** The entry answers without a fetch. */
  predicate Fresh(s: State, origin: string, now: int) {
    origin in s.cache && now < s.cache[origin].expiresAt
  }

  /** The keysets do not have the keyset at all, and no miss has caused their fetch. */
  predicate MissesAnew(e: Entry, keysetId: string) {
    keysetId !in e.keysets && !e.refreshed
  }

  /** An answer read off these keysets: the key, or unknown. */
  ghost predicate ReadOff(answer: Answer, keysets: Keysets, keysetId: string, amount: string) {
    && (forall key :: answer == Key(key) <==> Has(keysets, keysetId, amount, key))
    && (answer == Unknown <==> forall key :: !Has(keysets, keysetId, amount, key))
    && answer != Unavailable
  }

  lemma LookReads(keysets: Keysets, keysetId: string, amount: string)
    ensures ReadOff(Look(keysets, keysetId, amount), keysets, keysetId, amount)
  {
    if keysetId in keysets && amount in keysets[keysetId] && keysets[keysetId][amount] != "" {
      assert Has(keysets, keysetId, amount, keysets[keysetId][amount]);
    }
  }

  /** Asks the mint once more, for a miss, and reads its answer off; a mint that does not answer loses its entry. */
  ghost predicate AsksAgain(ttl: int, s: State, t: State, answer: Answer, origin: string, keysetId: string, amount: string, w: Visit) {
    && t.log == s.log + [Fetch(origin, w.fetched, true, w.reply)]
    && (w.reply.None? ==> answer == Unavailable && t.cache == s.cache - {origin})
    && (w.reply.Some? ==> ReadOff(answer, w.reply.value, keysetId, amount)
                          && t.cache == s.cache[origin := Entry(w.reply.value, w.fetched + ttl, true)])
  }

  /**
   * What a call answers, fetches and caches: a fresh entry answers unless the keyset is missing from it and
   * no miss has refreshed it; without one the mint is asked, and once more if its answer misses the keyset.
   */
  lemma GetIsDecided(ttl: int, s: State, origin: string, keysetId: string, amount: string, v: Visit, w: Visit)
    ensures var (t, answer) := GetKey(ttl, s, origin, keysetId, amount, v, w);
            var asked := State(s.cache, s.log + [Fetch(origin, v.fetched, false, v.reply)]);
            if Fresh(s, origin, v.checked) then
              var e := s.cache[origin];
              if MissesAnew(e, keysetId) then AsksAgain(ttl, s, t, answer, origin, keysetId, amount, w)
              else t == s && ReadOff(answer, e.keysets, keysetId, amount)
            else if v.reply.None? then t == asked && answer == Unavailable
            else
              var e := Entry(v.reply.value, v.fetched + ttl, false);
              var stored := asked.(cache := s.cache[origin := e]);
              if MissesAnew(e, keysetId) then AsksAgain(ttl, stored, t, answer, origin, keysetId, amount, w)
              else t == stored && ReadOff(answer, e.keysets, keysetId, amount)
  {
    var (s1, first) := Load(ttl, s, origin, false, v);
    if first.Some? {
      LookReads(first.value, keysetId, amount);
      var removed := s1.(cache := s1.cache - {origin});
      if w.reply.Some? {
        LookReads(w.reply.value, keysetId, amount);
        assert removed.cache[origin := Entry(w.reply.value, w.fetched + ttl, true)] == s1.cache[origin := Entry(w.reply.value, w.fetched + ttl, true)];
      }
    }
  }

  // ------------------------------------------------------------- reading a mint's keys

  /** One element of the `keysets` array; a part of the wrong type is `None`. */
  datatype RawEntry = RawEntry(id: Option<string>, keys: Option<seq<(string, Option<string>)>>)

  /** The keys that are strings, the last of several for one amount counting. */
  function UsableKeys(lower: string -> string, keys: seq<(string, Option<string>)>): Keyset {
    if keys == [] then map[]
    else
      var (amount, key) := keys[|keys| - 1];
      var before := UsableKeys(lower, keys[..|keys| - 1]);
      if key.Some? then before[amount := lower(key.value)] else before
  }

  /** Entry `i` is the last for this amount that is a text. */
  predicate LastText(keys: seq<(string, Option<string>)>, amount: string, i: nat) {
    && i < |keys| && keys[i].0 == amount && keys[i].1.Some?
    && forall j | i < j < |keys| && keys[j].0 == amount :: keys[j].1.None?
  }

  /** A key is usable exactly when some entry for its amount is a text; the last of them counts, in lower case. */
  lemma {:induction false} UsableKeysAreLast(lower: string -> string, keys: seq<(string, Option<string>)>, amount: string)
    ensures amount in UsableKeys(lower, keys) <==> exists i: nat :: LastText(keys, amount, i)
    ensures forall i: nat | LastText(keys, amount, i) :: amount in UsableKeys(lower, keys) && UsableKeys(lower, keys)[amount] == lower(keys[i].1.value)
  {
    if keys != [] {
      var front, n := keys[..|keys| - 1], |keys| - 1;
      UsableKeysAreLast(lower, front, amount);
      if keys[n].0 == amount && keys[n].1.Some? {
        assert LastText(keys, amount, n);
      } else {
        forall i: nat ensures LastText(keys, amount, i) <==> LastText(front, amount, i) {
        }
      }
    }
  }

  predicate Usable(lower: string -> string, e: RawEntry) {
    e.id.Some? && e.keys.Some? && UsableKeys(lower, e.keys.value) != map[]
  }

  /** An entry is usable exactly with an id and at least one key that is a text. */
  lemma UsableIsSpelled(lower: string -> string, e: RawEntry)
    ensures Usable(lower, e) <==> e.id.Some? && e.keys.Some? && exists i :: 0 <= i < |e.keys.value| && e.keys.value[i].1.Some?
  {
    if e.keys.Some? {
      SomeKeyIsText(lower, e.keys.value);
    }
  }

  lemma {:induction false} SomeKeyIsText(lower: string -> string, keys: seq<(string, Option<string>)>)
    ensures UsableKeys(lower, keys) != map[] <==> exists i :: 0 <= i < |keys| && keys[i].1.Some?
  {
    if keys != [] {
      var front, last := keys[..|keys| - 1], keys[|keys| - 1];
      SomeKeyIsText(lower, front);
      if last.1.Some? {
        assert last.0 in UsableKeys(lower, keys);
        assert keys[|keys| - 1].1.Some?;
      } else if i :| 0 <= i < |front| && front[i].1.Some? {
        assert keys[i].1.Some?;
      }
    }
  }

  /** `i` is the last of the first `n` entries that is usable and has this id. */
  predicate LastWithId(lower: string -> string, entries: seq<RawEntry>, n: nat, id: string, i: nat)
    requires n <= |entries|
  {
    && i < n && Usable(lower, entries[i]) && entries[i].id == Some(id)
    && forall j | i < j < n && Usable(lower, entries[j]) :: entries[j].id != Some(id)
  }

  /** The first `n` entries publish `out`: each keyset as the last usable entry with its id has it. */
  ghost predicate Publishes(lower: string -> string, entries: seq<RawEntry>, n: nat, out: Keysets)
    requires n <= |entries|
  {
    && (forall i | 0 <= i < n && Usable(lower, entries[i]) :: entries[i].id.value in out)
    && (forall id <- out :: exists i: nat :: LastWithId(lower, entries, n, id, i) && out[id] == UsableKeys(lower, entries[i].keys.value))
  }

  lemma LastStaysLast(lower: string -> string, entries: seq<RawEntry>, n: nat, id: string, i: nat)
    requires n < |entries| && LastWithId(lower, entries, n, id, i) && !(Usable(lower, entries[n]) && entries[n].id == Some(id))
    ensures LastWithId(lower, entries, n + 1, id, i)
  {
  }

  lemma PublishesOneMore(lower: string -> string, entries: seq<RawEntry>, n: nat, out: Keysets)
    requires n < |entries| && Publishes(lower, entries, n, out)
    ensures var e := entries[n];
            Publishes(lower, entries, n + 1, if Usable(lower, e) then out[e.id.value := UsableKeys(lower, e.keys.value)] else out)
  {
    var e := entries[n];
    var next := if Usable(lower, e) then out[e.id.value := UsableKeys(lower, e.keys.value)] else out;
    forall id <- next ensures exists i: nat :: LastWithId(lower, entries, n + 1, id, i) && next[id] == UsableKeys(lower, entries[i].keys.value) {
      if Usable(lower, e) && id == e.id.value {
        assert LastWithId(lower, entries, n + 1, id, n);
      } else {
        var i: nat :| LastWithId(lower, entries, n, id, i) && out[id] == UsableKeys(lower, entries[i].keys.value);
        LastStaysLast(lower, entries, n, id, i);
      }
    }
  }

  /** `parseKeysets`; having no usable keyset at all is an error. */
  method ParseKeysets(lower: string -> string, entries: seq<RawEntry>) returns (r: Option<Keysets>)
    ensures r.Some? <==> exists i | 0 <= i < |entries| :: Usable(lower, entries[i])
    ensures r.Some? ==> Publishes(lower, entries, |entries|, r.value)
  {
    var out: Keysets := map[];
    for n := 0 to |entries|
      invariant Publishes(lower, entries, n, out)
    {
      PublishesOneMore(lower, entries, n, out);
      var entry := entries[n];
      if entry.id.None? || entry.keys.None? {
        continue;
      }
      var keys := UsableKeys(lower, entry.keys.value);
      if keys != map[] {
        out := out[entry.id.value := keys];
      }
    }
    if out == map[] {
      return None;
    }
    ghost var id :| id in out;
    assert exists i: nat :: LastWithId(lower, entries, |entries|, id, i);
    r := Some(out);
  }

  // ----------------------------------------------------------------------------- runs

  /** One `getKey` call and the clock readings it sees. */
  datatype Call = Call(origin: string, keysetId: string, amount: string, v: Visit, w: Visit)

  /** Calls come one after the other on a clock that does not go back. */
  predicate Timely(from: int, c: Call) {
    from <= c.v.checked <= c.v.fetched <= c.w.checked <= c.w.fetched
  }

  function Step(ttl: int, s: State, c: Call): State {
    GetKey(ttl, s, c.origin, c.keysetId, c.amount, c.v, c.w).0
  }

  ghost predicate Runs(from: int, calls: seq<Call>)
    decreases |calls|
  {
    calls == [] || (Timely(from, calls[0]) && Runs(calls[0].w.fetched, calls[1..]))
  }

  ghost function After(ttl: int, s: State, calls: seq<Call>): State
    decreases |calls|
  {
    if calls == [] then s else After(ttl, Step(ttl, s, calls[0]), calls[1..])
  }

  /** A plain fetch that failed: it leaves the cache as it was. */
  predicate Fizzled(f: Fetch) {
    !f.refetch && f.reply.None?
  }

  /** The fetches from one origin, in order, but for plain ones that failed. */
  function Traffic(log: seq<Fetch>, origin: string): seq<Fetch> {
    if log == [] then []
    else
      var last := log[|log| - 1];
      Traffic(log[..|log| - 1], origin) + if last.origin == origin && !Fizzled(last) then [last] else []
  }

  predicate Within(f: Fetch, a: int, b: int) {
    a <= f.at <= b
  }

  /** The successful fetches from one origin dated from `a` to `b`. */
  function Successes(log: seq<Fetch>, origin: string, a: int, b: int): nat {
    if log == [] then 0
    else
      var last := log[|log| - 1];
      Successes(log[..|log| - 1], origin, a, b) + if last.origin == origin && last.reply.Some? && Within(last, a, b) then 1 else 0
  }

  /** The refetches from one origin that failed, dated from `a` to `b`. */
  function FailedRefetches(log: seq<Fetch>, origin: string, a: int, b: int): nat {
    if log == [] then 0
    else
      var last := log[|log| - 1];
      FailedRefetches(log[..|log| - 1], origin, a, b)
      + if last.origin == origin && last.refetch && last.reply.None? && Within(last, a, b) then 1 else 0
  }

  /** What a failed refetch took out of the cache, or nothing, or an entry that has expired by `at`. */
  predicate Vacant(ttl: int, before: Fetch, at: int) {
    before.reply.None? || before.at + ttl <= at
  }

  /** A refetch follows a successful plain fetch; a plain one finds no entry, or an expired one. */
  ghost predicate Spaced(ttl: int, fetches: seq<Fetch>) {
    && (fetches != [] ==> !fetches[0].refetch)
    && forall i | 0 < i < |fetches| ::
         && fetches[i - 1].at <= fetches[i].at
         && (if fetches[i].refetch then !fetches[i - 1].refetch else Vacant(ttl, fetches[i - 1], fetches[i].at))
  }

  /** The cache entry the last fetch that mattered left behind. */
  function EntryLeft(ttl: int, fetches: seq<Fetch>): Option<Entry> {
    if fetches == [] then None
    else
      var last := fetches[|fetches| - 1];
      if last.reply.None? then None else Some(Entry(last.reply.value, last.at + ttl, last.refetch))
  }

  function CacheEntry(cache: map<string, Entry>, origin: string): Option<Entry> {
    if origin in cache then Some(cache[origin]) else None
  }

  ghost predicate NoneFizzled(fetches: seq<Fetch>) {
    forall i | 0 <= i < |fetches| :: !Fizzled(fetches[i])
  }

  /** These fetches are spaced and have left this entry. */
  ghost predicate Fits(ttl: int, fetches: seq<Fetch>, entry: Option<Entry>, now: int) {
    && Spaced(ttl, fetches) && NoneFizzled(fetches) && entry == EntryLeft(ttl, fetches)
    && (fetches != [] ==> fetches[|fetches| - 1].at <= now)
  }

  /** The fetches from an origin so far are spaced, and the cache holds what they left. */
  ghost predicate Held(ttl: int, s: State, origin: string, now: int) {
    Fits(ttl, Traffic(s.log, origin), CacheEntry(s.cache, origin), now)
  }

  lemma TrafficAppend(log: seq<Fetch>, f: Fetch, origin: string)
    ensures Traffic(log + [f], origin) == Traffic(log, origin) + if f.origin == origin && !Fizzled(f) then [f] else []
  {
    assert (log + [f])[..|log|] == log;
  }

  /** One more fetch that fits what the cache held, and what it leaves. */
  lemma FetchFits(ttl: int, fetches: seq<Fetch>, entry: Option<Entry>, f: Fetch, now: int)
    requires Fits(ttl, fetches, entry, now) && now <= f.at && !Fizzled(f)
    requires if f.refetch then entry.Some? && !entry.value.refreshed else entry.Some? ==> entry.value.expiresAt <= f.at
    ensures Fits(ttl, fetches + [f], if f.reply.Some? then Some(Entry(f.reply.value, f.at + ttl, f.refetch)) else None, f.at)
  {
    var more := fetches + [f];
    forall i | 0 < i < |more|
      ensures more[i - 1].at <= more[i].at
      ensures if more[i].refetch then !more[i - 1].refetch else Vacant(ttl, more[i - 1], more[i].at)
    {
      assert i < |fetches| ==> more[i] == fetches[i];
    }
  }

  /** What a load does to one origin's fetches and entry: one fetch and what it leaves, or nothing. */
  lemma LoadTraffic(ttl: int, s: State, from: string, refreshed: bool, v: Visit, origin: string) returns (asked: bool)
    ensures var t, f := Load(ttl, s, from, refreshed, v).0, Fetch(from, v.fetched, refreshed, v.reply);
            var entry := CacheEntry(s.cache, origin);
            if asked then
              && !Fizzled(f) && (entry.Some? ==> entry.value.expiresAt <= v.checked)
              && Traffic(t.log, origin) == Traffic(s.log, origin) + [f]
              && CacheEntry(t.cache, origin) == if v.reply.Some? then Some(Entry(v.reply.value, v.fetched + ttl, refreshed)) else entry
            else Traffic(t.log, origin) == Traffic(s.log, origin) && CacheEntry(t.cache, origin) == entry
  {
    var f := Fetch(from, v.fetched, refreshed, v.reply);
    TrafficAppend(s.log, f, origin);
    asked := Load(ttl, s, from, refreshed, v).0 != s && from == origin && !Fizzled(f);
  }

  lemma FitsLater(ttl: int, fetches: seq<Fetch>, entry: Option<Entry>, now: int, later: int)
    requires Fits(ttl, fetches, entry, now) && now <= later
    ensures Fits(ttl, fetches, entry, later)
  {
  }

  lemma HeldIs(ttl: int, s: State, origin: string, now: int, fetches: seq<Fetch>, entry: Option<Entry>)
    requires Fits(ttl, fetches, entry, now) && Traffic(s.log, origin) == fetches && CacheEntry(s.cache, origin) == entry
    ensures Held(ttl, s, origin, now)
  {
  }

  /** A plain load of any origin, whether it is served from the cache, succeeds or fails. */
  lemma LoadKeepsHeld(ttl: int, s: State, from: string, v: Visit, origin: string, now: int)
    requires Held(ttl, s, origin, now) && now <= v.checked <= v.fetched
    ensures Held(ttl, Load(ttl, s, from, false, v).0, origin, v.fetched)
  {
    var t, f := Load(ttl, s, from, false, v).0, Fetch(from, v.fetched, false, v.reply);
    var fetches, entry := Traffic(s.log, origin), CacheEntry(s.cache, origin);
    var asked := LoadTraffic(ttl, s, from, false, v, origin);
    if asked {
      FetchFits(ttl, fetches, entry, f, now);
      HeldIs(ttl, t, origin, v.fetched, fetches + [f], CacheEntry(t.cache, origin));
    } else {
      FitsLater(ttl, fetches, entry, now, v.fetched);
      HeldIs(ttl, t, origin, v.fetched, fetches, entry);
    }
  }

  /** A refetch, which takes the entry out first, whether it succeeds or fails. */
  lemma RefetchKeepsHeld(ttl: int, s: State, from: string, v: Visit, origin: string, now: int)
    requires Held(ttl, s, origin, now) && now <= v.fetched
    requires from in s.cache && !s.cache[from].refreshed
    ensures Held(ttl, Load(ttl, s.(cache := s.cache - {from}), from, true, v).0, origin, v.fetched)
  {
    var t := Load(ttl, s.(cache := s.cache - {from}), from, true, v).0;
    var f := Fetch(from, v.fetched, true, v.reply);
    TrafficAppend(s.log, f, origin);
    if from == origin {
      FetchFits(ttl, Traffic(s.log, origin), CacheEntry(s.cache, origin), f, now);
    } else {
      assert Traffic(t.log, origin) == Traffic(s.log, origin) && CacheEntry(t.cache, origin) == CacheEntry(s.cache, origin);
    }
  }

  /** A call, whatever its fetches answer, keeps every origin's spacing. */
  lemma StepKeepsHeld(ttl: int, s: State, c: Call, origin: string, now: int)
    requires Held(ttl, s, origin, now) && Timely(now, c)
    ensures Held(ttl, Step(ttl, s, c), origin, c.w.fetched)
  {
    LoadKeepsHeld(ttl, s, c.origin, c.v, origin, now);
    var (s1, first) := Load(ttl, s, c.origin, false, c.v);
    if first.Some? && Refetches(s1, c.origin, first.value, c.keysetId) {
      RefetchKeepsHeld(ttl, s1, c.origin, c.w, origin, c.v.fetched);
    } else {
      FitsLater(ttl, Traffic(s1.log, origin), CacheEntry(s1.cache, origin), c.v.fetched, c.w.fetched);
    }
  }

  lemma {:induction false} RunKeepsHeld(ttl: int, s: State, calls: seq<Call>, origin: string, now: int) returns (later: int)
    requires Held(ttl, s, origin, now) && Runs(now, calls)
    ensures Held(ttl, After(ttl, s, calls), origin, later)
    decreases |calls|
  {
    later := now;
    if calls != [] {
      StepKeepsHeld(ttl, s, calls[0], origin, now);
      later := RunKeepsHeld(ttl, Step(ttl, s, calls[0]), calls[1..], origin, calls[0].w.fetched);
    }
  }

  // ------------------------------------------------------------------- the flood bound

  /** Successes less failed refetches, from `a` on. */
  function Net(fetches: seq<Fetch>, a: int): int {
    if fetches == [] then 0
    else
      var last := fetches[|fetches| - 1];
      Net(fetches[..|fetches| - 1], a) + if last.at < a then 0 else if last.reply.Some? then 1 else -1
  }

  /** What the last fetch can still add within its lifetime. */
  function Slack(f: Fetch): nat {
    if f.reply.None? then 0 else if f.refetch then 2 else 1
  }

  /** Every two net successes take a lifetime: `k` of them have passed since `a`. */
  lemma {:induction false} NetGrowsWithTime(ttl: int, fetches: seq<Fetch>, a: int) returns (k: nat)
    requires 0 < ttl && Spaced(ttl, fetches) && NoneFizzled(fetches)
    requires fetches != [] && a <= fetches[|fetches| - 1].at
    ensures k * ttl <= fetches[|fetches| - 1].at - a
    ensures Net(fetches, a) <= 2 * k + Slack(fetches[|fetches| - 1])
  {
    var front, last := fetches[..|fetches| - 1], fetches[|fetches| - 1];
    k := 0;
    if front == [] || front[|front| - 1].at < a {
      NetBefore(ttl, front, a);
    } else {
      var before := front[|front| - 1];
      assert before == fetches[|fetches| - 2];
      k := NetGrowsWithTime(ttl, front, a);
      if !last.refetch && before.reply.Some? {
        assert (k + 1) * ttl == k * ttl + ttl;
        k := k + 1;
      }
    }
  }

  lemma {:induction false} NetBefore(ttl: int, fetches: seq<Fetch>, a: int)
    requires Spaced(ttl, fetches) && (fetches != [] ==> fetches[|fetches| - 1].at < a)
    ensures Net(fetches, a) == 0
  {
    if fetches != [] {
      var front := fetches[..|fetches| - 1];
      assert front != [] ==> front[|front| - 1] == fetches[|fetches| - 2];
      NetBefore(ttl, front, a);
    }
  }

  lemma CountOneMore(log: seq<Fetch>, f: Fetch, origin: string, a: int, b: int)
    requires f.at <= b
    ensures Successes(log + [f], origin, a, b) - FailedRefetches(log + [f], origin, a, b) ==
            Successes(log, origin, a, b) - FailedRefetches(log, origin, a, b)
            + Net(if f.origin == origin && !Fizzled(f) then [f] else [], a)
  {
    assert (log + [f])[..|log|] == log;
    assert [f][..0] == [];
  }

  lemma NetOneMore(fetches: seq<Fetch>, f: Fetch, a: int)
    ensures Net(fetches + [f], a) == Net(fetches, a) + Net([f], a)
  {
    assert (fetches + [f])[..|fetches|] == fetches && [f][..0] == [];
  }

  /** A fetch that is not counted changes no count. */
  lemma UncountedFetch(log: seq<Fetch>, f: Fetch, origin: string, a: int, b: int)
    requires f.origin != origin || Fizzled(f)
    ensures Successes(log + [f], origin, a, b) == Successes(log, origin, a, b)
    ensures FailedRefetches(log + [f], origin, a, b) == FailedRefetches(log, origin, a, b)
  {
    assert (log + [f])[..|log|] == log;
  }

  /** The counts over a log, up to `b`, are those over its traffic up to there. */
  lemma {:induction false} CountsAreNet(ttl: int, log: seq<Fetch>, origin: string, a: int, b: int)
    requires Spaced(ttl, Traffic(log, origin))
    requires var fetches := Traffic(log, origin); fetches != [] ==> fetches[|fetches| - 1].at <= b
    ensures Successes(log, origin, a, b) - FailedRefetches(log, origin, a, b) == Net(Traffic(log, origin), a)
  {
    if log != [] {
      var front, f := log[..|log| - 1], log[|log| - 1];
      assert front + [f] == log;
      TrafficAppend(front, f, origin);
      var earlier := Traffic(front, origin);
      if f.origin == origin && !Fizzled(f) {
        FrontIsSpaced(ttl, earlier, f);
        CountsAreNet(ttl, front, origin, a, b);
        CountOneMore(front, f, origin, a, b);
        NetOneMore(earlier, f, a);
      } else {
        assert earlier + [] == earlier;
        CountsAreNet(ttl, front, origin, a, b);
        UncountedFetch(front, f, origin, a, b);
      }
    }
  }

  lemma FrontIsSpaced(ttl: int, fetches: seq<Fetch>, f: Fetch)
    requires Spaced(ttl, fetches + [f])
    ensures Spaced(ttl, fetches) && (fetches != [] ==> fetches[|fetches| - 1].at <= f.at)
  {
    var more := fetches + [f];
    assert forall i | 0 <= i < |fetches| :: more[i] == fetches[i];
    assert fetches != [] ==> more[|fetches| - 1].at <= more[|fetches|].at;
  }

  lemma {:induction false} SpanIsBounded(ttl: int, log: seq<Fetch>, origin: string, a: int, T: nat)
    requires 0 < ttl && Spaced(ttl, Traffic(log, origin)) && NoneFizzled(Traffic(log, origin))
    ensures Successes(log, origin, a, a + T) <= 2 * (T / ttl + 1) + FailedRefetches(log, origin, a, a + T)
  {
    var fetches := Traffic(log, origin);
    if fetches != [] && a + T < fetches[|fetches| - 1].at {
      var front := log[..|log| - 1];
      TrafficAppend(front, log[|log| - 1], origin);
      assert front + [log[|log| - 1]] == log;
      var earlier := Traffic(front, origin);
      assert forall i | 0 <= i < |earlier| :: earlier[i] == fetches[i];
      SpanIsBounded(ttl, front, origin, a, T);
    } else {
      CountsAreNet(ttl, log, origin, a, a + T);
      if fetches == [] || fetches[|fetches| - 1].at < a {
        NetBefore(ttl, fetches, a);
      } else {
        var k := NetGrowsWithTime(ttl, fetches, a);
        Quotient(k, ttl, T);
      }
    }
  }

  /**
   * The flood bound, for every mint: whatever keyset ids are asked for, unknown ones included, and
   * whatever fetches fail, the successful fetches from one origin dated within a span of `T` seconds
   * number at most twice the lifetimes begun in it and its refetches that failed in it.
   */
  lemma FloodIsBounded(ttl: int, calls: seq<Call>, now: int, origin: string, a: int, T: nat)
    requires 0 < ttl && Runs(now, calls)
    ensures var log := After(ttl, State(map[], []), calls).log;
            Successes(log, origin, a, a + T) <= 2 * (T / ttl + 1) + FailedRefetches(log, origin, a, a + T)
  {
    var start := State(map[], []);
    var later := RunKeepsHeld(ttl, start, calls, origin, now);
    SpanIsBounded(ttl, After(ttl, start, calls).log, origin, a, T);
  }

  lemma Quotient(k: nat, ttl: int, T: nat)
    requires 0 < ttl && k * ttl <= T
    ensures k <= T / ttl
  {
    var q := T / ttl;
    assert T == ttl * q + T % ttl;
    assert ttl * (k - q) <= T % ttl;
    assert k - q >= 1 ==> ttl * (k - q) >= ttl;
  }

  /** Every cache entry is an answer some mint gave one lifetime before the entry expires. */
  ghost predicate Logged(ttl: int, s: State) {
    forall o <- s.cache :: exists i: nat :: Backs(ttl, s.log, i, o, s.cache[o])
  }

  predicate Backs(ttl: int, log: seq<Fetch>, i: nat, origin: string, e: Entry) {
    i < |log| && log[i].origin == origin && log[i].reply == Some(e.keysets) && log[i].at + ttl == e.expiresAt
  }

  lemma LoadKeepsLogged(ttl: int, s: State, origin: string, refreshed: bool, v: Visit)
    requires Logged(ttl, s)
    ensures Logged(ttl, Load(ttl, s, origin, refreshed, v).0)
  {
    var t := Load(ttl, s, origin, refreshed, v).0;
    forall o <- t.cache ensures exists i: nat :: Backs(ttl, t.log, i, o, t.cache[o]) {
      if o in s.cache && t.cache[o] == s.cache[o] {
        var i: nat :| Backs(ttl, s.log, i, o, s.cache[o]);
        assert Backs(ttl, t.log, i, o, t.cache[o]);
      } else {
        assert Backs(ttl, t.log, |s.log|, o, t.cache[o]);
      }
    }
  }

  lemma StepKeepsLogged(ttl: int, s: State, c: Call)
    requires Logged(ttl, s)
    ensures Logged(ttl, Step(ttl, s, c))
  {
    LoadKeepsLogged(ttl, s, c.origin, false, c.v);
    var s1 := Load(ttl, s, c.origin, false, c.v).0;
    LoadKeepsLogged(ttl, s1.(cache := s1.cache - {c.origin}), c.origin, true, c.w);
  }

  lemma {:induction false} RunKeepsLogged(ttl: int, s: State, calls: seq<Call>)
    requires Logged(ttl, s)
    ensures Logged(ttl, After(ttl, s, calls))
    decreases |calls|
  {
    if calls != [] {
      StepKeepsLogged(ttl, s, calls[0]);
      RunKeepsLogged(ttl, Step(ttl, s, calls[0]), calls[1..]);
    }
  }

  /**
   * After any calls, failed fetches included, a key is only handed out from an answer this mint gave
   * less than one lifetime before the call looked.
   */
  lemma KeysAreFresh(ttl: int, calls: seq<Call>, c: Call, from: int)
    requires 0 < ttl && Timely(from, c)
    ensures var (t, answer) := GetKey(ttl, After(ttl, State(map[], []), calls), c.origin, c.keysetId, c.amount, c.v, c.w);
            answer.Key? ==> exists i: nat :: Serves(t.log, i, c, answer) && c.v.checked - t.log[i].at < ttl
  {
    var s := After(ttl, State(map[], []), calls);
    var (t, answer) := GetKey(ttl, s, c.origin, c.keysetId, c.amount, c.v, c.w);
    RunKeepsLogged(ttl, State(map[], []), calls);
    if answer.Key? {
      if t.log == s.log {
        var i: nat :| Backs(ttl, s.log, i, c.origin, s.cache[c.origin]);
        assert Serves(t.log, i, c, answer);
      } else {
        assert Serves(t.log, |t.log| - 1, c, answer);
      }
    }
  }

  /** The logged answer is from the mint asked and holds the key given. */
  predicate Serves(log: seq<Fetch>, i: nat, c: Call, answer: Answer) {
    i < |log| && log[i].origin == c.origin && log[i].reply.Some? && Look(log[i].reply.value, c.keysetId, c.amount) == answer
  }

  // ----------------------------------------------------- what the bound does not cover

  /** `n` calls for a keyset id no answer has, all in one instant, given what the mint answers. */
  function CallsForUnknown(origin: string, now: int, plain: Option<Keysets>, n: nat): seq<Call> {
    if n == 0 then []
    else [Call(origin, "id", "1", Visit(now, plain, now), Visit(now, None, now))] + CallsForUnknown(origin, now, plain, n - 1)
  }

  lemma {:induction false} CallsForUnknownRun(origin: string, now: int, plain: Option<Keysets>, n: nat)
    ensures |CallsForUnknown(origin, now, plain, n)| == n && Runs(now, CallsForUnknown(origin, now, plain, n))
  {
    if n != 0 {
      CallsForUnknownRun(origin, now, plain, n - 1);
      assert CallsForUnknown(origin, now, plain, n)[1..] == CallsForUnknown(origin, now, plain, n - 1);
    }
  }

  /** Plain failures are not bounded: a mint that does not answer is asked again by every call. */
  lemma {:induction false} FailuresAreNotBounded(ttl: int, log: seq<Fetch>, origin: string, now: int, n: nat)
    ensures Runs(now, CallsForUnknown(origin, now, None, n)) && |CallsForUnknown(origin, now, None, n)| == n
    ensures After(ttl, State(map[], log), CallsForUnknown(origin, now, None, n)) ==
            State(map[], log + seq(n, i => Fetch(origin, now, false, None)))
    decreases n
  {
    CallsForUnknownRun(origin, now, None, n);
    var calls := CallsForUnknown(origin, now, None, n);
    var f := Fetch(origin, now, false, None);
    if n == 0 {
      assert log + seq(n, i => f) == log;
    } else {
      assert calls[1..] == CallsForUnknown(origin, now, None, n - 1);
      assert Step(ttl, State(map[], log), calls[0]) == State(map[], log + [f]);
      FailuresAreNotBounded(ttl, log + [f], origin, now, n - 1);
      assert log + [f] + seq(n - 1, i => f) == log + seq(n, i => f);
    }
  }

  /**
   * Nor are successes when refetches fail: the entry is taken out before the refetch, so a mint that
   * answers plain fetches and fails refetches answers every call for an unknown keyset in one instant.
   */
  lemma {:induction false} FailedRefetchesLetFetchesThrough(ttl: int, log: seq<Fetch>, origin: string, keysets: Keysets, now: int, n: nat)
    requires 0 < ttl && "id" !in keysets
    ensures var calls := CallsForUnknown(origin, now, Some(keysets), n);
            var t := After(ttl, State(map[], log), calls);
            && Runs(now, calls) && |calls| == n && t.cache == map[]
            && Successes(t.log, origin, now, now) == Successes(log, origin, now, now) + n
            && FailedRefetches(t.log, origin, now, now) == FailedRefetches(log, origin, now, now) + n
    decreases n
  {
    var calls := CallsForUnknown(origin, now, Some(keysets), n);
    CallsForUnknownRun(origin, now, Some(keysets), n);
    if n != 0 {
      var plain, refetch := Fetch(origin, now, false, Some(keysets)), Fetch(origin, now, true, None);
      assert calls[1..] == CallsForUnknown(origin, now, Some(keysets), n - 1);
      var t := Step(ttl, State(map[], log), calls[0]);
      assert t.cache == map[];
      assert t.log == (log + [plain]) + [refetch];
      OnePairMore(log, plain, refetch, origin, now);
      FailedRefetchesLetFetchesThrough(ttl, t.log, origin, keysets, now, n - 1);
    }
  }

  lemma OnePairMore(log: seq<Fetch>, plain: Fetch, refetch: Fetch, origin: string, now: int)
    requires plain.origin == refetch.origin == origin && plain.at == refetch.at == now
    requires !plain.refetch && plain.reply.Some? && refetch.refetch && refetch.reply.None?
    ensures Successes((log + [plain]) + [refetch], origin, now, now) == Successes(log, origin, now, now) + 1
    ensures FailedRefetches((log + [plain]) + [refetch], origin, now, now) == FailedRefetches(log, origin, now, now) + 1
  {
    assert (log + [plain])[..|log|] == log;
    assert ((log + [plain]) + [refetch])[..|log| + 1] == log + [plain];
  }
}
