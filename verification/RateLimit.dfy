/**
 * The fixed-window rate limiter, against a specification that reads the whole log of
 * hits and forgets nothing.
 */
module RateLimit {
  import opened Options

  datatype Window = Window(startedAt: int, count: nat)

  datatype Decision = Allowed | Denied(retryAfter: int)

  datatype Limits = Limits(windowSeconds: int, maxPerWindow: int)

  datatype Hit = Hit(id: string, at: int)

  // ------------------------------------------------------------- the specification

  predicate Current(cfg: Limits, w: Window, now: int) {
    now - w.startedAt < cfg.windowSeconds
  }

  /** The window a hit falls into: the open one, or a new one it starts. */
  function Advance(cfg: Limits, w: Option<Window>, now: int): Window {
    if w.None? || !Current(cfg, w.value, now) then Window(now, 1) else Window(w.value.startedAt, w.value.count + 1)
  }

  /** The window of one identifier after all the hits in the log. */
  function WindowAfter(cfg: Limits, log: seq<Hit>, id: string): Option<Window> {
    if log == [] then None
    else
      var hit, before := log[|log| - 1], WindowAfter(cfg, log[..|log| - 1], id);
      if hit.id == id then Some(Advance(cfg, before, hit.at)) else before
  }

  /** The decision on a hit at `now`, from the log of all earlier hits. */
  function Decide(cfg: Limits, log: seq<Hit>, id: string, now: int): Decision {
    var w := WindowAfter(cfg, log, id);
    if w.None? || !Current(cfg, w.value, now) then Allowed
    else if w.value.count + 1 > cfg.maxPerWindow then Denied(Max(1, w.value.startedAt + cfg.windowSeconds - now))
    else Allowed
  }

  function Hits(ids: seq<string>, now: int): seq<Hit> {
    seq(|ids|, i requires 0 <= i < |ids| => Hit(ids[i], now))
  }

  /** Every identifier is hit; the answer is the last denial, if there is one. */
  function DecideAll(cfg: Limits, log: seq<Hit>, ids: seq<string>, now: int): Decision {
    if ids == [] then Allowed
    else
      var front, last := ids[..|ids| - 1], ids[|ids| - 1];
      var d := Decide(cfg, log + Hits(front, now), last, now);
      if d.Denied? then d else DecideAll(cfg, log, front, now)
  }

  lemma OneMoreHit(cfg: Limits, log: seq<Hit>, ids: seq<string>, i: nat, now: int)
    requires i < |ids|
    ensures log + Hits(ids[..i + 1], now) == log + Hits(ids[..i], now) + [Hit(ids[i], now)]
    ensures DecideAll(cfg, log, ids[..i + 1], now) ==
            var d := Decide(cfg, log + Hits(ids[..i], now), ids[i], now);
            if d.Denied? then d else DecideAll(cfg, log, ids[..i], now)
  {
    assert ids[..i + 1][..i] == ids[..i];
    assert Hits(ids[..i + 1], now) == Hits(ids[..i], now) + [Hit(ids[i], now)];
  }

  // ------------------------------------------------------------------- identifiers

  datatype Key = Key(scope: string, npub: Option<string>, pubkey: Option<string>, clientIp: Option<string>)

  /** One identifier per dimension the key has; an npub is scoped to the address it came from. */
  function Identifiers(key: Key): seq<string> {
    (if Truthy(key.npub) then
       [if Truthy(key.clientIp) then key.scope + ":npub:" + key.npub.value + "@" + key.clientIp.value
        else key.scope + ":npub:" + key.npub.value]
     else []) +
    (if Truthy(key.pubkey) then [key.scope + ":pubkey:" + key.pubkey.value] else []) +
    (if Truthy(key.clientIp) then [key.scope + ":ip:" + key.clientIp.value] else [])
  }

  // -------------------------------------------------------------------- the limiter

  class InMemoryRateLimiter {
    const limits: Limits
    var windows: map<string, Window>
    var lastPrunedAt: Option<int>
    /** Every hit so far; the limiter itself keeps no such log. */
    ghost var log: seq<Hit>

    /** A window the map lacks was never opened, or had closed by the time of the last pruning. */
    ghost predicate Faithful()
      reads this
    {
      && (forall id <- windows :: WindowAfter(limits, log, id) == Some(windows[id]))
      && (forall id :: id !in windows && WindowAfter(limits, log, id).Some? ==>
            lastPrunedAt.Some? && !Current(limits, WindowAfter(limits, log, id).value, lastPrunedAt.value))
    }

    /** Between checks the map holds only windows that were open at the last check. */
    ghost predicate NoStale()
      reads this
    {
      && (lastPrunedAt.None? ==> windows == map[])
      && (limits.windowSeconds > 0 && lastPrunedAt.Some? ==>
            forall id <- windows :: Current(limits, windows[id], lastPrunedAt.value))
    }

    ghost predicate Valid()
      reads this
    {
      Faithful() && NoStale()
    }

    ghost predicate NotBefore(now: int)
      reads this
    {
      lastPrunedAt.Some? ==> lastPrunedAt.value <= now
    }

    constructor (limits: Limits)
      ensures Valid() && this.limits == limits && log == [] && windows == map[] && lastPrunedAt == None
    {
      this.limits := limits;
      windows, lastPrunedAt, log := map[], None, [];
    }

    method Prune(now: int)
      requires Valid() && NotBefore(now)
      modifies this
      ensures Valid() && log == old(log) && lastPrunedAt == Some(now)
    {
      if lastPrunedAt.Some? && now <= lastPrunedAt.value {
        return;
      }
      lastPrunedAt := Some(now);
      var todo := windows.Keys;
      while todo != {}
        invariant Faithful() && log == old(log) && lastPrunedAt == Some(now)
        invariant forall id <- windows :: id in todo || Current(limits, windows[id], now)
        decreases todo
      {
        var id :| id in todo;
        todo := todo - {id};
        if id in windows && now - windows[id].startedAt >= limits.windowSeconds {
          windows := windows - {id};
        }
      }
    }

    /** One identifier's hit decides as the specification does from the whole log. */
    method HitOne(id: string, now: int) returns (d: Decision)
      requires Valid() && lastPrunedAt == Some(now)
      modifies this
      ensures Valid() && lastPrunedAt == Some(now)
      ensures log == old(log) + [Hit(id, now)]
      ensures d == Decide(limits, old(log), id, now)
      ensures id in windows && windows == old(windows)[id := windows[id]]
    {
      assert (log + [Hit(id, now)])[..|log|] == log;
      log := log + [Hit(id, now)];
      if id !in windows || now - windows[id].startedAt >= limits.windowSeconds {
        windows := windows[id := Window(now, 1)];
        return Allowed;
      }
      var existing := Window(windows[id].startedAt, windows[id].count + 1);
      windows := windows[id := existing];
      if existing.count > limits.maxPerWindow {
        return Denied(Max(1, existing.startedAt + limits.windowSeconds - now));
      }
      d := Allowed;
    }

    /** A check decides as the specification does from the whole log, and leaves only open windows. */
    method Check(key: Key, now: int) returns (worst: Decision)
      requires Valid() && NotBefore(now)
      modifies this
      ensures Valid() && lastPrunedAt == Some(now)
      ensures log == old(log) + Hits(Identifiers(key), now)
      ensures worst == DecideAll(limits, old(log), Identifiers(key), now)
    {
      Prune(now);
      worst := HitAll(Identifiers(key), now);
    }

    /** Every dimension is counted, not just up to the first rejection. */
    method HitAll(ids: seq<string>, now: int) returns (worst: Decision)
      requires Valid() && lastPrunedAt == Some(now)
      modifies this
      ensures Valid() && lastPrunedAt == Some(now)
      ensures log == old(log) + Hits(ids, now)
      ensures worst == DecideAll(limits, old(log), ids, now)
    {
      worst := Allowed;
      ghost var start := log;
      assert Hits(ids[..0], now) == [];
      for i := 0 to |ids|
        invariant Valid() && lastPrunedAt == Some(now)
        invariant log == start + Hits(ids[..i], now)
        invariant worst == DecideAll(limits, start, ids[..i], now)
      {
        var d := HitOne(ids[i], now);
        OneMoreHit(limits, start, ids, i, now);
        worst := if d.Allowed? then worst else d;
      }
      assert ids[..|ids|] == ids;
    }
  }

  // ---------------------------------------------------------------- what is admitted

  predicate InOrder(log: seq<Hit>) {
    forall i, j | 0 <= i < j < |log| :: log[i].at <= log[j].at
  }

  /** How many hits of `id` with `a <= at < b` the limiter let through. */
  function Admitted(cfg: Limits, log: seq<Hit>, id: string, a: int, b: int): nat {
    if log == [] then 0
    else
      var hit, front := log[|log| - 1], log[..|log| - 1];
      Admitted(cfg, front, id, a, b) +
      if hit.id == id && a <= hit.at < b && Decide(cfg, front, id, hit.at).Allowed? then 1 else 0
  }

  /** A window's share: its first hit always passes, later ones while they are within the maximum. */
  function PerWindow(cfg: Limits): int {
    Max(1, cfg.maxPerWindow)
  }

  /** Hits before `b = a + windowSeconds` belong to the open window and, if that started in the
      interval, to the one before it. */
  ghost predicate WithinTwoWindows(cfg: Limits, log: seq<Hit>, id: string, a: int, b: int) {
    var w, n := WindowAfter(cfg, log, id), Admitted(cfg, log, id, a, b);
    && (w.None? ==> n == 0)
    && (w.Some? ==> 1 <= w.value.count)
    && (w.Some? && w.value.startedAt < a ==> n <= Min(w.value.count, PerWindow(cfg)))
    && (w.Some? && w.value.startedAt >= a ==> n <= PerWindow(cfg) + Min(w.value.count, PerWindow(cfg)))
    && (log != [] && log[|log| - 1].at < a ==> n == 0)
    && (log != [] && w.Some? ==> w.value.startedAt <= log[|log| - 1].at)
  }

  lemma {:induction false} StaysWithinTwoWindows(cfg: Limits, log: seq<Hit>, id: string, a: int)
    requires InOrder(log) && cfg.windowSeconds > 0
    requires log != [] ==> log[|log| - 1].at < a + cfg.windowSeconds
    ensures WithinTwoWindows(cfg, log, id, a, a + cfg.windowSeconds)
    decreases |log|
  {
    if log != [] {
      StaysWithinTwoWindows(cfg, log[..|log| - 1], id, a);
    }
  }

  /** In any interval as long as a window, one identifier gets at most twice its budget through
      (with a budget of at least one; with less, the first hit of each window still passes). */
  lemma {:induction false} AtMostTwoBudgets(cfg: Limits, log: seq<Hit>, id: string, a: int)
    requires InOrder(log) && cfg.windowSeconds > 0
    ensures Admitted(cfg, log, id, a, a + cfg.windowSeconds) <= 2 * PerWindow(cfg)
    decreases |log|
  {
    if log != [] {
      if log[|log| - 1].at < a + cfg.windowSeconds {
        StaysWithinTwoWindows(cfg, log, id, a);
      } else {
        AtMostTwoBudgets(cfg, log[..|log| - 1], id, a);
      }
    }
  }

  /** With no budget at all, the first hit of a window still passes. */
  lemma ZeroBudgetAdmits(cfg: Limits, log: seq<Hit>, id: string, now: int)
    requires cfg.maxPerWindow == 0
    ensures Decide(cfg, log, id, now).Allowed? <==>
            WindowAfter(cfg, log, id).None? || !Current(cfg, WindowAfter(cfg, log, id).value, now)
  {
    WindowsCount(cfg, log, id);
  }

  lemma {:induction false} WindowsCount(cfg: Limits, log: seq<Hit>, id: string)
    ensures WindowAfter(cfg, log, id).Some? ==> WindowAfter(cfg, log, id).value.count >= 1
  {
    if log != [] {
      WindowsCount(cfg, log[..|log| - 1], id);
    }
  }

  predicate WithinTwice(cfg: Limits, log: seq<Hit>, id: string, a: int) {
    InOrder(log) ==> Admitted(cfg, log, id, a, a + cfg.windowSeconds) <= 2 * cfg.maxPerWindow
  }

  /** In any ordered log and interval as long as a window, twice the configured budget bounds what passes. */
  ghost predicate TwiceTheBudget(cfg: Limits) {
    forall log, id, a :: WithinTwice(cfg, log, id, a)
  }

  /** The bound of two configured budgets holds of every ordered log exactly with a budget of at least one. */
  lemma TwiceTheBudgetNeedsABudget(cfg: Limits)
    requires cfg.windowSeconds > 0
    ensures TwiceTheBudget(cfg) <==> cfg.maxPerWindow >= 1
  {
    if cfg.maxPerWindow >= 1 {
      forall log, id, a ensures WithinTwice(cfg, log, id, a) {
        if InOrder(log) {
          AtMostTwoBudgets(cfg, log, id, a);
        }
      }
    } else {
      var log := [Hit("a", 0)];
      assert log[..0] == [];
      assert !WithinTwice(cfg, log, "a", 0);
    }
  }

  // ------------------------------------------------------------------ who is denied

  /** How many of the hits are of this identifier. */
  function HitsOf(log: seq<Hit>, id: string): nat {
    if log == [] then 0 else HitsOf(log[..|log| - 1], id) + if log[|log| - 1].id == id then 1 else 0
  }

  /** Hit `i` starts a window: it is the identifier's, and no earlier window is open when it comes. */
  predicate Starts(cfg: Limits, log: seq<Hit>, id: string, i: nat) {
    && i < |log| && log[i].id == id
    && var w := WindowAfter(cfg, log[..i], id);
       w.None? || log[i].at >= w.value.startedAt + cfg.windowSeconds
  }

  /** Hit `i` started the last window, and the identifier's later hits all came while it was open. */
  ghost predicate StartedLast(cfg: Limits, log: seq<Hit>, id: string, i: nat) {
    && Starts(cfg, log, id, i)
    && forall j | i < j < |log| && log[j].id == id :: log[j].at < log[i].at + cfg.windowSeconds
  }

  /** The window is counted from the hit that started it. */
  ghost predicate CountedFrom(cfg: Limits, log: seq<Hit>, id: string, i: nat) {
    StartedLast(cfg, log, id, i) && WindowAfter(cfg, log, id) == Some(Window(log[i].at, HitsOf(log[i..], id)))
  }

  lemma StartIsCounted(cfg: Limits, log: seq<Hit>, id: string)
    requires log != [] && Starts(cfg, log, id, |log| - 1)
    ensures CountedFrom(cfg, log, id, |log| - 1)
  {
    var n := |log| - 1;
    assert log[n..] == [log[n]] && [log[n]][..0] == [];
    assert HitsOf([log[n]], id) == HitsOf([], id) + 1;
  }

  lemma OneMoreIsCounted(cfg: Limits, log: seq<Hit>, id: string, i: nat)
    requires log != [] && CountedFrom(cfg, log[..|log| - 1], id, i) && !Starts(cfg, log, id, |log| - 1)
    ensures CountedFrom(cfg, log, id, i)
  {
    var front := log[..|log| - 1];
    assert front[..i] == log[..i] && log[i..][..|log[i..]| - 1] == front[i..];
  }

  lemma {:induction false} WindowIsCounted(cfg: Limits, log: seq<Hit>, id: string)
    ensures WindowAfter(cfg, log, id).None? <==> HitsOf(log, id) == 0
    ensures WindowAfter(cfg, log, id).Some? ==> exists i: nat :: CountedFrom(cfg, log, id, i)
  {
    if log != [] {
      var front := log[..|log| - 1];
      WindowIsCounted(cfg, front, id);
      if Starts(cfg, log, id, |log| - 1) {
        StartIsCounted(cfg, log, id);
      } else if WindowAfter(cfg, front, id).Some? {
        var i: nat :| CountedFrom(cfg, front, id, i);
        OneMoreIsCounted(cfg, log, id, i);
      }
    }
  }

  /** The window that stands was started by one hit only. */
  lemma {:induction false} StartIsUnique(cfg: Limits, log: seq<Hit>, id: string, i: nat)
    requires StartedLast(cfg, log, id, i)
    ensures WindowAfter(cfg, log, id) == Some(Window(log[i].at, HitsOf(log[i..], id)))
    decreases |log|
  {
    var front, hit := log[..|log| - 1], log[|log| - 1];
    if i == |log| - 1 {
      assert log[i..] == [hit] && [hit][..0] == [] && log[..i] == front;
      assert HitsOf([hit], id) == HitsOf([], id) + 1;
    } else {
      assert front[..i] == log[..i] && log[i..][..|log[i..]| - 1] == front[i..];
      StartIsUnique(cfg, front, id, i);
    }
  }

  /** The identifier's open window was started by hit `i` and has had its budget of hits. */
  ghost predicate Exhausted(cfg: Limits, log: seq<Hit>, id: string, now: int, i: nat) {
    && StartedLast(cfg, log, id, i)
    && now < log[i].at + cfg.windowSeconds && HitsOf(log[i..], id) >= cfg.maxPerWindow
  }

  /**
   * A hit is denied exactly when the window open for its identifier has had as many hits as the budget
   * allows; every other one passes. The hint says when that window closes.
   */
  lemma DeniedExactly(cfg: Limits, log: seq<Hit>, id: string, now: int)
    ensures Decide(cfg, log, id, now).Denied? <==> exists i: nat :: Exhausted(cfg, log, id, now, i)
    ensures forall i: nat | Exhausted(cfg, log, id, now, i) ::
              Decide(cfg, log, id, now) == Denied(Max(1, log[i].at + cfg.windowSeconds - now))
  {
    WindowIsCounted(cfg, log, id);
    forall i: nat | StartedLast(cfg, log, id, i) ensures WindowAfter(cfg, log, id) == Some(Window(log[i].at, HitsOf(log[i..], id))) {
      StartIsUnique(cfg, log, id, i);
    }
    if Decide(cfg, log, id, now).Denied? {
      var i: nat :| CountedFrom(cfg, log, id, i);
      assert Exhausted(cfg, log, id, now, i);
    }
  }

  // ----------------------------------------------------------- retry hints are exact

  /** No hit of `id` in `later` comes at or after `t`. */
  predicate Before(later: seq<Hit>, id: string, t: int) {
    forall i | 0 <= i < |later| && later[i].id == id :: later[i].at < t
  }

  lemma {:induction false} DeniedWindowStands(cfg: Limits, log: seq<Hit>, id: string, now: int, later: seq<Hit>)
    requires Decide(cfg, log, id, now).Denied?
    requires Before(later, id, now + Decide(cfg, log, id, now).retryAfter)
    ensures var w0, w := WindowAfter(cfg, log, id), WindowAfter(cfg, log + [Hit(id, now)] + later, id);
            w0.Some? && w.Some? && w.value.startedAt == w0.value.startedAt && w.value.count > w0.value.count
    decreases |later|
  {
    var denied := log + [Hit(id, now)];
    if later == [] {
      assert denied + later == denied && denied[..|denied| - 1] == log;
    } else {
      var front := later[..|later| - 1];
      assert (denied + later)[..|denied + later| - 1] == denied + front;
      DeniedWindowStands(cfg, log, id, now, front);
    }
  }

  /** A denied hit never moves the window, so its hint is exact: whatever else is hit meanwhile, the
      identifier's next hit is denied before `now + retryAfter` and admitted from then on. */
  lemma RetryHintIsExact(cfg: Limits, log: seq<Hit>, id: string, now: int, later: seq<Hit>, t: int)
    requires Decide(cfg, log, id, now).Denied?
    requires Before(later, id, now + Decide(cfg, log, id, now).retryAfter)
    ensures Decide(cfg, log + [Hit(id, now)] + later, id, t).Denied?
            <==> t < now + Decide(cfg, log, id, now).retryAfter
  {
    DeniedWindowStands(cfg, log, id, now, later);
  }

  // ------------------------------------------------- the hint of a check of several dimensions

  predicate Distinct(ids: seq<string>) {
    forall i, j | 0 <= i < j < |ids| :: ids[i] != ids[j]
  }

  predicate Given(o: Option<string>) {
    o.Some? && o.value != ""
  }

  /** What is counted for a key: its npub, at its address if that is known, its pubkey, and its address, each under the scope. */
  lemma IdentifiersAreNamed(key: Key, id: string)
    ensures id in Identifiers(key) <==>
              || (Given(key.npub) && !Given(key.clientIp) && id == key.scope + ":npub:" + key.npub.value)
              || (Given(key.npub) && Given(key.clientIp) && id == key.scope + ":npub:" + key.npub.value + "@" + key.clientIp.value)
              || (Given(key.pubkey) && id == key.scope + ":pubkey:" + key.pubkey.value)
              || (Given(key.clientIp) && id == key.scope + ":ip:" + key.clientIp.value)
  {
  }

  /** No two dimensions of a key share a window. */
  lemma IdentifiersAreDistinct(key: Key)
    ensures Distinct(Identifiers(key))
  {
    var ids := Identifiers(key);
    var at := |key.scope| + 1;
    forall i | 0 <= i < |ids|
      ensures |ids[i]| > at && ids[i][at] == (if i == 0 && Truthy(key.npub) then 'n' else if i == |ids| - 1 && Truthy(key.clientIp) then 'i' else 'p')
    {
    }
  }

  /** Hits of other identifiers leave a window alone. */
  lemma {:induction false} OthersLeaveWindow(cfg: Limits, log: seq<Hit>, ids: seq<string>, now: int, id: string)
    requires id !in ids
    ensures WindowAfter(cfg, log + Hits(ids, now), id) == WindowAfter(cfg, log, id)
    decreases |ids|
  {
    if ids == [] {
      assert log + Hits(ids, now) == log;
    } else {
      var front := ids[..|ids| - 1];
      assert Hits(ids, now) == Hits(front, now) + [Hit(ids[|ids| - 1], now)];
      assert (log + Hits(ids, now))[..|log + Hits(ids, now)| - 1] == log + Hits(front, now);
      OthersLeaveWindow(cfg, log, front, now, id);
    }
  }

  /** After a check each of its identifiers is in the window the check put it in. */
  lemma {:induction false} CheckedWindow(cfg: Limits, log: seq<Hit>, ids: seq<string>, now: int, i: nat)
    requires Distinct(ids) && i < |ids|
    ensures WindowAfter(cfg, log + Hits(ids, now), ids[i]) == Some(Advance(cfg, WindowAfter(cfg, log, ids[i]), now))
    decreases |ids|
  {
    var front := ids[..|ids| - 1];
    assert Hits(ids, now) == Hits(front, now) + [Hit(ids[|ids| - 1], now)];
    assert (log + Hits(ids, now))[..|log + Hits(ids, now)| - 1] == log + Hits(front, now);
    if i == |ids| - 1 {
      OthersLeaveWindow(cfg, log, front, now, ids[i]);
    } else {
      CheckedWindow(cfg, log, front, now, i);
    }
  }

  /** A check passes exactly when each of its identifiers, on its own, does. */
  lemma {:induction false} AllDecideAlone(cfg: Limits, log: seq<Hit>, ids: seq<string>, now: int)
    requires Distinct(ids)
    ensures DecideAll(cfg, log, ids, now).Allowed? <==> forall i | 0 <= i < |ids| :: Decide(cfg, log, ids[i], now).Allowed?
    decreases |ids|
  {
    if ids != [] {
      var front, last := ids[..|ids| - 1], ids[|ids| - 1];
      OthersLeaveWindow(cfg, log, front, now, last);
      AllDecideAlone(cfg, log, front, now);
      assert forall i | 0 <= i < |front| :: front[i] == ids[i];
    }
  }

  /** The window has closed by `t`, or still has room then. */
  predicate Opens(cfg: Limits, w: Window, t: int) {
    !Current(cfg, w, t) || w.count < cfg.maxPerWindow
  }

  /**
   * After a check at `now`, the same key is let through at a later `t`, with no hits in between,
   * exactly when each of its dimensions has its window closed by then or has room left in it: also one
   * that this very check filled. So the hint of a denied check is right exactly under this condition.
   */
  lemma CheckPassesLater(cfg: Limits, log: seq<Hit>, key: Key, now: int, t: int)
    ensures var ids := Identifiers(key);
            DecideAll(cfg, log + Hits(ids, now), ids, t).Allowed? <==>
            forall i | 0 <= i < |ids| :: Opens(cfg, Advance(cfg, WindowAfter(cfg, log, ids[i]), now), t)
  {
    var ids := Identifiers(key);
    IdentifiersAreDistinct(key);
    AllDecideAlone(cfg, log + Hits(ids, now), ids, t);
    forall i | 0 <= i < |ids|
      ensures Decide(cfg, log + Hits(ids, now), ids[i], t).Allowed? <==> Opens(cfg, Advance(cfg, WindowAfter(cfg, log, ids[i]), now), t)
    {
      CheckedWindow(cfg, log, ids, now, i);
    }
  }

  /** Dimension `i` is the last one denied. */
  predicate LastDenied(cfg: Limits, log: seq<Hit>, ids: seq<string>, now: int, i: nat) {
    && i < |ids| && Decide(cfg, log, ids[i], now).Denied?
    && forall j | i < j < |ids| :: Decide(cfg, log, ids[j], now).Allowed?
  }

  /** The hint of a denied check is that of its last denied dimension alone. */
  lemma {:induction false} HintIsTheLastDenied(cfg: Limits, log: seq<Hit>, ids: seq<string>, now: int, i: nat)
    requires Distinct(ids) && LastDenied(cfg, log, ids, now, i)
    ensures DecideAll(cfg, log, ids, now) == Decide(cfg, log, ids[i], now)
    decreases |ids|
  {
    var front, last := ids[..|ids| - 1], ids[|ids| - 1];
    OthersLeaveWindow(cfg, log, front, now, last);
    if i < |front| {
      assert forall j | 0 <= j < |front| :: front[j] == ids[j];
      HintIsTheLastDenied(cfg, log, front, now, i);
    }
  }

  /**
   * A caller told to wait 10 seconds who is still refused then: another npub opened the address's
   * window earlier, and the caller's own npub's window is open for 59 seconds.
   */
  lemma CheckHintMayBeTooShort()
    ensures var cfg := Limits(60, 1);
            var other, key := Key("init", Some("m"), None, Some("1.1.1.1")), Key("init", Some("n"), None, Some("1.1.1.1"));
            var log := Hits(Identifiers(other), 0) + Hits(Identifiers(key), 49);
            && DecideAll(cfg, log, Identifiers(key), 50) == Denied(10)
            && DecideAll(cfg, log + Hits(Identifiers(key), 50), Identifiers(key), 60).Denied?
  {
    var cfg := Limits(60, 1);
    var other, key := Key("init", Some("m"), None, Some("1.1.1.1")), Key("init", Some("n"), None, Some("1.1.1.1"));
    var before, own := Identifiers(other), Identifiers(key);
    IdentifiersAreDistinct(other);
    IdentifiersAreDistinct(key);
    assert |before| == 2 && |own| == 2 && before[1] == own[1];
    assert before[0][10] != own[0][10];
    var log0 := Hits(before, 0);
    assert [] + log0 == log0;
    CheckedWindow(cfg, [], before, 0, 1);
    OthersLeaveWindow(cfg, [], before, 0, own[0]);
    CheckedWindow(cfg, log0, own, 49, 0);
    CheckedWindow(cfg, log0, own, 49, 1);
    var log := log0 + Hits(own, 49);
    assert WindowAfter(cfg, log, own[0]) == Some(Window(49, 1)) && WindowAfter(cfg, log, own[1]) == Some(Window(0, 2));
    OthersLeaveWindow(cfg, log, own[..1], 50, own[1]);
    CheckPassesLater(cfg, log, key, 50, 60);
    assert !Opens(cfg, Advance(cfg, WindowAfter(cfg, log, own[0]), 50), 60);
  }
}
