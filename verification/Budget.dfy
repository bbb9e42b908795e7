/** The agent's switch budget: a cooldown, a rolling daily cap and one escape slot, all decided on
    a history that is pruned, saved and reloaded. The reference is the complete log of every
    switch ever recorded, which the code does not keep. */
module Budget {
  import opened Numbers
  import opened Wrappers

  datatype Kind = Switch | Escape

  datatype Entry = Entry(when: real, cooldown: real, kind: Kind)

  datatype Usage = Usage(used: nat, exhausted: bool, cooldownLeft: real, escapes: nat)

  const DAY := 86400.0

  function Fresh(h: seq<Entry>, now: real): (f: seq<Entry>)
    ensures |f| <= |h|
  {
    if h == [] then []
    else Fresh(h[..|h| - 1], now) + (if now - h[|h| - 1].when < DAY then [h[|h| - 1]] else [])
  }

  /** Is the cooldown of the last entry still running? */
  predicate Holding(h: seq<Entry>, now: real) {
    h != [] && now - h[|h| - 1].when < h[|h| - 1].cooldown
  }

  function Escapes(h: seq<Entry>): nat {
    if h == [] then 0 else Escapes(h[..|h| - 1]) + if h[|h| - 1].kind == Escape then 1 else 0
  }

  /** The answer on a history: its last cooldown, however old, and the rolling count. On the
      complete log it is the ideal answer; the code asks only what is left after pruning. */
  predicate Permitted(h: seq<Entry>, now: real, maxPerDay: int) {
    !Holding(h, now) && |Fresh(h, now)| < maxPerDay
  }

  /** The escape rule, for a switch already refused. */
  predicate EscapeOpen(h: seq<Entry>, now: real, maxPerDay: int, fullCooldown: real, window: real) {
    var recent := Fresh(h, now);
    && recent != []
    && Escapes(recent) == 0
    && (|recent| >= maxPerDay || h[|h| - 1].cooldown >= fullCooldown)
    && now - h[|h| - 1].when < window
  }

  function CooldownLeft(h: seq<Entry>, now: real): real {
    if Holding(h, now) then h[|h| - 1].cooldown - (now - h[|h| - 1].when) else 0.0
  }

  function UsageOf(h: seq<Entry>, now: real, maxPerDay: int): Usage {
    Usage(|Fresh(h, now)|, |Fresh(h, now)| >= maxPerDay, CooldownLeft(h, now), Escapes(Fresh(h, now)))
  }

  // ----- pruning -------------------------------------------------------------------------------------

  /** The entries of a log in the order of their moments, none after `now`. */
  predicate Ordered(log: seq<Entry>, now: real) {
    log == [] || (log[|log| - 1].when <= now && Ordered(log[..|log| - 1], log[|log| - 1].when))
  }

  lemma {:induction false} OrderedIsEarlier(log: seq<Entry>, now: real)
    requires Ordered(log, now)
    ensures forall i :: 0 <= i < |log| ==> log[i].when <= now && log[i].when <= log[|log| - 1].when
  {
    if log != [] {
      var front := log[..|log| - 1];
      OrderedIsEarlier(front, log[|log| - 1].when);
      assert forall i :: 0 <= i < |front| ==> log[i] == front[i];
    }
  }

  ghost predicate AllStale(log: seq<Entry>, now: real) {
    forall i :: 0 <= i < |log| ==> now - log[i].when >= DAY
  }

  /** `h` is the log without some entries of the front that were stale by `now`. */
  ghost predicate Pruned(h: seq<Entry>, log: seq<Entry>, now: real) {
    if h == [] then AllStale(log, now)
    else
      && log != []
      && h[|h| - 1] == log[|log| - 1]
      && Pruned(h[..|h| - 1], log[..|log| - 1], now)
  }

  lemma {:induction false} StaleVanish(h: seq<Entry>, now: real)
    requires AllStale(h, now)
    ensures Fresh(h, now) == []
  {
    if h != [] { StaleVanish(h[..|h| - 1], now); }
  }

  /** A pruned history has the same fresh entries as the log, now and at any later time. */
  lemma {:induction false} PrunedHasSameFresh(h: seq<Entry>, log: seq<Entry>, before: real, now: real)
    requires Pruned(h, log, before) && before <= now
    ensures Fresh(h, now) == Fresh(log, now)
    ensures Pruned(h, log, now)
  {
    if h == [] {
      StaleVanish(log, now);
    } else {
      PrunedHasSameFresh(h[..|h| - 1], log[..|log| - 1], before, now);
    }
  }

  lemma {:induction false} FreshIsPruned(log: seq<Entry>, now: real)
    requires Ordered(log, now)
    ensures Pruned(Fresh(log, now), log, now)
  {
    if log != [] {
      var front, last := log[..|log| - 1], log[|log| - 1];
      if now - last.when >= DAY {
        OrderedIsEarlier(log, now);
        StaleVanish(log, now);
      } else {
        FreshIsPruned(front, now);
        assert Fresh(log, now)[..|Fresh(front, now)|] == Fresh(front, now);
      }
    }
  }

  lemma AppendStaysPruned(h: seq<Entry>, log: seq<Entry>, e: Entry, now: real)
    requires Pruned(h, log, now)
    ensures Pruned(h + [e], log + [e], now)
  {
    assert (h + [e])[..|h|] == h && (log + [e])[..|log|] == log;
  }

  lemma AppendStaysValid(h: seq<Entry>, log: seq<Entry>, e: Entry, now: real, grown: seq<Entry>)
    requires Ordered(log, now) && Pruned(h, log, now) && e.when == now && grown == log + [e]
    ensures Ordered(grown, now) && Pruned(h + [e], grown, now)
  {
    AppendStaysPruned(h, log, e, now);
    assert grown[..|log|] == log;
  }

  /** On an ordered log the last entry is the last to become stale. */
  lemma LastIsFresh(log: seq<Entry>, now: real)
    requires Ordered(log, now)
    ensures log != [] && now - log[|log| - 1].when < DAY ==>
              Fresh(log, now) != [] && Fresh(log, now)[|Fresh(log, now)| - 1] == log[|log| - 1]
    ensures log == [] || now - log[|log| - 1].when >= DAY ==> Fresh(log, now) == []
  {
    if log == [] || now - log[|log| - 1].when >= DAY {
      OrderedIsEarlier(log, now);
      StaleVanish(log, now);
    }
  }

  /** A cooldown of at most a day is never forgotten by pruning. */
  lemma FreshKeepsTheCooldown(log: seq<Entry>, now: real)
    requires Ordered(log, now)
    requires log != [] ==> log[|log| - 1].cooldown <= DAY
    ensures Holding(Fresh(log, now), now) <==> Holding(log, now)
    ensures CooldownLeft(Fresh(log, now), now) == CooldownLeft(log, now)
  {
    LastIsFresh(log, now);
  }

  /** Pruning twice at one moment is pruning once. */
  lemma {:induction false} FreshIsFresh(h: seq<Entry>, now: real)
    ensures Fresh(Fresh(h, now), now) == Fresh(h, now)
  {
    if h != [] {
      var front, last := h[..|h| - 1], h[|h| - 1];
      FreshIsFresh(front, now);
      assert (Fresh(front, now) + [last])[..|Fresh(front, now)|] == Fresh(front, now);
      assert Fresh(front, now) + [] == Fresh(front, now);
    }
  }

  /** What is fresh in a pruned history, and the metrics it shows. */
  lemma RecentUsage(h: seq<Entry>, log: seq<Entry>, before: real, now: real, maxPerDay: int)
    requires Ordered(log, before) && Pruned(h, log, before) && before <= now
    ensures Fresh(h, now) == Fresh(log, now) && Fresh(Fresh(log, now), now) == Fresh(log, now)
    ensures (log != [] ==> log[|log| - 1].cooldown <= DAY) ==>
              UsageOf(Fresh(log, now), now, maxPerDay) == UsageOf(log, now, maxPerDay)
  {
    PrunedHasSameFresh(h, log, before, now);
    FreshIsFresh(log, now);
    if log != [] && log[|log| - 1].cooldown <= DAY { FreshKeepsTheCooldown(log, now); }
  }

  // ----- the code ---------------------------------------------------------------------------------------

  class SwitchBudget {
    const cooldown: real
    const maxPerDay: int
    var history: seq<Entry>
    var file: seq<Entry>   // the saved history; [] when there is none yet
    ghost var log: seq<Entry>
    ghost var clock: real  // the latest moment this object has seen

    ghost predicate Valid()
      reads this
    {
      Ordered(log, clock) && Pruned(history, log, clock)
    }

    ghost predicate Saved()
      reads this
    {
      Pruned(file, log, clock)
    }

    /** A new process adopts the entries of the file an earlier one left, none if it is unreadable.
        It answers for any log they stand for: everything recorded, if the last save worked, and
        otherwise what was recorded up to the last save that did (`FileStandsForItself`). */
    constructor (cooldown: real, maxPerDay: int, file: Option<seq<Entry>>, now: real, ghost log: seq<Entry>)
      ensures this.cooldown == cooldown && this.maxPerDay == maxPerDay && this.log == log && clock == now
      ensures this.file == (if file.Some? then file.value else []) && history == Fresh(this.file, now)
      ensures Ordered(log, now) && Pruned(this.file, log, now) ==> Valid() && Saved()
    {
      this.cooldown, this.maxPerDay := cooldown, maxPerDay;
      this.log, clock := log, now;
      var adopted := if file.Some? then file.value else [];
      this.file, history := adopted, Fresh(adopted, now);
      new;
      if Ordered(log, now) && Pruned(adopted, log, now) {
        PrunedHasSameFresh(adopted, log, now, now);
        FreshIsPruned(log, now);
      }
    }

    method Prune(now: real)
      requires Valid() && clock <= now
      modifies this`history, this`clock
      ensures Valid() && clock == now && history == Fresh(log, now)
      ensures old(Saved()) ==> Saved()
    {
      PrunedHasSameFresh(history, log, clock, now);
      if Saved() { PrunedHasSameFresh(file, log, clock, now); }
      FreshIsPruned(log, now);
      history := Fresh(history, now);
      clock := now;
    }

    /** Read-only: the HTTP thread calls it while the agent thread may be recording. */
    method Snapshot(now: real) returns (u: Usage)
      requires Valid() && clock <= now
      ensures u == UsageOf(Fresh(log, now), now, maxPerDay)
      ensures (log != [] ==> log[|log| - 1].cooldown <= DAY) ==> u == UsageOf(log, now, maxPerDay)
    {
      var recent := Fresh(history, now);
      RecentUsage(history, log, clock, now, maxPerDay);
      var left := if recent == [] then 0.0
                  else Max(0.0, recent[|recent| - 1].cooldown - (now - recent[|recent| - 1].when));
      u := Usage(|recent|, |recent| >= maxPerDay, left, Escapes(recent));
    }

    method Allowed(now: real) returns (allowed: bool)
      requires Valid() && clock <= now
      modifies this`history, this`clock
      ensures Valid() && clock == now && history == Fresh(log, now)
      ensures old(Saved()) ==> Saved()
      ensures allowed <==> Permitted(Fresh(log, now), now, maxPerDay)
      ensures (log != [] ==> log[|log| - 1].cooldown <= DAY) ==> (allowed <==> Permitted(log, now, maxPerDay))
    {
      Prune(now);
      FreshIsFresh(log, now);
      if log != [] && log[|log| - 1].cooldown <= DAY { FreshKeepsTheCooldown(log, now); }
      if history != [] {
        var entry := history[|history| - 1];
        if now - entry.when < entry.cooldown { return false; }
      }
      allowed := |history| < maxPerDay;
    }

    /** The clock is read once for each of the two questions. */
    method AllowedOrEscape(now: real, later: real, window: real) returns (allowed: bool, escape: bool)
      requires Valid() && clock <= now <= later
      modifies this`history, this`clock
      ensures Valid() && now <= clock <= later
      ensures old(Saved()) ==> Saved()
      ensures escape ==> allowed
      ensures allowed && !escape <==> Permitted(Fresh(log, now), now, maxPerDay)
      ensures escape <==> !Permitted(Fresh(log, now), now, maxPerDay)
                          && EscapeOpen(log, later, maxPerDay, cooldown, window)
    {
      allowed := Allowed(now);
      if allowed { return true, false; }
      Prune(later);
      LastIsFresh(log, later);
      if history == [] { return false, false; }
      var entry := history[|history| - 1];
      var age := later - entry.when;
      if Escapes(history) > 0 { return false, false; }
      if |history| < maxPerDay && entry.cooldown < cooldown { return false, false; }
      if age >= window { return false, false; }
      return true, true;
    }

    method Record(now: real, armed: Option<real>, kind: Kind, saveWorks: bool)
      requires Valid() && clock <= now
      modifies this
      ensures Valid() && clock == now
      ensures log == old(log) + [Entry(now, if armed.Some? then armed.value else cooldown, kind)]
      ensures history == Fresh(old(log), now) + [log[|log| - 1]]
      ensures file == if saveWorks then history else old(file)
      ensures saveWorks ==> Saved()
    {
      Prune(now);
      var entry := Entry(now, if armed.Some? then armed.value else cooldown, kind);
      ghost var grown := log + [entry];
      AppendStaysValid(history, log, entry, now, grown);
      history := history + [entry];
      log := grown;
      if saveWorks { file := history; }
    }
  }

  // ----- pruning and the complete log ---------------------------------------------------------------------

  /** The moments, by place, of the entries less than a day old. */
  ghost function Recent(h: seq<Entry>, now: real): set<nat> {
    set i: nat | i < |h| && h[i].when > now - 86400.0
  }

  ghost function RecentEscapes(h: seq<Entry>, now: real): set<nat> {
    set i: nat | i < |h| && h[i].when > now - 86400.0 && h[i].kind == Escape
  }

  lemma {:induction false} FreshCount(h: seq<Entry>, now: real)
    ensures |Fresh(h, now)| == |Recent(h, now)|
    ensures Escapes(Fresh(h, now)) == |RecentEscapes(h, now)|
  {
    if h == [] {
      assert Recent(h, now) == {} && RecentEscapes(h, now) == {};
    } else {
      var front, last := h[..|h| - 1], h[|h| - 1];
      FreshCount(front, now);
      FreshAppends(front, last, now);
      assert h == front + [last];
      RecentGrows(front, last, now);
      RecentEscapesGrow(front, last, now);
    }
  }

  lemma RecentGrows(front: seq<Entry>, last: Entry, now: real)
    ensures |Recent(front + [last], now)| == |Recent(front, now)| + if now - last.when < 86400.0 then 1 else 0
  {
    var young := last.when > now - 86400.0;
    assert Recent(front + [last], now) == Recent(front, now) + if young then {|front|} else {};
  }

  lemma RecentEscapesGrow(front: seq<Entry>, last: Entry, now: real)
    ensures |RecentEscapes(front + [last], now)|
         == |RecentEscapes(front, now)| + if now - last.when < 86400.0 && last.kind == Escape then 1 else 0
  {
    var young := last.when > now - 86400.0 && last.kind == Escape;
    assert RecentEscapes(front + [last], now) == RecentEscapes(front, now) + if young then {|front|} else {};
  }

  lemma FreshAppends(h: seq<Entry>, e: Entry, now: real)
    ensures Fresh(h + [e], now) == Fresh(h, now) + if now - e.when < DAY then [e] else []
    ensures Escapes(Fresh(h + [e], now))
         == Escapes(Fresh(h, now)) + if now - e.when < DAY && e.kind == Escape then 1 else 0
  {
    var f := Fresh(h, now);
    assert (h + [e])[..|h|] == h && (f + [e])[..|f|] == f && f + [] == f;
  }

  /** The metrics count the switches and escapes of the last day, and the seconds until the last
      cooldown runs out. */
  lemma UsageCounts(h: seq<Entry>, now: real, maxPerDay: int)
    ensures var u := UsageOf(h, now, maxPerDay);
            && u.used == |Recent(h, now)| && u.escapes == |RecentEscapes(h, now)|
            && (u.exhausted <==> |Recent(h, now)| >= maxPerDay)
            && (h == [] ==> u.cooldownLeft == 0.0)
            && (h != [] ==> var ends := h[|h| - 1].when + h[|h| - 1].cooldown;
                            u.cooldownLeft == if ends > now then ends - now else 0.0)
  {
    FreshCount(h, now);
  }

  /** A switch is permitted exactly when the last cooldown has run out and fewer than the cap were
      recorded in the last day. */
  lemma PermittedExactlyWhen(h: seq<Entry>, now: real, maxPerDay: int)
    ensures Permitted(h, now, maxPerDay)
            <==> && (h != [] ==> now >= h[|h| - 1].when + h[|h| - 1].cooldown)
                 && |Recent(h, now)| < maxPerDay
  {
    FreshCount(h, now);
  }

  /** The escape is open exactly when the last switch is less than a day and less than the window old,
      no escape was recorded in the last day, and waiting is no way out: the cap is used up, or the
      last switch armed the full cooldown. */
  lemma EscapeOpensExactlyWhen(h: seq<Entry>, now: real, maxPerDay: int, fullCooldown: real, window: real)
    requires Ordered(h, now)
    ensures EscapeOpen(h, now, maxPerDay, fullCooldown, window)
            <==> && h != []
                 && now - h[|h| - 1].when < 86400.0 && now - h[|h| - 1].when < window
                 && (forall i :: 0 <= i < |h| && h[i].when > now - 86400.0 ==> h[i].kind != Escape)
                 && (|Recent(h, now)| >= maxPerDay || h[|h| - 1].cooldown >= fullCooldown)
  {
    FreshCount(h, now);
    LastIsFresh(h, now);
    assert RecentEscapes(h, now) == {} <==>
           (forall i :: 0 <= i < |h| && h[i].when > now - 86400.0 ==> h[i].kind != Escape) by {
      forall i: nat | i < |h| && h[i].when > now - 86400.0 && h[i].kind == Escape
        ensures i in RecentEscapes(h, now) {}
    }
  }

  /** A file stands at least for the switches that are in it. */
  lemma {:induction false} FileStandsForItself(file: seq<Entry>, now: real)
    ensures Pruned(file, file, now)
  {
    if file != [] { FileStandsForItself(file[..|file| - 1], now); }
  }

  /** `allowed` is exactly what /metrics shows, no cooldown left and the cap not exhausted: on the
      history as it is pruned, whatever the cooldowns in it, and so on the complete log. */
  lemma MetricsCannotDriftFromEnforcement(h: seq<Entry>, now: real, maxPerDay: int)
    ensures Permitted(h, now, maxPerDay)
            <==> var u := UsageOf(h, now, maxPerDay); u.cooldownLeft == 0.0 && !u.exhausted
  {}

  /** Has the complete log no cooldown left that pruning forgets? */
  predicate Remembered(log: seq<Entry>, clock: real) {
    log == [] || log[|log| - 1].cooldown <= DAY || clock - log[|log| - 1].when >= log[|log| - 1].cooldown
  }

  /** What is left after pruning answers `allowed` like the complete log at every later moment
      exactly when the last cooldown is at most a day, or has run out already, or the cap refuses
      anyway; ... */
  lemma PruningIsInvisibleIff(h: seq<Entry>, log: seq<Entry>, clock: real, maxPerDay: int)
    requires Ordered(log, clock) && Pruned(h, log, clock)
    ensures (forall now :: now >= clock ==>
               (Permitted(log, now, maxPerDay) <==> Permitted(Fresh(h, now), now, maxPerDay)))
            <==> Remembered(log, clock) || maxPerDay <= 0
  {
    if Remembered(log, clock) || maxPerDay <= 0 {
      forall now | now >= clock
        ensures Permitted(log, now, maxPerDay) <==> Permitted(Fresh(h, now), now, maxPerDay)
      {
        SameUsage(h, log, clock, now);
      }
    } else {
      var now := WhenForgotten(h, log, clock);
    }
  }

  /** ... it shows the same metrics exactly in the first two cases; ... */
  lemma PruningIsInvisibleToMetricsIff(h: seq<Entry>, log: seq<Entry>, clock: real, maxPerDay: int)
    requires Ordered(log, clock) && Pruned(h, log, clock)
    ensures (forall now :: now >= clock ==>
               UsageOf(log, now, maxPerDay) == UsageOf(Fresh(h, now), now, maxPerDay))
            <==> Remembered(log, clock)
  {
    if Remembered(log, clock) {
      forall now | now >= clock
        ensures UsageOf(log, now, maxPerDay) == UsageOf(Fresh(h, now), now, maxPerDay)
      {
        SameUsage(h, log, clock, now);
      }
    } else {
      var now := WhenForgotten(h, log, clock);
    }
  }

  lemma SameUsage(h: seq<Entry>, log: seq<Entry>, clock: real, now: real)
    requires Ordered(log, clock) && Pruned(h, log, clock) && clock <= now
    ensures Fresh(Fresh(h, now), now) == Fresh(log, now)
    ensures Remembered(log, clock) ==>
              && (Holding(log, now) <==> Holding(Fresh(h, now), now))
              && CooldownLeft(log, now) == CooldownLeft(Fresh(h, now), now)
  {
    PrunedHasSameFresh(h, log, clock, now);
    FreshIsFresh(log, now);
    LastIsFresh(log, now);
  }

  lemma WhenForgotten(h: seq<Entry>, log: seq<Entry>, clock: real) returns (now: real)
    requires Ordered(log, clock) && Pruned(h, log, clock) && !Remembered(log, clock)
    ensures now >= clock && Holding(log, now) && CooldownLeft(log, now) > 0.0
    ensures Fresh(h, now) == [] && Fresh(log, now) == []
  {
    var last := log[|log| - 1];
    now := if clock > last.when + DAY then clock else last.when + DAY;
    PrunedHasSameFresh(h, log, clock, now);
    LastIsFresh(log, now);
  }

  /** ... and it opens the escape like the complete log always. */
  lemma PruningNeverHidesAnEscape(h: seq<Entry>, log: seq<Entry>, clock: real, now: real, later: real,
                                  maxPerDay: int, fullCooldown: real, window: real)
    requires Ordered(log, clock) && Pruned(h, log, clock) && clock <= now <= later
    ensures !Permitted(Fresh(h, now), now, maxPerDay)
            && EscapeOpen(Fresh(h, later), later, maxPerDay, fullCooldown, window)
            <==> !Permitted(log, now, maxPerDay) && EscapeOpen(log, later, maxPerDay, fullCooldown, window)
  {
    SameEscape(h, log, clock, later, maxPerDay, fullCooldown, window);
    if EscapeOpen(log, later, maxPerDay, fullCooldown, window) {
      SameRefusal(h, log, clock, now, later, maxPerDay);
    }
  }

  lemma SameEscape(h: seq<Entry>, log: seq<Entry>, clock: real, later: real, maxPerDay: int, fullCooldown: real,
                   window: real)
    requires Ordered(log, clock) && Pruned(h, log, clock) && clock <= later
    ensures EscapeOpen(Fresh(h, later), later, maxPerDay, fullCooldown, window)
            <==> EscapeOpen(log, later, maxPerDay, fullCooldown, window)
  {
    PrunedHasSameFresh(h, log, clock, later);
    FreshIsFresh(log, later);
    LastIsFresh(log, later);
  }

  /** While anything is fresh, pruning forgets no cooldown. */
  lemma SameRefusal(h: seq<Entry>, log: seq<Entry>, clock: real, now: real, later: real, maxPerDay: int)
    requires Ordered(log, clock) && Pruned(h, log, clock) && clock <= now <= later && Fresh(log, later) != []
    ensures Permitted(Fresh(h, now), now, maxPerDay) <==> Permitted(log, now, maxPerDay)
  {
    LastIsFresh(log, later);
    LastIsFresh(log, now);
    PrunedHasSameFresh(h, log, clock, now);
    FreshIsFresh(log, now);
  }

  /** A cooldown of 100000 s is forgotten after a day: at 90000 s the complete log still refuses,
      and what is left of it allows. */
  lemma LongCooldownIsForgotten()
    ensures var log := [Entry(0.0, 100000.0, Switch)];
            && Ordered(log, 90000.0) && Pruned([], log, 90000.0)
            && !Permitted(log, 90000.0, 4) && Permitted(Fresh(log, 90000.0), 90000.0, 4)
  {
    StaleVanish([Entry(0.0, 100000.0, Switch)], 90000.0);
  }

  /** With a cap of at least one, no refusal outlives a day after the last switch, whatever cooldown
      it armed; on the complete log that takes a cooldown of at most a day. */
  lemma RefusalEndsWithinADay(log: seq<Entry>, now: real, maxPerDay: int)
    requires Ordered(log, now) && maxPerDay >= 1
    requires log != [] ==> now - log[|log| - 1].when >= DAY
    ensures Permitted(Fresh(log, now), now, maxPerDay)
    ensures (log != [] ==> log[|log| - 1].cooldown <= DAY) ==> Permitted(log, now, maxPerDay)
  {
    OrderedIsEarlier(log, now);
    StaleVanish(log, now);
  }

  // ----- rolling windows ------------------------------------------------------------------------------------

  /** The entries in the day that starts at `from`. */
  function AllIn(log: seq<Entry>, from: real): nat {
    if log == [] then 0
    else AllIn(log[..|log| - 1], from) + if from <= log[|log| - 1].when < from + 86400.0 then 1 else 0
  }

  ghost predicate CapKept(log: seq<Entry>, cap: int) {
    forall from :: AllIn(log, from) <= cap
  }

  lemma {:induction false} DayIsFresh(log: seq<Entry>, from: real, now: real)
    requires now < from + DAY
    ensures AllIn(log, from) <= |Fresh(log, now)|
  {
    if log != [] { DayIsFresh(log[..|log| - 1], from, now); }
  }

  /** The start of a day that ends behind `now` and holds all that is fresh then. */
  lemma {:induction false} FreshDay(log: seq<Entry>, now: real) returns (from: real)
    requires Ordered(log, now)
    ensures from <= now < from + DAY && AllIn(log, from) == |Fresh(log, now)|
    ensures Fresh(log, now) != [] ==> from <= log[|log| - 1].when
  {
    LastIsFresh(log, now);
    if Fresh(log, now) == [] {
      from := now;
    } else {
      var front, last := log[..|log| - 1], log[|log| - 1];
      from := FreshDay(front, now);
      if Fresh(front, now) == [] { from := last.when; }
      DayIsFresh(front, from, now);
    }
    DayIsFresh(log, from, now);
  }

  /** One more entry keeps every half-open day within the cap exactly when there is room at its
      moment. That is the guard `allowed` asks, and a boot upgrade or an escape does not. */
  lemma RecordKeepsCapIff(log: seq<Entry>, e: Entry, cap: int)
    requires Ordered(log, e.when) && CapKept(log, cap)
    ensures CapKept(log + [e], cap) <==> |Fresh(log, e.when)| < cap
  {
    var more := log + [e];
    assert more[..|more| - 1] == log;
    if |Fresh(log, e.when)| < cap {
      forall from ensures AllIn(more, from) <= cap {
        assert AllIn(log, from) <= cap;
        if from <= e.when < from + DAY { DayIsFresh(log, from, e.when); }
      }
    } else {
      var from := FreshDay(log, e.when);
      assert AllIn(more, from) == |Fresh(log, e.when)| + 1;
    }
  }

  lemma {:induction false} FreshFades(log: seq<Entry>, now: real, later: real)
    requires now <= later
    ensures |Fresh(log, later)| <= |Fresh(log, now)|
  {
    if log != [] { FreshFades(log[..|log| - 1], now, later); }
  }

  // ----- whole runs --------------------------------------------------------------------------------------------

  /** What the agent thread does with the budget. A trip asks first and records when its switch has
      completed, which may be minutes later; a boot upgrade records without asking. A record may
      not reach the file, and a restart knows only the file. */
  datatype Op =
    | Upgrade(recorded: real, armed: real, saved: bool)
    | Trip(asked: real, askedAgain: real, window: real, recorded: real, armed: real, saved: bool)
    | Reload(at: real)

  /** An entry of the complete log, with what brought it about. */
  datatype Logged = Logged(entry: Entry, trip: bool)

  /** Everything ever recorded, which nobody keeps; the history of the process; and its file. */
  datatype Run = Run(log: seq<Logged>, history: seq<Entry>, file: seq<Entry>, clock: real)

  function Entries(log: seq<Logged>): (es: seq<Entry>)
    ensures |es| == |log| && forall i :: 0 <= i < |log| ==> es[i] == log[i].entry
  {
    seq(|log|, i requires 0 <= i < |log| => log[i].entry)
  }

  /** The entries of one kind that trips have brought about. */
  function Trips(log: seq<Logged>, kind: Kind): seq<Entry> {
    if log == [] then []
    else
      var l := log[|log| - 1];
      Trips(log[..|log| - 1], kind) + if l.trip && l.entry.kind == kind then [l.entry] else []
  }

  predicate InTime(r: Run, op: Op) {
    match op
    case Upgrade(recorded, _, _) => r.clock <= recorded
    case Trip(asked, again, _, recorded, _, _) => r.clock <= asked <= again <= recorded
    case Reload(at) => r.clock <= at
  }

  /** The decision the code reaches, by the contract of AllowedOrEscape. */
  function Decide(h: seq<Entry>, op: Op, maxPerDay: int, fullCooldown: real): Option<Kind>
    requires op.Trip?
  {
    if Permitted(Fresh(h, op.asked), op.asked, maxPerDay) then Some(Switch)
    else if EscapeOpen(h, op.askedAgain, maxPerDay, fullCooldown, op.window) then Some(Escape)
    else None
  }

  /** One entry more, in the complete log and behind the pruned history, and in the file if saved. */
  function Recorded(r: Run, l: Logged, saved: bool): Run {
    var h := Fresh(r.history, l.entry.when) + [l.entry];
    Run(r.log + [l], h, if saved then h else r.file, l.entry.when)
  }

  function Next(r: Run, op: Op, maxPerDay: int, fullCooldown: real): Run {
    match op
    case Upgrade(recorded, armed, saved) => Recorded(r, Logged(Entry(recorded, armed, Switch), false), saved)
    case Trip(_, again, _, recorded, armed, saved) =>
      var kind := Decide(r.history, op, maxPerDay, fullCooldown);
      if kind.Some? then Recorded(r, Logged(Entry(recorded, armed, kind.value), true), saved)
      else r.(history := Fresh(r.history, again), clock := again)
    case Reload(at) => r.(history := Fresh(r.file, at), clock := at)
  }

  predicate AllInTime(r: Run, ops: seq<Op>, maxPerDay: int, fullCooldown: real)
    decreases |ops|
  {
    ops != [] ==> InTime(r, ops[0])
                  && AllInTime(Next(r, ops[0], maxPerDay, fullCooldown), ops[1..], maxPerDay, fullCooldown)
  }

  function After(r: Run, ops: seq<Op>, maxPerDay: int, fullCooldown: real): Run
    decreases |ops|
  {
    if ops == [] then r else After(Next(r, ops[0], maxPerDay, fullCooldown), ops[1..], maxPerDay, fullCooldown)
  }

  // ----- the history stands for the log -------------------------------------------------------------------------

  ghost predicate Stands(r: Run) {
    Ordered(Entries(r.log), r.clock) && Pruned(r.history, Entries(r.log), r.clock)
  }

  /** A restart finds everything in the file that is still fresh, which a failed save may have cost. */
  ghost predicate LosesNothing(r: Run, op: Op) {
    op.Reload? ==> Pruned(r.file, Entries(r.log), op.at)
  }

  ghost predicate NothingLost(r: Run, ops: seq<Op>, maxPerDay: int, fullCooldown: real)
    decreases |ops|
  {
    ops != [] ==> LosesNothing(r, ops[0])
                  && NothingLost(Next(r, ops[0], maxPerDay, fullCooldown), ops[1..], maxPerDay, fullCooldown)
  }

  lemma FreshStands(h: seq<Entry>, log: seq<Entry>, clock: real, now: real)
    requires Ordered(log, clock) && Pruned(h, log, clock) && clock <= now
    ensures Ordered(log, now) && Fresh(h, now) == Fresh(log, now) && Pruned(Fresh(h, now), log, now)
  {
    PrunedHasSameFresh(h, log, clock, now);
    FreshIsPruned(log, now);
  }

  lemma RecordedStands(r: Run, l: Logged, saved: bool)
    requires Stands(r) && r.clock <= l.entry.when
    ensures Stands(Recorded(r, l, saved))
    ensures saved ==> Pruned(Recorded(r, l, saved).file, Entries(r.log + [l]), l.entry.when)
  {
    var log, e := Entries(r.log), l.entry;
    FreshStands(r.history, log, r.clock, e.when);
    assert Entries(r.log + [l]) == log + [e];
    AppendStaysValid(Fresh(r.history, e.when), log, e, e.when, log + [e]);
  }

  lemma StepStands(r: Run, op: Op, maxPerDay: int, fullCooldown: real)
    requires Stands(r) && InTime(r, op) && LosesNothing(r, op)
    ensures Stands(Next(r, op, maxPerDay, fullCooldown))
  {
    match op
    case Upgrade(recorded, armed, saved) => RecordedStands(r, Logged(Entry(recorded, armed, Switch), false), saved);
    case Trip(_, again, _, recorded, armed, saved) =>
      var kind := Decide(r.history, op, maxPerDay, fullCooldown);
      if kind.Some? {
        RecordedStands(r, Logged(Entry(recorded, armed, kind.value), true), saved);
      } else {
        FreshStands(r.history, Entries(r.log), r.clock, again);
      }
    case Reload(at) =>
      assert Ordered(Entries(r.log), at);
      FreshStands(r.file, Entries(r.log), at, at);
  }

  /** What stands for the complete log decides like the complete log pruned on the spot. */
  lemma SameDecision(r: Run, op: Op, maxPerDay: int, fullCooldown: real)
    requires Stands(r) && op.Trip? && InTime(r, op)
    ensures Decide(r.history, op, maxPerDay, fullCooldown) == Decide(Entries(r.log), op, maxPerDay, fullCooldown)
  {
    var log := Entries(r.log);
    FreshStands(r.history, log, r.clock, op.asked);
    SameLastWhenFresh(r.history, log, r.clock, op.askedAgain);
  }

  lemma SameLastWhenFresh(h: seq<Entry>, log: seq<Entry>, clock: real, now: real)
    requires Pruned(h, log, clock) && clock <= now
    ensures Fresh(h, now) == Fresh(log, now)
    ensures Fresh(log, now) != [] ==> h != [] && log != [] && h[|h| - 1] == log[|log| - 1]
  {
    PrunedHasSameFresh(h, log, clock, now);
  }

  // ----- the caps over whole runs ------------------------------------------------------------------------------

  /** How many trip entries of a kind a day may hold. */
  function MostOf(kind: Kind, maxPerDay: int): nat {
    if kind == Escape then 1 else if maxPerDay > 0 then maxPerDay else 0
  }

  ghost predicate WithinCaps(log: seq<Logged>, maxPerDay: int) {
    CapKept(Trips(log, Switch), MostOf(Switch, maxPerDay)) && CapKept(Trips(log, Escape), MostOf(Escape, maxPerDay))
  }

  /** In a run, whatever it has lost: an operation keeps every day within the cap on all switches
      exactly when it records nothing or there is room when it records. A trip let through at the
      front door by a history that stands for the log always has room, so only boot upgrades,
      escapes and lost entries can pass the cap. */
  lemma StepKeepsCapIff(r: Run, op: Op, cap: int, fullCooldown: real)
    requires Ordered(Entries(r.log), r.clock) && CapKept(Entries(r.log), cap) && InTime(r, op)
    ensures var t := Next(r, op, cap, fullCooldown);
            && (CapKept(Entries(t.log), cap) <==> t.log == r.log || |Fresh(Entries(r.log), t.clock)| < cap)
            && (Stands(r) && op.Trip? && Decide(r.history, op, cap, fullCooldown) == Some(Switch) ==>
                  CapKept(Entries(t.log), cap))
  {
    var t := Next(r, op, cap, fullCooldown);
    if t.log != r.log { LoggingKeepsCapIff(r.log, r.clock, t.log[|t.log| - 1], cap); }
    if Stands(r) && op.Trip? && Decide(r.history, op, cap, fullCooldown) == Some(Switch) {
      FrontDoorHasRoom(r, op, cap, fullCooldown);
    }
  }

  lemma FrontDoorHasRoom(r: Run, op: Op, cap: int, fullCooldown: real)
    requires Stands(r) && op.Trip? && InTime(r, op) && Decide(r.history, op, cap, fullCooldown) == Some(Switch)
    ensures |Fresh(Entries(r.log), op.recorded)| < cap
  {
    SameDecision(r, op, cap, fullCooldown);
    FreshIsFresh(Entries(r.log), op.asked);
    FreshFades(Entries(r.log), op.asked, op.recorded);
  }

  lemma LoggingKeepsCapIff(log: seq<Logged>, clock: real, l: Logged, cap: int)
    requires Ordered(Entries(log), clock) && CapKept(Entries(log), cap) && clock <= l.entry.when
    ensures CapKept(Entries(log + [l]), cap) <==> |Fresh(Entries(log), l.entry.when)| < cap
  {
    assert Entries(log + [l]) == Entries(log) + [l.entry];
    RecordKeepsCapIff(Entries(log), l.entry, cap);
  }

  /** A trip keeps its own cap, on trip switches or on escapes, exactly when the complete log has room
      for one more of its kind; nothing else touches these caps. This holds of every history. */
  lemma TripKeepsCapsIff(r: Run, op: Op, maxPerDay: int, fullCooldown: real)
    requires Ordered(Entries(r.log), r.clock) && WithinCaps(r.log, maxPerDay) && InTime(r, op)
    ensures var t := Next(r, op, maxPerDay, fullCooldown);
            WithinCaps(t.log, maxPerDay)
            <==> t.log == r.log || !op.Trip?
                 || var kind := t.log[|t.log| - 1].entry.kind;
                    |Fresh(Trips(r.log, kind), op.recorded)| < MostOf(kind, maxPerDay)
  {
    var t := Next(r, op, maxPerDay, fullCooldown);
    if t.log != r.log { LoggingKeepsTripCapsIff(r.log, r.clock, t.log[|t.log| - 1], maxPerDay); }
  }

  lemma LoggingKeepsTripCapsIff(log: seq<Logged>, clock: real, l: Logged, maxPerDay: int)
    requires Ordered(Entries(log), clock) && WithinCaps(log, maxPerDay) && clock <= l.entry.when
    ensures WithinCaps(log + [l], maxPerDay)
            <==> !l.trip || |Fresh(Trips(log, l.entry.kind), l.entry.when)| < MostOf(l.entry.kind, maxPerDay)
  {
    var kind := l.entry.kind;
    TripsGrow(log, l, Switch);
    TripsGrow(log, l, Escape);
    TripsAreOrdered(log, kind, clock);
    RecordKeepsCapIff(Trips(log, kind), l.entry, MostOf(kind, maxPerDay));
  }

  lemma TripsGrow(log: seq<Logged>, l: Logged, kind: Kind)
    ensures Trips(log + [l], kind)
         == if l.trip && l.entry.kind == kind then Trips(log, kind) + [l.entry] else Trips(log, kind)
  {
    assert (log + [l])[..|log|] == log && Trips(log, kind) + [] == Trips(log, kind);
  }

  lemma {:induction false} TripsAreOrdered(log: seq<Logged>, kind: Kind, now: real)
    requires Ordered(Entries(log), now)
    ensures Ordered(Trips(log, kind), now)
  {
    if log != [] {
      var front, l := log[..|log| - 1], log[|log| - 1];
      assert Entries(log)[..|log| - 1] == Entries(front);
      TripsAreOrdered(front, kind, l.entry.when);
      var trips := Trips(front, kind);
      assert (trips + [l.entry])[..|trips|] == trips;
      assert trips + [] == trips;
    }
  }

  lemma {:induction false} TripsAreEntries(log: seq<Logged>, kind: Kind, now: real)
    ensures |Fresh(Trips(log, kind), now)| <= |Fresh(Entries(log), now)|
  {
    if log != [] {
      var front, l := log[..|log| - 1], log[|log| - 1];
      TripsAreEntries(front, kind, now);
      FreshGrows(front, l, log, kind, now);
    }
  }

  lemma {:induction false} EscapesAreCounted(log: seq<Logged>, now: real)
    ensures |Fresh(Trips(log, Escape), now)| <= Escapes(Fresh(Entries(log), now))
  {
    if log != [] {
      var front, l := log[..|log| - 1], log[|log| - 1];
      EscapesAreCounted(front, now);
      FreshGrows(front, l, log, Escape, now);
    }
  }

  lemma FreshGrows(log: seq<Logged>, l: Logged, grown: seq<Logged>, kind: Kind, now: real)
    requires grown == log + [l]
    ensures |Fresh(Trips(grown, kind), now)|
         == |Fresh(Trips(log, kind), now)| + if l.trip && l.entry.kind == kind && now - l.entry.when < DAY then 1 else 0
    ensures |Fresh(Entries(grown), now)| == |Fresh(Entries(log), now)| + if now - l.entry.when < DAY then 1 else 0
    ensures Escapes(Fresh(Entries(grown), now))
         == Escapes(Fresh(Entries(log), now)) + if now - l.entry.when < DAY && l.entry.kind == Escape then 1 else 0
  {
    TripsGrow(log, l, kind);
    EntriesGrow(log, l);
    FreshAppends(Trips(log, kind), l.entry, now);
    FreshAppends(Entries(log), l.entry, now);
  }

  lemma EntriesGrow(log: seq<Logged>, l: Logged)
    ensures Entries(log + [l]) == Entries(log) + [l.entry]
  {}

  lemma StepStaysWithinCaps(r: Run, op: Op, maxPerDay: int, fullCooldown: real)
    requires WithinCaps(r.log, maxPerDay) && Stands(r) && InTime(r, op)
    ensures WithinCaps(Next(r, op, maxPerDay, fullCooldown).log, maxPerDay)
  {
    TripKeepsCapsIff(r, op, maxPerDay, fullCooldown);
    if op.Trip? {
      match Decide(r.history, op, maxPerDay, fullCooldown)
      case None =>
      case Some(Switch) =>
        FrontDoorHasRoom(r, op, maxPerDay, fullCooldown);
        TripsAreEntries(r.log, Switch, op.recorded);
      case Some(Escape) => EscapeHasRoom(r, op, maxPerDay, fullCooldown);
    }
  }

  lemma EscapeHasRoom(r: Run, op: Op, maxPerDay: int, fullCooldown: real)
    requires Stands(r) && op.Trip? && InTime(r, op) && Decide(r.history, op, maxPerDay, fullCooldown) == Some(Escape)
    ensures |Fresh(Trips(r.log, Escape), op.recorded)| == 0
  {
    SameDecision(r, op, maxPerDay, fullCooldown);
    EscapesAreCounted(r.log, op.askedAgain);
    FreshFades(Trips(r.log, Escape), op.askedAgain, op.recorded);
  }

  /** Over a whole run, however checks and records are spread in time and however often the process
      restarts, no half-open day holds more trip switches than the cap or more than one escape, as
      long as no restart loses an entry that is still fresh. Boot upgrades use up the cap but are
      not held to it. */
  lemma {:induction false} NoDayExceedsTheCaps(r: Run, ops: seq<Op>, maxPerDay: int, fullCooldown: real)
    requires WithinCaps(r.log, maxPerDay) && Stands(r) && AllInTime(r, ops, maxPerDay, fullCooldown)
    requires NothingLost(r, ops, maxPerDay, fullCooldown)
    ensures WithinCaps(After(r, ops, maxPerDay, fullCooldown).log, maxPerDay)
    decreases |ops|
  {
    if ops != [] {
      StepStaysWithinCaps(r, ops[0], maxPerDay, fullCooldown);
      StepStands(r, ops[0], maxPerDay, fullCooldown);
      NoDayExceedsTheCaps(Next(r, ops[0], maxPerDay, fullCooldown), ops[1..], maxPerDay, fullCooldown);
    }
  }

  predicate AllSaved(ops: seq<Op>) {
    ops == [] || ((ops[0].Reload? || ops[0].saved) && AllSaved(ops[1..]))
  }

  /** A run whose saves all work loses nothing, however often it restarts. */
  lemma {:induction false} SavesLoseNothing(r: Run, ops: seq<Op>, maxPerDay: int, fullCooldown: real)
    requires Stands(r) && Pruned(r.file, Entries(r.log), r.clock)
    requires AllSaved(ops) && AllInTime(r, ops, maxPerDay, fullCooldown)
    ensures NothingLost(r, ops, maxPerDay, fullCooldown)
    decreases |ops|
  {
    if ops != [] {
      var op, t := ops[0], Next(r, ops[0], maxPerDay, fullCooldown);
      PrunedHasSameFresh(r.file, Entries(r.log), r.clock, if op.Reload? then op.at else t.clock);
      if t.log != r.log { RecordedStands(r, t.log[|t.log| - 1], true); }
      StepStands(r, op, maxPerDay, fullCooldown);
      SavesLoseNothing(t, ops[1..], maxPerDay, fullCooldown);
    }
  }

  /** Boot upgrades alone can pass the cap on all switches, across a restart that loses nothing. */
  lemma UpgradesAreNotCapped(at: real)
    ensures var start := Run([], [], [], at);
            var ops := [Upgrade(at, 300.0, true), Reload(at + 10.0), Upgrade(at + 60.0, 300.0, true)];
            && AllInTime(start, ops, 1, 21600.0) && NothingLost(start, ops, 1, 21600.0)
            && !CapKept(Entries(After(start, ops, 1, 21600.0).log), 1)
  {
    var one, two := Upgrade(at, 300.0, true), Upgrade(at + 60.0, 300.0, true);
    var first, second := Entry(at, 300.0, Switch), Entry(at + 60.0, 300.0, Switch);
    var r0 := Run([], [], [], at);
    var r1 := Run([Logged(first, false)], [first], [first], at);
    var r2 := r1.(clock := at + 10.0);
    var r3 := Run([Logged(first, false), Logged(second, false)], [first, second], [first, second], at + 60.0);
    OneIsFresh(first, at + 10.0);
    OneIsFresh(first, at + 60.0);
    assert Next(r0, one, 1, 21600.0) == r1 && Next(r1, Reload(at + 10.0), 1, 21600.0) == r2;
    assert Next(r2, two, 1, 21600.0) == r3;
    ThreeSteps(r0, one, r1, Reload(at + 10.0), r2, two, r3, 1, 21600.0);
    assert Entries(r1.log) == [first] && Entries(r3.log) == [first, second];
    FileStandsForItself([first], at + 10.0);
    TwoInOneDay(first, second);
  }

  lemma OneIsFresh(e: Entry, now: real)
    requires now - e.when < DAY
    ensures Fresh([e], now) == [e]
  {
    assert [e][..0] == [];
  }

  lemma TwoInOneDay(first: Entry, second: Entry)
    requires first.when <= second.when < first.when + DAY
    ensures AllIn([first, second], first.when) == 2 && !CapKept([first, second], 1)
  {
    assert [first, second][..1] == [first] && [first][..0] == [];
    assert AllIn([first], first.when) == 1;
  }

  /** A lost save lets trips pass their cap: with a cap of one, a trip is recorded but not saved, the
      process restarts half a minute later, and the next trip half a minute after that is allowed. */
  lemma LostSaveForgetsATrip()
    ensures var start, trip := Run([], [], [], 0.0), Trip(0.0, 0.0, 900.0, 0.0, 0.0, false);
            var ops := [trip, Reload(30.0), Trip(60.0, 60.0, 900.0, 60.0, 0.0, true)];
            && AllInTime(start, ops, 1, 21600.0) && !NothingLost(start, ops, 1, 21600.0)
            && !WithinCaps(After(start, ops, 1, 21600.0).log, 1)
  {
    var one, two := Trip(0.0, 0.0, 900.0, 0.0, 0.0, false), Trip(60.0, 60.0, 900.0, 60.0, 0.0, true);
    var first, second := Entry(0.0, 0.0, Switch), Entry(60.0, 0.0, Switch);
    var r0 := Run([], [], [], 0.0);
    var r1 := Run([Logged(first, true)], [first], [], 0.0);
    var r2 := r1.(history := [], clock := 30.0);
    var r3 := Run([Logged(first, true), Logged(second, true)], [second], [second], 60.0);
    assert Next(r0, one, 1, 21600.0) == r1 && Next(r1, Reload(30.0), 1, 21600.0) == r2;
    assert Next(r2, two, 1, 21600.0) == r3;
    ThreeSteps(r0, one, r1, Reload(30.0), r2, two, r3, 1, 21600.0);
    assert !Pruned([], Entries(r1.log), 30.0) by { assert Entries(r1.log)[0] == first; }
    TripsGrow([], r1.log[0], Switch);
    TripsGrow(r1.log, r3.log[1], Switch);
    assert r1.log == [] + [r1.log[0]] && r3.log == r1.log + [r3.log[1]];
    assert Trips(r1.log, Switch) == [first] && Trips(r3.log, Switch) == [first, second];
    TwoInOneDay(first, second);
  }

  lemma ThreeSteps(r0: Run, a: Op, r1: Run, b: Op, r2: Run, c: Op, r3: Run, maxPerDay: int, fullCooldown: real)
    requires Next(r0, a, maxPerDay, fullCooldown) == r1 && Next(r1, b, maxPerDay, fullCooldown) == r2
    requires Next(r2, c, maxPerDay, fullCooldown) == r3
    requires InTime(r0, a) && InTime(r1, b) && InTime(r2, c)
    ensures After(r0, [a, b, c], maxPerDay, fullCooldown) == r3 && AllInTime(r0, [a, b, c], maxPerDay, fullCooldown)
    ensures NothingLost(r0, [a, b, c], maxPerDay, fullCooldown)
            <==> LosesNothing(r0, a) && LosesNothing(r1, b) && LosesNothing(r2, c)
  {
    assert [a, b, c][1..] == [b, c] && [b, c][1..] == [c];
    assert After(r2, [c], maxPerDay, fullCooldown) == After(r3, [], maxPerDay, fullCooldown);
    assert AllInTime(r2, [c], maxPerDay, fullCooldown);
    assert NothingLost(r2, [c], maxPerDay, fullCooldown) == LosesNothing(r2, c);
    assert NothingLost(r1, [b, c], maxPerDay, fullCooldown) == (LosesNothing(r1, b) && LosesNothing(r2, c));
  }
}
