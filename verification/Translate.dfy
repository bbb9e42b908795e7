/** The subtitle state machine: a scanner and a translation worker that share one dictionary and
    interleave at every await. Every stretch of code between two awaits is one step. */
module Translate {
  import opened Wrappers

  type Id = string

  datatype Job = Job(size: int, params: string)

  datatype Phase = Search | Ready | Translated  // "search", "ready" and "translate"

  datatype Entry = Entry(phase: Phase, rounds: nat, ts: real, job: Option<Job>)

  datatype Config = Config(searchRounds: nat, roundSpacing: real, translateGrace: real)

  /** The scanner: idle, or inside a scan begun at `now`, or awaiting a provider search. */
  datatype Scan = NoScan | Scanning(now: real) | Searching(now: real, key: Id, entry: Entry)

  /** The worker: idle, or inside an attempt. `dropped` says its key has been dropped meanwhile. */
  datatype Worker = Idle | Attempting(key: Id, entry: Entry, dropped: bool)

  datatype State = State(
    entries: map<Id, Entry>,
    scan: Scan,
    worker: Worker,
    clock: real,
    base: map<Id, nat>,           // rounds a key came with; 0 when it first appears in a scan
    searches: map<Id, seq<real>>, // scan times of its successful searches since then
    ended: map<Id, real>,         // end of its last attempt, if it was wanted throughout
    tainted: set<Id>)             // bears the rounds of an attempt its key had been dropped from

  datatype Event =
    | Drop(keys: set<Id>)         // process() pops what is no longer wanted
    | BeginScan(at: real)
    | Consider(key: Id, job: Job) // one candidate, up to the search request if it needs one
    | SearchEnds(ok: bool)
    | EndScan
    | Send(at: real, key: Id)     // the worker re-checks the key and sends its job
    | AttemptEnds(at: real)

  // ----- steps ----------------------------------------------------------------------------------------

  const UNKNOWN := Entry(Search, 0, 0.0, None)

  function Get(entries: map<Id, Entry>, key: Id): Entry {
    if key in entries then entries[key] else UNKNOWN
  }

  datatype Plan = Skip | Ask(entry: Entry) | Store(entry: Entry)

  /** What process() does with one candidate. */
  function PlanFor(entry: Entry, now: real, job: Job, cfg: Config): Plan {
    if entry.phase == Translated && now - entry.ts < cfg.translateGrace then Skip
    else if entry.phase == Search && entry.rounds < cfg.searchRounds then
      if now - entry.ts < cfg.roundSpacing then Skip else Ask(entry)
    else Store(Entry(Ready, entry.rounds, now, Some(job)))
  }

  predicate Enabled(s: State, e: Event) {
    match e
    case Drop(_) => s.scan.NoScan?
    case BeginScan(at) => s.scan.NoScan? && s.clock <= at
    case Consider(_, _) => s.scan.Scanning?
    case SearchEnds(_) => s.scan.Searching?
    case EndScan => s.scan.Scanning?
    case Send(at, key) => s.worker.Idle? && s.clock <= at && key in s.entries && s.entries[key].phase == Ready
    case AttemptEnds(at) => s.worker.Attempting? && s.clock <= at
  }

  function Next(s: State, e: Event, cfg: Config): State
    requires Enabled(s, e)
  {
    match e
    case Drop(keys) =>
      s.(entries := s.entries - keys, base := s.base - keys, searches := s.searches - keys,
         ended := s.ended - keys, tainted := s.tainted - keys,
         worker := if s.worker.Attempting? && s.worker.key in keys then s.worker.(dropped := true) else s.worker)
    case BeginScan(at) => s.(scan := Scanning(at), clock := at)
    case Consider(key, job) =>
      (match PlanFor(Get(s.entries, key), s.scan.now, job, cfg)
       case Skip => s
       case Ask(entry) => Introduced(s, key).(scan := Searching(s.scan.now, key, entry))
       case Store(entry) => Introduced(s, key).(entries := s.entries[key := entry]))
    case SearchEnds(ok) =>
      var key, now, entry := s.scan.key, s.scan.now, s.scan.entry;
      var counted := if ok then entry.(rounds := entry.rounds + 1, ts := now) else entry;
      s.(entries := s.entries[key := counted], scan := Scanning(now), tainted := s.tainted - {key},
         searches := if ok then s.searches[key := Log(s.searches, key) + [now]] else s.searches)
    case EndScan => s.(scan := NoScan)
    case Send(at, key) => s.(worker := Attempting(key, s.entries[key], false), clock := at)
    case AttemptEnds(at) =>
      var key, w := s.worker.key, s.worker;
      if key !in s.entries then s.(worker := Idle, clock := at)
      else s.(entries := s.entries[key := Entry(Translated, w.entry.rounds, at, None)], worker := Idle, clock := at,
              ended := if w.dropped then s.ended else s.ended[key := at],
              tainted := if w.dropped then s.tainted + {key} else s.tainted)
  }

  function Log(searches: map<Id, seq<real>>, key: Id): seq<real> {
    if key in searches then searches[key] else []
  }

  function Base(base: map<Id, nat>, key: Id): nat {
    if key in base then base[key] else 0
  }

  /** Bookkeeping for a key that appears. */
  function Introduced(s: State, key: Id): State {
    if key in s.entries then s else s.(base := s.base[key := 0], searches := s.searches[key := []])
  }

  // ----- what every step keeps ---------------------------------------------------------------------------

  /** Translation is never asked for before the searches are done, and a ready item has its job. */
  ghost predicate Earned(entry: Entry, cfg: Config) {
    && (entry.phase != Search ==> entry.rounds >= cfg.searchRounds)
    && (entry.phase == Ready ==> entry.job.Some?)
  }

  ghost predicate Spaced(times: seq<real>, spacing: real) {
    forall i :: 0 < i < |times| ==> times[i] - times[i - 1] >= spacing
  }

  /** Rounds are the successful searches since the key came, and a searched entry bears the last. */
  ghost predicate Counted(base: map<Id, nat>, searches: map<Id, seq<real>>, key: Id, entry: Entry) {
    && entry.rounds == Base(base, key) + |Log(searches, key)|
    && (entry.phase == Search && Log(searches, key) != [] ==>
          entry.ts == Log(searches, key)[|Log(searches, key)| - 1])
  }

  ghost predicate AllEarned(entries: map<Id, Entry>, cfg: Config) {
    forall k :: k in entries ==> Earned(entries[k], cfg)
  }

  ghost predicate AllSpaced(searches: map<Id, seq<real>>, cfg: Config) {
    forall k :: k in searches ==> Spaced(searches[k], cfg.roundSpacing)
  }

  /** Every entry is counted, except those a late attempt wrote, which are past their searches. */
  ghost predicate AllCounted(entries: map<Id, Entry>, base: map<Id, nat>, searches: map<Id, seq<real>>,
                             tainted: set<Id>) {
    forall k :: k in entries ==>
      if k in tainted then entries[k].phase != Search else Counted(base, searches, k, entries[k])
  }

  /** What a scanner that awaits a search holds is what the dictionary says, unless a late attempt
      has written over it meanwhile. */
  ghost predicate ScanHolds(s: State, cfg: Config) {
    && (s.scan.Searching? ==>
          && s.scan.entry.phase == Search
          && s.scan.now - s.scan.entry.ts >= cfg.roundSpacing
          && (s.scan.key in s.entries ==>
                || s.entries[s.scan.key] == s.scan.entry
                || (s.scan.key in s.tainted && s.entries[s.scan.key].phase == Translated && s.scan.key !in s.ended))
          && Counted(s.base, s.searches, s.scan.key, s.scan.entry))
    && (s.scan.Scanning? || s.scan.Searching? ==> s.scan.now <= s.clock)
  }

  /** What a worker in an attempt holds is still ready, unless its key was dropped, and then the
      key has begun anew: no attempt has ended since, and none has written over its searches. */
  ghost predicate WorkerHolds(w: Worker, entries: map<Id, Entry>, ended: map<Id, real>, tainted: set<Id>,
                              cfg: Config)
  {
    w.Attempting? ==>
      && Earned(w.entry, cfg) && w.entry.phase == Ready
      && if w.dropped then w.key !in ended && w.key !in tainted
         else w.key in entries && entries[w.key].phase == Ready && entries[w.key].rounds == w.entry.rounds
  }

  /** Since its last attempt a wanted key rests, and leaves that only after the grace period. */
  ghost predicate Resting(entry: Entry, ended: real, clock: real, cfg: Config) {
    || (entry.phase == Translated && entry.ts == ended)
    || (entry.phase == Ready && clock - ended >= cfg.translateGrace)
  }

  ghost predicate AllResting(entries: map<Id, Entry>, ended: map<Id, real>, clock: real, cfg: Config) {
    && (forall k :: k in ended ==> k in entries && Resting(entries[k], ended[k], clock, cfg))
    && (forall k :: k in ended ==> ended[k] <= clock)
  }

  ghost predicate Inv(s: State, cfg: Config) {
    && AllEarned(s.entries, cfg)
    && AllSpaced(s.searches, cfg)
    && AllCounted(s.entries, s.base, s.searches, s.tainted)
    && ScanHolds(s, cfg)
    && WorkerHolds(s.worker, s.entries, s.ended, s.tainted, cfg)
    && AllResting(s.entries, s.ended, s.clock, cfg)
  }

  lemma DropKeepsInv(s: State, e: Event, cfg: Config)
    requires Inv(s, cfg) && Enabled(s, e) && e.Drop?
    ensures Inv(Next(s, e, cfg), cfg)
  {}

  lemma IntroducedKeepsInv(s: State, key: Id, cfg: Config)
    requires Inv(s, cfg) && s.scan.Scanning?
    ensures Inv(Introduced(s, key), cfg)
    ensures key in s.entries || Counted(Introduced(s, key).base, Introduced(s, key).searches, key, UNKNOWN)
  {}

  lemma AskKeepsInv(s: State, key: Id, entry: Entry, cfg: Config)
    requires Inv(s, cfg) && s.scan.Scanning? && entry == Get(s.entries, key)
    requires key in s.entries || Counted(s.base, s.searches, key, entry)
    requires entry.phase == Search && s.scan.now - entry.ts >= cfg.roundSpacing
    ensures Inv(s.(scan := Searching(s.scan.now, key, entry)), cfg)
  {}

  lemma StoreKeepsInv(s: State, key: Id, entry: Entry, stored: Entry, cfg: Config)
    requires Inv(s, cfg) && s.scan.Scanning? && entry == Get(s.entries, key)
    requires key in s.entries || Counted(s.base, s.searches, key, entry)
    requires stored.phase == Ready && stored.rounds == entry.rounds >= cfg.searchRounds && stored.job.Some?
    requires entry.phase == Translated ==> s.scan.now - entry.ts >= cfg.translateGrace
    requires stored.ts == s.scan.now
    ensures Inv(s.(entries := s.entries[key := stored]), cfg)
  {}

  lemma ConsiderKeepsInv(s: State, e: Event, cfg: Config)
    requires Inv(s, cfg) && Enabled(s, e) && e.Consider?
    ensures Inv(Next(s, e, cfg), cfg)
  {
    var entry := Get(s.entries, e.key);
    var plan := PlanFor(entry, s.scan.now, e.job, cfg);
    IntroducedKeepsInv(s, e.key, cfg);
    match plan
    case Skip =>
    case Ask(_) => AskKeepsInv(Introduced(s, e.key), e.key, entry, cfg);
    case Store(stored) => StoreKeepsInv(Introduced(s, e.key), e.key, entry, stored, cfg);
  }

  /** No attempt at the item being searched has ended or is held. */
  lemma SearchedIsFree(s: State, cfg: Config)
    requires Inv(s, cfg) && s.scan.Searching?
    ensures s.scan.key !in s.ended
    ensures s.worker.Attempting? && s.worker.key == s.scan.key ==> s.worker.dropped
  {}

  lemma SearchIsCounted(entries: map<Id, Entry>, base: map<Id, nat>, searches: map<Id, seq<real>>, tainted: set<Id>,
                        key: Id, held: Entry, now: real, ok: bool)
    requires AllCounted(entries, base, searches, tainted) && Counted(base, searches, key, held)
    ensures var counted := if ok then held.(rounds := held.rounds + 1, ts := now) else held;
            AllCounted(entries[key := counted], base,
                       if ok then searches[key := Log(searches, key) + [now]] else searches, tainted - {key})
  {}

  lemma SearchIsSpaced(searches: map<Id, seq<real>>, key: Id, now: real, cfg: Config)
    requires AllSpaced(searches, cfg)
    requires Log(searches, key) != [] ==>
               now - Log(searches, key)[|Log(searches, key)| - 1] >= cfg.roundSpacing
    ensures AllSpaced(searches[key := Log(searches, key) + [now]], cfg)
  {}

  lemma SearchEndsKeepsInv(s: State, e: Event, cfg: Config)
    requires Inv(s, cfg) && Enabled(s, e) && e.SearchEnds?
    ensures Inv(Next(s, e, cfg), cfg)
  {
    SearchedIsFree(s, cfg);
    SearchIsCounted(s.entries, s.base, s.searches, s.tainted, s.scan.key, s.scan.entry, s.scan.now, e.ok);
    if e.ok { SearchIsSpaced(s.searches, s.scan.key, s.scan.now, cfg); }
  }

  lemma WrittenIsCounted(entries: map<Id, Entry>, base: map<Id, nat>, searches: map<Id, seq<real>>, tainted: set<Id>,
                         key: Id, written: Entry, late: bool)
    requires AllCounted(entries, base, searches, tainted) && key in entries && written.phase != Search
    requires late || written.rounds == entries[key].rounds
    ensures AllCounted(entries[key := written], base, searches, if late then tainted + {key} else tainted)
  {}

  lemma WrittenRests(entries: map<Id, Entry>, ended: map<Id, real>, clock: real,
                     key: Id, written: Entry, late: bool, cfg: Config)
    requires AllResting(entries, ended, clock, cfg) && clock <= written.ts && written.phase == Translated
    requires late ==> key !in ended
    ensures AllResting(entries[key := written], if late then ended else ended[key := written.ts], written.ts, cfg)
  {}

  lemma AttemptEndsKeepsInv(s: State, e: Event, cfg: Config)
    requires Inv(s, cfg) && Enabled(s, e) && e.AttemptEnds?
    ensures Inv(Next(s, e, cfg), cfg)
  {
    var key, w := s.worker.key, s.worker;
    if key in s.entries {
      var written := Entry(Translated, w.entry.rounds, e.at, None);
      WrittenIsCounted(s.entries, s.base, s.searches, s.tainted, key, written, w.dropped);
      WrittenRests(s.entries, s.ended, s.clock, key, written, w.dropped, cfg);
    }
  }

  lemma StepKeepsInv(s: State, e: Event, cfg: Config)
    requires Inv(s, cfg) && Enabled(s, e)
    ensures Inv(Next(s, e, cfg), cfg)
  {
    match e
    case Drop(_) => DropKeepsInv(s, e, cfg);
    case Consider(_, _) => ConsiderKeepsInv(s, e, cfg);
    case SearchEnds(_) => SearchEndsKeepsInv(s, e, cfg);
    case AttemptEnds(_) => AttemptEndsKeepsInv(s, e, cfg);
    case _ =>
  }

  // ----- the code ----------------------------------------------------------------------------------------

  function Unwanted(entries: map<Id, Entry>, prefix: string, wanted: set<Id>): set<Id> {
    set k | k in entries && prefix <= k && k !in wanted
  }

  /** The dictionary of an earlier process: its rounds are taken as they are. */
  ghost function Loaded(entries: map<Id, Entry>, now: real): State {
    State(entries, NoScan, Idle, now, map k | k in entries :: entries[k].rounds, map[], map[], {})
  }

  class Tracker {
    const cfg: Config
    var entries: map<Id, Entry>  // the module's `state` dictionary
    ghost var state: State

    ghost predicate Valid()
      reads this
    {
      entries == state.entries && Inv(state, cfg)
    }

    constructor (cfg: Config, entries: map<Id, Entry>, now: real)
      requires forall k :: k in entries ==> Earned(entries[k], cfg)
      ensures Valid() && this.cfg == cfg && state == Loaded(entries, now)
    {
      this.cfg, this.entries := cfg, entries;
      state := Loaded(entries, now);
    }

    /** The head of process(): pop this kind's keys that are no longer wanted. */
    method DropUnwanted(prefix: string, wanted: set<Id>)
      requires Valid() && state.scan.NoScan?
      modifies this
      ensures Valid() && state == Next(old(state), Drop(Unwanted(old(entries), prefix, wanted)), cfg)
      ensures forall k :: k in entries <==> k in old(entries) && (prefix <= k ==> k in wanted)
      ensures forall k :: k in entries ==> entries[k] == old(entries)[k]
    {
      var gone := Unwanted(entries, prefix, wanted);
      StepKeepsInv(state, Drop(gone), cfg);
      state := Next(state, Drop(gone), cfg);
      ghost var before := entries;
      var todo := gone;
      while todo != {}
        invariant todo <= gone
        invariant entries == before - (gone - todo)
        invariant state == Next(old(state), Drop(gone), cfg) && Inv(state, cfg)
      {
        var key :| key in todo;
        entries := entries - {key};
        todo := todo - {key};
        assert gone - todo == (gone - (todo + {key})) + {key};
      }
    }

    /** One candidate of a scan. Some(entry) means the provider search is now awaited. */
    method ConsiderCandidate(key: Id, job: Job, now: real) returns (asked: Option<Entry>)
      requires Valid() && state.scan == Scanning(now)
      modifies this
      ensures Valid() && state == Next(old(state), Consider(key, job), cfg)
      ensures asked == if state.scan.Searching? then Some(state.scan.entry) else None
    {
      StepKeepsInv(state, Consider(key, job), cfg);
      state := Next(state, Consider(key, job), cfg);
      var entry := if key in entries then entries[key] else Entry(Search, 0, 0.0, None);
      if entry.phase == Translated {
        if now - entry.ts < cfg.translateGrace { return None; }
        entry := Entry(Ready, entry.rounds, now, None);
      }
      if entry.phase == Search && entry.rounds < cfg.searchRounds {
        if now - entry.ts < cfg.roundSpacing { return None; }
        return Some(entry);
      }
      entry := Entry(Ready, entry.rounds, now, Some(job));
      entries := entries[key := entry];
      asked := None;
    }

    /** Behind the awaited search. */
    method SearchEnded(key: Id, asked: Entry, ok: bool, now: real)
      requires Valid() && state.scan == Searching(now, key, asked)
      modifies this
      ensures Valid() && state == Next(old(state), SearchEnds(ok), cfg)
      ensures entries == old(entries)[key := if ok then Entry(Search, asked.rounds + 1, now, asked.job) else asked]
    {
      StepKeepsInv(state, SearchEnds(ok), cfg);
      state := Next(state, SearchEnds(ok), cfg);
      var entry := asked;
      if ok { entry := entry.(rounds := entry.rounds + 1, ts := now); }
      entries := entries[key := entry];
    }

    /** The worker's choice: the smallest ready item, if there is one. */
    method PickReady() returns (pick: Option<Id>)
      requires Valid()
      ensures pick.None? ==> forall k :: k in entries ==> entries[k].phase != Ready
      ensures pick.Some? ==> pick.value in entries && entries[pick.value].phase == Ready
      ensures pick.Some? ==> forall k :: k in entries && entries[k].phase == Ready ==>
                entries[k].job.Some? && entries[pick.value].job.value.size <= entries[k].job.value.size
    {
      pick := None;
      var todo := entries.Keys;
      while todo != {}
        invariant todo <= entries.Keys
        invariant pick.None? ==> forall k :: k in entries && k !in todo ==> entries[k].phase != Ready
        invariant pick.Some? ==> pick.value in entries && entries[pick.value].phase == Ready
        invariant pick.Some? ==> forall k :: k in entries && k !in todo && entries[k].phase == Ready ==>
                    entries[pick.value].job.value.size <= entries[k].job.value.size
      {
        var key :| key in todo;
        if entries[key].phase == Ready
           && (pick.None? || entries[key].job.value.size < entries[pick.value].job.value.size)
        {
          pick := Some(key);
        }
        todo := todo - {key};
      }
    }

    /** Behind the look at the job queue: is the pick still ready? If so its job is sent. */
    method TrySend(key: Id, at: real) returns (sent: Option<Entry>)
      requires Valid() && state.worker.Idle? && state.clock <= at
      modifies this`state
      ensures Valid()
      ensures sent == if key in entries && entries[key].phase == Ready then Some(entries[key]) else None
      ensures state == if sent.Some? then Next(old(state), Send(at, key), cfg) else old(state)
    {
      if key !in entries || entries[key].phase != Ready { return None; }
      StepKeepsInv(state, Send(at, key), cfg);
      state := Next(state, Send(at, key), cfg);
      sent := Some(entries[key]);
    }

    method AttemptEnded(key: Id, sent: Entry, at: real)
      requires Valid() && state.clock <= at
      requires state.worker.Attempting? && state.worker.key == key && state.worker.entry == sent
      modifies this
      ensures Valid() && state == Next(old(state), AttemptEnds(at), cfg)
      ensures entries == if key in old(entries) then old(entries)[key := Entry(Translated, sent.rounds, at, None)]
                         else old(entries)
    {
      StepKeepsInv(state, AttemptEnds(at), cfg);
      state := Next(state, AttemptEnds(at), cfg);
      if key in entries {
        entries := entries[key := Entry(Translated, sent.rounds, at, None)];
      }
    }
  }

  // ----- runs ----------------------------------------------------------------------------------------------

  ghost predicate Legal(s: State, es: seq<Event>, cfg: Config)
    decreases |es|
  {
    es != [] ==> Enabled(s, es[0]) && Legal(Next(s, es[0], cfg), es[1..], cfg)
  }

  ghost function Run(s: State, es: seq<Event>, cfg: Config): State
    requires Legal(s, es, cfg)
    decreases |es|
  {
    if es == [] then s else Run(Next(s, es[0], cfg), es[1..], cfg)
  }

  lemma {:induction false} RunKeepsInv(s: State, es: seq<Event>, cfg: Config)
    requires Inv(s, cfg) && Legal(s, es, cfg)
    ensures Inv(Run(s, es, cfg), cfg)
    decreases |es|
  {
    if es != [] {
      StepKeepsInv(s, es[0], cfg);
      RunKeepsInv(Next(s, es[0], cfg), es[1..], cfg);
    }
  }

  /** In every interleaving: an item is ready, being translated or past it only with the required
      rounds, a ready one has its size and job, the successful searches of an item are at least
      the spacing apart, and its rounds are exactly those searches. The last holds of every item
      that still searches; past that, of all but those a late attempt has written over. */
  lemma SearchesComeFirst(entries: map<Id, Entry>, now: real, es: seq<Event>, cfg: Config, key: Id)
    requires forall k :: k in entries ==> Earned(entries[k], cfg)
    requires Legal(Loaded(entries, now), es, cfg)
    requires key in Run(Loaded(entries, now), es, cfg).entries
    ensures var s := Run(Loaded(entries, now), es, cfg);
            && (s.entries[key].phase != Search ==> s.entries[key].rounds >= cfg.searchRounds)
            && (s.entries[key].phase == Ready ==> s.entries[key].job.Some?)
            && Spaced(Log(s.searches, key), cfg.roundSpacing)
            && (s.entries[key].phase == Search || key !in s.tainted ==>
                  s.entries[key].rounds == Base(s.base, key) + |Log(s.searches, key)|)
  {
    RunKeepsInv(Loaded(entries, now), es, cfg);
  }

  /** The successful searches an item has behind it. */
  function Done(s: State, key: Id): nat {
    if key in s.entries then Base(s.base, key) + |Log(s.searches, key)| else 0
  }

  /** The last of them, or, if this process has made none, what the entry came with. */
  function LastSearch(s: State, key: Id): real {
    if key !in s.entries then 0.0
    else if Log(s.searches, key) == [] then s.entries[key].ts
    else Log(s.searches, key)[|Log(s.searches, key)| - 1]
  }

  predicate StillSearches(s: State, key: Id) {
    key in s.entries ==> s.entries[key].phase == Search
  }

  /** A wanted item that a scan comes to is searched exactly when it lacks searches and the last is the spacing
      ago; it is made ready, with the job of this scan, exactly when it lacks none and does not rest from
      an attempt within the grace period; and otherwise nothing happens. */
  lemma ConsideredExactly(s: State, key: Id, job: Job, cfg: Config)
    requires Inv(s, cfg) && s.scan.Scanning? && key !in s.tainted
    ensures var t, now := Next(s, Consider(key, job), cfg), s.scan.now;
            var lacks := StillSearches(s, key) && Done(s, key) < cfg.searchRounds;
            var rests := key in s.entries && s.entries[key].phase == Translated
                         && now < s.entries[key].ts + cfg.translateGrace;
            && (t.scan.Searching? <==> lacks && now >= LastSearch(s, key) + cfg.roundSpacing)
            && (t.scan.Searching? ==> t.scan.key == key && t.entries == s.entries)
            && (!lacks && !rests ==> t.entries == s.entries[key := Entry(Ready, Done(s, key), now, Some(job))])
            && (!t.scan.Searching? && (lacks || rests) ==> t == s)
  {}

  predicate NeverDrops(es: seq<Event>, key: Id) {
    es == [] || (!(es[0].Drop? && key in es[0].keys) && NeverDrops(es[1..], key))
  }

  lemma StepStaysWanted(s: State, e: Event, cfg: Config, key: Id)
    requires Inv(s, cfg) && Enabled(s, e) && !(e.Drop? && key in e.keys) && key in s.ended
    ensures var t := Next(s, e, cfg);
            key in t.ended && t.ended[key] >= s.ended[key]
  {}

  lemma {:induction false} StaysWanted(s: State, es: seq<Event>, cfg: Config, key: Id)
    requires Inv(s, cfg) && Legal(s, es, cfg) && NeverDrops(es, key) && key in s.ended
    ensures var t := Run(s, es, cfg);
            key in t.ended && t.ended[key] >= s.ended[key]
    decreases |es|
  {
    if es != [] {
      StepKeepsInv(s, es[0], cfg);
      StepStaysWanted(s, es[0], cfg, key);
      StaysWanted(Next(s, es[0], cfg), es[1..], cfg, key);
    }
  }

  /** An item wanted throughout is sent again only after the grace period from the end of its last
      attempt, whatever the scanner and the worker do in between. */
  lemma SentAgainOnlyAfterGrace(s: State, es: seq<Event>, cfg: Config, key: Id, ended: real, again: real)
    requires Inv(s, cfg) && s.worker.Attempting? && s.worker.key == key && !s.worker.dropped
    requires s.clock <= ended && Legal(s, [AttemptEnds(ended)] + es, cfg) && NeverDrops(es, key)
    requires Enabled(Run(s, [AttemptEnds(ended)] + es, cfg), Send(again, key))
    ensures again - ended >= cfg.translateGrace
  {
    var e := AttemptEnds(ended);
    assert ([e] + es)[1..] == es;
    StepKeepsInv(s, e, cfg);
    var t := Next(s, e, cfg);
    RunKeepsInv(t, es, cfg);
    StaysWanted(t, es, cfg, key);
  }

  predicate NeverSends(es: seq<Event>, key: Id) {
    es == [] || (!(es[0].Send? && es[0].key == key) && NeverSends(es[1..], key))
  }

  /** An item whose last attempt has ended, and with no other under way. */
  ghost predicate AtRest(s: State, key: Id, ended: real, rounds: nat) {
    && key in s.ended && s.ended[key] == ended
    && key in s.entries && s.entries[key].rounds == rounds
    && (s.worker.Attempting? ==> s.worker.key != key)
  }

  lemma StepStaysAtRest(s: State, e: Event, cfg: Config, key: Id, ended: real, rounds: nat)
    requires Inv(s, cfg) && Enabled(s, e) && AtRest(s, key, ended, rounds)
    requires !(e.Drop? && key in e.keys) && !(e.Send? && e.key == key)
    ensures AtRest(Next(s, e, cfg), key, ended, rounds)
  {
    if e.SearchEnds? { SearchedIsFree(s, cfg); }
  }

  lemma {:induction false} StaysAtRest(s: State, es: seq<Event>, cfg: Config, key: Id, ended: real, rounds: nat)
    requires Inv(s, cfg) && Legal(s, es, cfg) && NeverDrops(es, key) && NeverSends(es, key)
    requires AtRest(s, key, ended, rounds)
    ensures AtRest(Run(s, es, cfg), key, ended, rounds)
    decreases |es|
  {
    if es != [] {
      StepKeepsInv(s, es[0], cfg);
      StepStaysAtRest(s, es[0], cfg, key, ended, rounds);
      StaysAtRest(Next(s, es[0], cfg), es[1..], cfg, key, ended, rounds);
    }
  }

  /** From the end of its attempt on, an item still wanted comes out of a scan ready, with the rounds
      it had and the job of that scan, as soon as the grace period is over; unless it has become ready
      before, it does so only then. */
  lemma ReadyAgainAfterGrace(s: State, es: seq<Event>, cfg: Config, key: Id, ended: real, job: Job)
    requires Inv(s, cfg) && s.worker.Attempting? && s.worker.key == key && !s.worker.dropped
    requires s.clock <= ended && Legal(s, [AttemptEnds(ended)] + es, cfg)
    requires NeverDrops(es, key) && NeverSends(es, key)
    requires Run(s, [AttemptEnds(ended)] + es, cfg).scan.Scanning?
    ensures var t := Run(s, [AttemptEnds(ended)] + es, cfg);
            var u := Next(t, Consider(key, job), cfg);
            && key in t.entries
            && if t.entries[key].phase == Ready || t.scan.now - ended >= cfg.translateGrace
               then u.entries == t.entries[key := Entry(Ready, s.entries[key].rounds, t.scan.now, Some(job))]
               else u == t && t.entries[key].phase == Translated
  {
    var e := AttemptEnds(ended);
    assert ([e] + es)[1..] == es;
    StepKeepsInv(s, e, cfg);
    var next := Next(s, e, cfg);
    RunKeepsInv(next, es, cfg);
    StaysAtRest(next, es, cfg, key, ended, s.entries[key].rounds);
  }

  /** The worker never brings a key back: it writes what is there and leaves alone what is not. */
  lemma WorkerNeverAddsKeys(s: State, e: Event, cfg: Config)
    requires Enabled(s, e) && (e.Send? || e.AttemptEnds?)
    ensures Next(s, e, cfg).entries.Keys == s.entries.Keys
    ensures e.AttemptEnds? && s.worker.key !in s.entries ==> Next(s, e, cfg).entries == s.entries
  {}

  /** Are the rounds of a key, if it is there, its searches? */
  predicate Honest(s: State, key: Id) {
    key in s.entries ==> s.entries[key].rounds == Base(s.base, key) + |Log(s.searches, key)|
  }

  /** The end of an attempt leaves the rounds of an item honest exactly when its key is gone, or they
      were honest and the key was not dropped during the attempt or has by chance as many rounds as
      before. It changes no other count. */
  lemma AttemptKeepsCountIff(s: State, at: real, cfg: Config)
    requires Inv(s, cfg) && Enabled(s, AttemptEnds(at))
    ensures var key, t := s.worker.key, Next(s, AttemptEnds(at), cfg);
            && (Honest(t, key)
                <==> || key !in s.entries
                     || (Honest(s, key) && (!s.worker.dropped || s.worker.entry.rounds == s.entries[key].rounds)))
            && (forall k :: k != key ==> (Honest(t, k) <==> Honest(s, k)))
  {}

  lemma Follow(s: State, e: Event, t: State, es: seq<Event>, cfg: Config)
    requires Enabled(s, e) && Next(s, e, cfg) == t && Legal(t, es, cfg)
    ensures Legal(s, [e] + es, cfg) && Run(s, [e] + es, cfg) == Run(t, es, cfg)
  {
    assert ([e] + es)[1..] == es;
  }

  /** A scan that begins while the worker is still at an attempt of an item since dropped. */
  function Rewanted(key: Id, ready: Entry): State {
    State(map[], Scanning(1001.0), Attempting(key, ready, true), 1001.0, map[], map[], map[], {})
  }

  /** The item is searched once, and then its old attempt ends. */
  lemma LateAttempt(key: Id, job: Job, ready: Entry, cfg: Config) returns (es: seq<Event>)
    requires cfg == Config(3, 10.0, 100.0) && ready == Entry(Ready, 3, 0.0, Some(job))
    ensures Legal(Rewanted(key, ready), es, cfg)
    ensures var t := Run(Rewanted(key, ready), es, cfg);
            && t.entries == map[key := Entry(Translated, 3, 1002.0, None)]
            && Log(t.searches, key) == [1001.0] && Base(t.base, key) == 0
  {
    var begun := Rewanted(key, ready);
    var asked := begun.(scan := Searching(1001.0, key, UNKNOWN), base := map[key := 0], searches := map[key := []]);
    var counted := begun.(base := map[key := 0], searches := map[key := [1001.0]],
                          entries := map[key := Entry(Search, 1, 1001.0, None)]);
    var ended := counted.(entries := map[key := Entry(Translated, 3, 1002.0, None)], worker := Idle,
                          clock := 1002.0, tainted := {key});
    assert Log(asked.searches, key) + [1001.0] == [1001.0];
    Follow(counted, AttemptEnds(1002.0), ended, [], cfg);
    es := [AttemptEnds(1002.0)] + [];
    assert Next(asked, SearchEnds(true), cfg) == counted;
    Follow(asked, SearchEnds(true), counted, es, cfg);
    es := [SearchEnds(true)] + es;
    assert Next(begun, Consider(key, job), cfg) == asked;
    Follow(begun, Consider(key, job), asked, es, cfg);
    es := [Consider(key, job)] + es;
  }

  /** Dropped and wanted again during an attempt, an item passes for searched three times after
      one search. */
  lemma OneSearchCanPassForThree(key: Id, job: Job) returns (es: seq<Event>)
    ensures var cfg := Config(3, 10.0, 100.0);
            var start := Loaded(map[key := Entry(Ready, 3, 0.0, Some(job))], 1000.0);
            && Legal(start, es, cfg)
            && Run(start, es, cfg).entries == map[key := Entry(Translated, 3, 1002.0, None)]
            && Log(Run(start, es, cfg).searches, key) == [1001.0]
            && Base(Run(start, es, cfg).base, key) == 0
  {
    var cfg, ready := Config(3, 10.0, 100.0), Entry(Ready, 3, 0.0, Some(job));
    var start := Loaded(map[key := ready], 1000.0);
    var sent := start.(worker := Attempting(key, ready, false));
    var dropped := Rewanted(key, ready).(scan := NoScan, clock := 1000.0);
    es := LateAttempt(key, job, ready, cfg);
    Follow(dropped, BeginScan(1001.0), Rewanted(key, ready), es, cfg);
    es := [BeginScan(1001.0)] + es;
    assert Next(sent, Drop({key}), cfg) == dropped;
    Follow(sent, Drop({key}), dropped, es, cfg);
    es := [Drop({key})] + es;
    Follow(start, Send(1000.0, key), sent, es, cfg);
    es := [Send(1000.0, key)] + es;
  }
}
