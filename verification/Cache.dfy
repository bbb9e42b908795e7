/** The agent's ranking cache: memory and a local file under one lock. The document carries its
    own lease, and the cache may neither outlive it nor lose it. */
module Cache {
  import opened Wrappers

  datatype Doc = Doc(stamp: real, ttl: int, servers: seq<string>, wellFormed: bool)

  datatype File = Missing | Garbage | Holds(doc: Doc)

  /** What parsing a payload at a moment yields. */
  datatype Parsed = Invalid | Expired | Fresh(servers: seq<string>)

  const FUTURE_SKEW := 300.0
  const MAX_TTL := 2100

  function Parse(doc: Doc, now: real): Parsed {
    var age := now - doc.stamp;
    if age < -FUTURE_SKEW then Invalid
    else if doc.ttl <= 0 || doc.ttl > MAX_TTL then Invalid
    else if !doc.wellFormed || doc.servers == [] then Invalid
    else if age > doc.ttl as real then Expired
    else Fresh(doc.servers)
  }

  /** A document is usable at a moment if it is well formed, its lease is positive and no longer than 35
      minutes, and the moment lies at most five minutes before it and at most its lease behind it. */
  lemma FreshExactlyWhen(doc: Doc, now: real)
    ensures Parse(doc, now).Fresh?
            <==> && doc.wellFormed && doc.servers != []
                 && 0 < doc.ttl <= 2100
                 && doc.stamp - 300.0 <= now <= doc.stamp + doc.ttl as real
    ensures Parse(doc, now).Fresh? ==> Parse(doc, now).servers == doc.servers
    ensures Parse(doc, now).Expired?
            <==> && doc.wellFormed && doc.servers != []
                 && 0 < doc.ttl <= 2100
                 && doc.stamp + doc.ttl as real < now
  {}

  /** What outlives a call: the bytes in memory, if any, and the local file. */
  datatype State = State(payload: Option<Doc>, file: File)

  const DISCARDED := State(None, Missing)

  /** load_cache(): the state it leaves and the servers it returns. */
  function Load(s: State, now: real): (State, seq<string>) {
    if s.file.Holds? && Parse(s.file.doc, now).Fresh?
    then (State(Some(s.file.doc), s.file), s.file.doc.servers)
    else (DISCARDED, [])
  }

  /** cached_ranking(): the state it leaves and the servers it returns. */
  function Read(s: State, now: real): (State, seq<string>) {
    if s.payload.None? then Load(s, now)
    else if Parse(s.payload.value, now).Fresh? then (s, s.payload.value.servers)
    else (DISCARDED, [])
  }

  // ----- the code ------------------------------------------------------------------------------------

  class RankingCache {
    var cached: seq<string>
    var payload: Option<Doc>
    var file: File

    ghost predicate Valid()
      reads this
    {
      payload.Some? ==> cached == payload.value.servers
    }

    ghost function Contents(): State
      reads this
    {
      State(payload, file)
    }

    /** A new process on the file an earlier one left. */
    constructor (file: File)
      ensures Valid() && Contents() == State(None, file)
    {
      cached, payload, this.file := [], None, file;
    }

    /** The reader's callback, for a document it has parsed as fresh. Writing the file may fail,
        and then memory alone has the document. */
    method Adopt(doc: Doc, saveWorks: bool)
      modifies this
      ensures Valid() && Contents() == State(Some(doc), if saveWorks then Holds(doc) else old(file))
    {
      if saveWorks { file := Holds(doc); }
      payload := Some(doc);
      cached := doc.servers;
    }

    method Discard()
      modifies this
      ensures Valid() && Contents() == DISCARDED && cached == []
    {
      cached, payload, file := [], None, Missing;
    }

    method LoadCache(now: real) returns (servers: seq<string>)
      modifies this
      ensures Valid() && (Contents(), servers) == Load(old(Contents()), now)
      ensures servers == cached
      ensures servers == [] ==> payload == None && file == Missing
    {
      match file {
        case Missing =>
          cached, payload := [], None;
          servers := [];
        case Garbage =>
          Discard();
          servers := [];
        case Holds(doc) =>
          match Parse(doc, now) {
            case Fresh(rows) =>
              cached, payload, servers := rows, Some(doc), rows;
            case _ =>
              Discard();
              servers := [];
          }
      }
    }

    method CachedRanking(now: real) returns (servers: seq<string>)
      requires Valid()
      modifies this
      ensures Valid() && (Contents(), servers) == Read(old(Contents()), now)
      ensures servers == cached
      ensures servers == [] ==> payload == None && file == Missing
    {
      if payload.None? {
        servers := LoadCache(now);
        return;
      }
      var parsed := Parse(payload.value, now);
      if parsed.Fresh? {
        cached, servers := parsed.servers, parsed.servers;
      } else {
        Discard();
        servers := [];
      }
    }
  }

  // ----- runs ------------------------------------------------------------------------------------------

  /** Everything that holds the cache lock, and the death of a process. An adopted document was
      parsed as fresh some time before its adoption. */
  datatype Event =
    | Adoption(doc: Doc, parsed: real, at: real, saved: bool)
    | Loading(at: real)
    | Reading(at: real)
    | Restart(at: real)

  function Next(s: State, e: Event): State {
    match e
    case Adoption(doc, _, _, saved) => State(Some(doc), if saved then Holds(doc) else s.file)
    case Loading(at) => Load(s, at).0
    case Reading(at) => Read(s, at).0
    case Restart(_) => s.(payload := None)
  }

  function Run(s: State, es: seq<Event>): State {
    if es == [] then s else Next(Run(s, es[..|es| - 1]), es[|es| - 1])
  }

  function Clock(start: real, es: seq<Event>): real {
    if es == [] then start else es[|es| - 1].at
  }

  /** The clock does not go back, and only documents that were fresh are adopted. */
  ghost predicate Legal(start: real, es: seq<Event>) {
    es != [] ==>
      var front, last := es[..|es| - 1], es[|es| - 1];
      && Legal(start, front)
      && Clock(start, front) <= last.at
      && (last.Adoption? ==> last.parsed <= last.at && Parse(last.doc, last.parsed).Fresh?)
  }

  predicate AllSaved(es: seq<Event>) {
    es != [] ==> AllSaved(es[..|es| - 1]) && (es[|es| - 1].Adoption? ==> es[|es| - 1].saved)
  }

  /** The last document adopted in a run, by whichever process. */
  function LastAdopted(es: seq<Event>): Option<Doc> {
    if es == [] then None
    else if es[|es| - 1].Adoption? then Some(es[|es| - 1].doc)
    else LastAdopted(es[..|es| - 1])
  }

  /** What a reader is owed: the last adopted document, for as long as its own lease runs. */
  function Owed(adopted: Option<Doc>, now: real): seq<string> {
    if adopted.Some? && now <= adopted.value.stamp + adopted.value.ttl as real then adopted.value.servers else []
  }

  ghost predicate WasFresh(doc: Doc, clock: real) {
    exists t :: t <= clock && Parse(doc, t).Fresh?
  }

  /** Memory equals the file whenever it is present, and the file is the last adoption, which it
      may miss only when its lease is over. */
  ghost predicate Inv(s: State, adopted: Option<Doc>, clock: real) {
    && (s.payload.Some? ==> s.file == Holds(s.payload.value))
    && (s.file.Holds? ==> adopted == Some(s.file.doc))
    && (adopted.Some? ==> WasFresh(adopted.value, clock))
    && (adopted.Some? && Parse(adopted.value, clock).Fresh? ==> s.file.Holds?)
  }

  /** A document that was fresh is so exactly to the end of its lease, and never comes back. */
  lemma LeaseRunsOnce(doc: Doc, clock: real, now: real)
    requires WasFresh(doc, clock) && clock <= now
    ensures WasFresh(doc, now)
    ensures Parse(doc, now).Fresh? <==> now <= doc.stamp + doc.ttl as real
    ensures Parse(doc, now).Fresh? ==> Parse(doc, clock).Fresh?
  {
    var t :| t <= clock && Parse(doc, t).Fresh?;
  }

  /** The document a run is about: the last adopted, or before that the one its first process
      found in the file, if that had been fresh. */
  ghost function Held(s: State, start: real, es: seq<Event>): Option<Doc> {
    if LastAdopted(es).Some? then LastAdopted(es)
    else if s.file.Holds? && WasFresh(s.file.doc, start) then Some(s.file.doc)
    else None
  }

  lemma StepKeepsInv(s: State, adopted: Option<Doc>, clock: real, e: Event)
    requires Inv(s, adopted, clock) && clock <= e.at
    requires e.Adoption? ==> e.saved && e.parsed <= e.at && Parse(e.doc, e.parsed).Fresh?
    ensures Inv(Next(s, e), if e.Adoption? then Some(e.doc) else adopted, e.at)
  {
    if adopted.Some? { LeaseRunsOnce(adopted.value, clock, e.at); }
  }

  /** From whatever file the first process starts on. */
  lemma {:induction false} RunKeepsInv(s: State, start: real, es: seq<Event>)
    requires s.payload.None? && Legal(start, es) && AllSaved(es)
    ensures var t := Run(s, es);
            && (t.payload.Some? ==> t.file == Holds(t.payload.value))
            && (LastAdopted(es).None? && t.file.Holds? ==> t.file == s.file)
            && (Held(s, start, es).Some? ==> Inv(t, Held(s, start, es), Clock(start, es)))
  {
    if es != [] {
      var front, last := es[..|es| - 1], es[|es| - 1];
      RunKeepsInv(s, start, front);
      if Held(s, start, front).Some? {
        StepKeepsInv(Run(s, front), Held(s, start, front), Clock(start, front), last);
      }
    }
  }

  /** In every interleaving of saved adoptions, reads, loads and restarts, whatever file it starts
      on, a read and a load at any later moment return the last adopted document, or until then the one
      found fresh in the file, while its own lease runs and nothing after it; and memory, when
      present, equals the file. So a discard has never taken away a newer adoption. A file that
      had never been fresh is served at most while it is. */
  lemma CacheServesTheLastAdoption(s: State, start: real, es: seq<Event>, now: real)
    requires s.payload.None? && Legal(start, es) && AllSaved(es) && Clock(start, es) <= now
    ensures var got := Read(Run(s, es), now).1;
            && got == Load(Run(s, es), now).1
            && (Held(s, start, es).Some? ==> got == Owed(Held(s, start, es), now))
            && (LastAdopted(es).None? ==>
                  got == [] || (s.file.Holds? && Parse(s.file.doc, now).Fresh? && got == s.file.doc.servers))
    ensures Run(s, es).payload.Some? ==> Run(s, es).file == Holds(Run(s, es).payload.value)
  {
    RunKeepsInv(s, start, es);
    var held := Held(s, start, es);
    if held.Some? { LeaseRunsOnce(held.value, Clock(start, es), now); }
  }

  predicate NoAdoption(es: seq<Event>) {
    forall i :: 0 <= i < |es| ==> !es[i].Adoption?
  }

  lemma {:induction false} StaysLastAdopted(es: seq<Event>, rest: seq<Event>)
    requires NoAdoption(rest)
    ensures LastAdopted(es + rest) == LastAdopted(es)
  {
    if rest == [] {
      assert es + rest == es;
    } else {
      var front := rest[..|rest| - 1];
      StaysLastAdopted(es, front);
      assert (es + rest)[..|es + rest| - 1] == es + front;
    }
  }

  /** From its adoption on, through reads, loads and restarts, a document is served until its own
      generated_at plus ttl, and never after. */
  lemma AdoptionLastsItsLease(s: State, start: real, es: seq<Event>, adoption: Event, rest: seq<Event>, now: real)
    requires s.payload.None? && adoption.Adoption? && NoAdoption(rest)
    requires Legal(start, es + [adoption] + rest) && AllSaved(es + [adoption] + rest)
    requires Clock(start, es + [adoption] + rest) <= now
    ensures Read(Run(s, es + [adoption] + rest), now).1
            == if now <= adoption.doc.stamp + adoption.doc.ttl as real then adoption.doc.servers else []
  {
    StaysLastAdopted(es + [adoption], rest);
    CacheServesTheLastAdoption(s, start, es + [adoption] + rest, now);
  }

  // ----- when the file cannot be written ------------------------------------------------------------

  /** The documents a run can know of: the one found in the file and those adopted. */
  function Known(s: State, es: seq<Event>): set<Doc> {
    if es == [] then (if s.file.Holds? then {s.file.doc} else {})
    else Known(s, es[..|es| - 1]) + if es[|es| - 1].Adoption? then {es[|es| - 1].doc} else {}
  }

  lemma {:induction false} OnlyKnownIsKept(s: State, es: seq<Event>)
    requires s.payload.None?
    ensures var t := Run(s, es);
            && (t.payload.Some? ==> t.payload.value in Known(s, es))
            && (t.file.Holds? ==> t.file.doc in Known(s, es))
  {
    if es != [] { OnlyKnownIsKept(s, es[..|es| - 1]); }
  }

  /** Whichever saves fail, readers get nothing but a document found or adopted, inside its own lease. */
  lemma NothingIsServedPastItsLease(s: State, es: seq<Event>, now: real)
    requires s.payload.None?
    ensures var got := Read(Run(s, es), now).1;
            got == [] || exists doc :: doc in Known(s, es) && Parse(doc, now).Fresh? && got == doc.servers
  {
    OnlyKnownIsKept(s, es);
  }

  /** The last document that reached the file: found there, or adopted and saved. */
  function LastSaved(s: State, es: seq<Event>): Option<Doc> {
    if es == [] then (if s.file.Holds? then Some(s.file.doc) else None)
    else
      var last := es[|es| - 1];
      if last.Adoption? && last.saved then Some(last.doc) else LastSaved(s, es[..|es| - 1])
  }

  /** Has a read or a load come upon an unusable document, and so removed the file, since then? */
  predicate RemovedSince(s: State, es: seq<Event>) {
    es != [] &&
    var front, last := es[..|es| - 1], es[|es| - 1];
    match last
    case Adoption(_, _, _, saved) => !saved && RemovedSince(s, front)
    case Reading(at) => RemovedSince(s, front) || Read(Run(s, front), at).0 == DISCARDED
    case Loading(at) => RemovedSince(s, front) || Load(Run(s, front), at).0 == DISCARDED
    case Restart(_) => RemovedSince(s, front)
  }

  /** Whichever saves fail, the file holds the last document that reached it, unless it was removed
      since; and that is what a process serves that has restarted, inside the lease of the document. */
  lemma {:induction false} FileHoldsTheLastSaved(s: State, es: seq<Event>, now: real)
    requires s.payload.None?
    ensures var t := Run(s, es);
            && (t.file.Holds? <==> LastSaved(s, es).Some? && !RemovedSince(s, es))
            && (t.file.Holds? ==> t.file.doc == LastSaved(s, es).value)
            && (t.payload.None? ==>
                  Read(t, now).1 == if LastSaved(s, es).Some? && !RemovedSince(s, es)
                                       && Parse(LastSaved(s, es).value, now).Fresh?
                                    then LastSaved(s, es).value.servers else [])
  {
    if es != [] { FileHoldsTheLastSaved(s, es[..|es| - 1], now); }
  }

  predicate OnlyReads(es: seq<Event>) {
    es != [] ==> OnlyReads(es[..|es| - 1]) && es[|es| - 1].Reading?
  }

  lemma {:induction false} ReadsKeepOrDiscard(s: State, doc: Doc, adopted: real, rest: seq<Event>)
    requires s.payload == Some(doc) && WasFresh(doc, adopted) && OnlyReads(rest) && Legal(adopted, rest)
    ensures adopted <= Clock(adopted, rest)
    ensures Run(s, rest) == s || (Run(s, rest) == DISCARDED && Clock(adopted, rest) > doc.stamp + doc.ttl as real)
  {
    if rest != [] {
      ReadsKeepOrDiscard(s, doc, adopted, rest[..|rest| - 1]);
      LeaseRunsOnce(doc, adopted, rest[|rest| - 1].at);
    }
  }

  /** As long as its process lives, an adopted document is served exactly to the end of its lease,
      even if it could not be saved. */
  lemma MemoryServesUnsaved(s: State, adoption: Event, rest: seq<Event>, now: real)
    requires adoption.Adoption? && adoption.parsed <= adoption.at && Parse(adoption.doc, adoption.parsed).Fresh?
    requires OnlyReads(rest) && Legal(adoption.at, rest) && Clock(adoption.at, rest) <= now
    ensures Read(Run(Next(s, adoption), rest), now).1 == Owed(Some(adoption.doc), now)
  {
    assert WasFresh(adoption.doc, adoption.at);
    ReadsKeepOrDiscard(Next(s, adoption), adoption.doc, adoption.at, rest);
    LeaseRunsOnce(adoption.doc, adoption.at, now);
  }
}
