/** The scorer's two-file protocol: a base journal written before every public ranking, so that a
    restart finds the measured base behind whatever ranking consumers actually have. */
module Picker {
  import opened Wrappers
  import opened Ejections
  import opened Text

  /** A ranking document. Stamps have a resolution of one second. */
  datatype Doc = Doc(stamp: int, ttl: int, servers: seq<Row>)

  datatype Base = Base(stamp: int, servers: seq<Row>)

  datatype Stored<T> = Missing | Garbage | Parsed(content: T)

  datatype Config = Config(ttl: int, maxFraction: Fraction)

  /** Everything the scorer owns: two files and the part of its memory they are checked against. */
  datatype Snapshot = Snapshot(ranking: Stored<Doc>, journal: Stored<seq<Base>>,
                               payload: Option<Doc>, baseServers: seq<Row>, baseStamp: Option<int>)

  predicate ValidRow(row: Row) {
    && row.name != ""
    && 0.0 <= row.lossPct <= 100.0
    && 0.0 <= row.rttMs
    && 0 <= row.load <= 100
    && 0 < row.bwMax
    && 0 <= row.headroom <= row.bwMax
  }

  ghost predicate ValidRows(rows: seq<Row>) {
    rows != [] && (forall row :: row in rows ==> ValidRow(row)) && UniqueNames(rows)
  }

  ghost predicate ValidDoc(doc: Doc) {
    doc.ttl > 0 && ValidRows(doc.servers)
  }

  /** What a reader of the ranking file gets. */
  ghost function Ranking(s: Snapshot): Option<Doc> {
    if s.ranking.Parsed? && ValidDoc(s.ranking.content) then Some(s.ranking.content) else None
  }

  ghost predicate ReadableJournal(journal: Stored<seq<Base>>) {
    && journal.Parsed?
    && 1 <= |journal.content| <= 2
    && forall b :: b in journal.content ==> ValidRows(b.servers)
  }

  /** The first journalled base that could have produced this public ranking. */
  ghost function FirstMatch(bases: seq<Base>, doc: Doc): Option<Base> {
    if bases == [] then None
    else if bases[0].stamp == doc.stamp && RankedSubset(doc.servers, bases[0].servers) then Some(bases[0])
    else FirstMatch(bases[1..], doc)
  }

  ghost function Recovered(s: Snapshot): Option<Base> {
    if Ranking(s).Some? && ReadableJournal(s.journal) then FirstMatch(s.journal.content, Ranking(s).value)
    else None
  }

  function BaseOf(s: Snapshot): Option<Base> {
    if s.baseServers != [] && s.baseStamp.Some? then Some(Base(s.baseStamp.value, s.baseServers)) else None
  }

  /** The candidate first, then the base behind the ranking consumers have. */
  function BuildJournal(candidate: Base, served: Option<Base>): (bases: seq<Base>)
    ensures 1 <= |bases| <= 2
  {
    [candidate] + if served.Some? && served.value != candidate then [served.value] else []
  }

  // ----- steps ---------------------------------------------------------------------------------------

  ghost function Booted(s: Snapshot): Snapshot {
    var base := Recovered(s);
    s.(payload := Ranking(s),
       baseServers := if base.Some? then base.value.servers else [],
       baseStamp := if base.Some? then Some(base.value.stamp) else None)
  }

  ghost function PublicDoc(base: Base, files: seq<FileRead>, cfg: Config): Doc {
    Doc(base.stamp, cfg.ttl, Kept(base.servers, Documents(files), cfg.maxFraction))
  }

  /** Does a score cycle get as far as writing its journal, and is it written? A cycle whose
      verdicts leave nothing dies before that, on naming its winner. */
  ghost predicate Journals(measured: Base, files: seq<FileRead>, cfg: Config, journalOk: bool) {
    journalOk && measured.servers != [] && PublicDoc(measured, files, cfg).servers != []
  }

  /** A score cycle in which each publication applied or raised. */
  ghost function Cycled(s: Snapshot, measured: Base, files: seq<FileRead>, cfg: Config,
                        journalOk: bool, rankingOk: bool): Snapshot
  {
    if !Journals(measured, files, cfg, journalOk) then s
    else
      var written := s.(journal := Parsed(BuildJournal(measured, BaseOf(s))));
      if !rankingOk then written
      else
        var doc := PublicDoc(measured, files, cfg);
        written.(ranking := Parsed(doc), payload := Some(doc),
                 baseServers := measured.servers, baseStamp := Some(measured.stamp))
  }

  ghost function RefreshedDoc(s: Snapshot, files: seq<FileRead>, cfg: Config): Option<Doc> {
    if BaseOf(s).Some? then Some(PublicDoc(BaseOf(s).value, files, cfg)) else None
  }

  ghost function Refreshed(s: Snapshot, files: seq<FileRead>, cfg: Config, rankingOk: bool): Snapshot {
    var doc := RefreshedDoc(s, files, cfg);
    if doc.None? || doc == s.payload || !rankingOk then s
    else s.(ranking := Parsed(doc.value), payload := doc)
  }

  // ----- the code ------------------------------------------------------------------------------------

  method ValidateRows(rows: seq<Row>) returns (ok: bool)
    ensures ok <==> ValidRows(rows)
    ensures ok <==> rows != [] && (forall i, j :: 0 <= i < j < |rows| ==> Lower(rows[i].name) != Lower(rows[j].name))
                    && forall row :: row in rows ==>
                         row.name != "" && 0.0 <= row.lossPct <= 100.0 && 0.0 <= row.rttMs && 0 <= row.load <= 100
                         && 0 < row.bwMax && 0 <= row.headroom <= row.bwMax
  {
    if rows == [] { return false; }
    var seen: set<string> := {};
    for n := 0 to |rows|
      invariant forall row :: row in rows[..n] ==> ValidRow(row)
      invariant UniqueNames(rows[..n])
      invariant forall k :: k in seen <==> exists i :: 0 <= i < n && Key(rows[i]) == k
    {
      assert rows[..n + 1] == rows[..n] + [rows[n]];
      if !ValidRow(rows[n]) { return false; }
      if Key(rows[n]) in seen {
        var i :| 0 <= i < n && Key(rows[i]) == Key(rows[n]);
        return false;
      }
      seen := seen + {Key(rows[n])};
    }
    assert rows[..|rows|] == rows;
    ok := true;
  }

  class Scorer {
    var ranking: Stored<Doc>
    var journal: Stored<seq<Base>>
    var payload: Option<Doc>
    var baseServers: seq<Row>
    var baseStamp: Option<int>

    function View(): Snapshot
      reads this
    {
      Snapshot(ranking, journal, payload, baseServers, baseStamp)
    }

    /** A new process: empty memory, then whatever the files still say. */
    constructor (ranking: Stored<Doc>, journal: Stored<seq<Base>>)
      ensures View() == Booted(Snapshot(ranking, journal, None, [], None))
      ensures this.ranking == ranking && this.journal == journal
    {
      this.ranking, this.journal := ranking, journal;
      payload, baseServers, baseStamp := None, [], None;
      new;
      LoadExisting();
    }

    method LoadPersistedBase(doc: Doc) returns (base: Option<Base>)
      requires Ranking(View()) == Some(doc)
      ensures base == Recovered(View())
      ensures base.Some? ==> journal.Parsed? && 1 <= |journal.content| <= 2 && base.value in journal.content
                             && base.value.stamp == doc.stamp && RankedSubset(doc.servers, base.value.servers)
      ensures base.None? && journal.Parsed? && 1 <= |journal.content| <= 2
              && (forall b :: b in journal.content ==> ValidRows(b.servers)) ==>
                forall b :: b in journal.content && b.stamp == doc.stamp ==> !RankedSubset(doc.servers, b.servers)
    {
      if !journal.Parsed? || !(1 <= |journal.content| <= 2) { return None; }
      var bases := journal.content;
      for n := 0 to |bases|
        invariant forall i :: 0 <= i < n ==> ValidRows(bases[i].servers)
      {
        var ok := ValidateRows(bases[n].servers);
        if !ok {
          assert bases[n] in bases;
          return None;
        }
      }
      for n := 0 to |bases|
        invariant FirstMatch(bases, doc) == FirstMatch(bases[n..], doc)
        invariant forall i :: 0 <= i < n && bases[i].stamp == doc.stamp ==> !RankedSubset(doc.servers, bases[i].servers)
      {
        var matches := IsRankedSubset(doc.servers, bases[n].servers);
        if bases[n].stamp == doc.stamp && matches { return Some(bases[n]); }
      }
      base := None;
    }

    method LoadExisting()
      requires payload == None && baseServers == [] && baseStamp == None
      modifies this
      ensures View() == Booted(old(View()))
      ensures ranking == old(ranking) && journal == old(journal)
      ensures payload == if ranking.Parsed? && ranking.content.ttl > 0 && ValidRows(ranking.content.servers)
                         then Some(ranking.content) else None
    {
      if !ranking.Parsed? { return; }
      var doc := ranking.content;
      var ok := ValidateRows(doc.servers);
      if !ok || doc.ttl <= 0 { return; }
      var base := LoadPersistedBase(doc);
      payload := Some(doc);
      baseServers := if base.Some? then base.value.servers else [];
      baseStamp := if base.Some? then Some(base.value.stamp) else None;
    }

    method RefreshEjections(files: seq<FileRead>, cfg: Config, rankingOk: bool) returns (changed: bool)
      modifies this
      ensures View() == Refreshed(old(View()), files, cfg, rankingOk)
      ensures changed <==> View() != old(View())
      ensures journal == old(journal) && baseServers == old(baseServers) && baseStamp == old(baseStamp)
      ensures changed ==> rankingOk && baseStamp.Some? && payload.Some? && ranking == Parsed(payload.value)
                          && payload.value == Doc(baseStamp.value, cfg.ttl,
                                                  Kept(baseServers, Documents(files), cfg.maxFraction))
    {
      if baseServers == [] || baseStamp.None? { return false; }
      var verdicts := LoadActiveVerdicts(files);
      var kept, ejected, capped := ApplyEjections(baseServers, verdicts, cfg.maxFraction);
      MergingIsInvisible(baseServers, Documents(files), verdicts, cfg.maxFraction);
      var doc := Doc(baseStamp.value, cfg.ttl, kept);
      changed := Some(doc) != payload;
      if changed {
        if !rankingOk { return false; }
        ranking := Parsed(doc);
      }
      payload := Some(doc);
    }

    /** `measured` is what survived the loss gate; the probes before it are inputs. */
    method RunCycle(measured: seq<Row>, stamp: int, files: seq<FileRead>, cfg: Config,
                    journalOk: bool, rankingOk: bool) returns (published: bool)
      modifies this
      ensures View() == Cycled(old(View()), Base(stamp, measured), files, cfg, journalOk, rankingOk)
      ensures published <==> Journals(Base(stamp, measured), files, cfg, journalOk) && rankingOk
      ensures published ==> payload.Some? && ranking == Parsed(payload.value)
                            && payload.value == Doc(stamp, cfg.ttl,
                                                    Kept(measured, Documents(files), cfg.maxFraction))
    {
      if measured == [] { return false; }
      var verdicts := LoadActiveVerdicts(files);
      var kept, ejected, capped := ApplyEjections(measured, verdicts, cfg.maxFraction);
      MergingIsInvisible(measured, Documents(files), verdicts, cfg.maxFraction);
      if kept == [] { return false; }
      var doc := Doc(stamp, cfg.ttl, kept);
      var bases := [Base(stamp, measured)];
      if baseServers != [] && baseStamp.Some? && (baseStamp.value != stamp || baseServers != measured) {
        bases := bases + [Base(baseStamp.value, baseServers)];
      }
      assert bases == BuildJournal(Base(stamp, measured), BaseOf(View()));
      if !journalOk { return false; }
      journal := Parsed(bases);
      if !rankingOk { return false; }
      ranking := Parsed(doc);
      payload := Some(doc);
      baseServers := measured;
      baseStamp := Some(stamp);
      published := true;
    }
  }

  // ----- runs ------------------------------------------------------------------------------------------

  /** Killed steps reach the disk as far as their flags say and then lose the memory. */
  datatype Event =
    | Cycle(measured: Base, files: seq<FileRead>, cfg: Config, journalOk: bool, rankingOk: bool)
    | KilledCycle(measured: Base, files: seq<FileRead>, cfg: Config, journalOk: bool, rankingOk: bool)
    | Refresh(files: seq<FileRead>, cfg: Config, rankingOk: bool)
    | KilledRefresh(files: seq<FileRead>, cfg: Config, rankingOk: bool)
    | Restart

  ghost function Next(s: Snapshot, e: Event): Snapshot {
    match e
    case Cycle(m, files, cfg, j, r) => Cycled(s, m, files, cfg, j, r)
    case KilledCycle(m, files, cfg, j, r) => Booted(Cycled(s, m, files, cfg, j, r))
    case Refresh(files, cfg, r) => Refreshed(s, files, cfg, r)
    case KilledRefresh(files, cfg, r) => Booted(Refreshed(s, files, cfg, r))
    case Restart => Booted(s)
  }

  /** The base that was really measured for the ranking now on disk. */
  ghost function OriginAfter(origin: Option<Base>, e: Event): Option<Base> {
    if (e.Cycle? || e.KilledCycle?) && Journals(e.measured, e.files, e.cfg, e.journalOk) && e.rankingOk
    then Some(e.measured) else origin
  }

  predicate Apart(a: seq<Row>, b: seq<Row>) {
    forall row :: row in a ==> row !in b
  }

  /** Can a base never be taken for another one, whichever of its rows are ejected? It was measured in
      another second, or shares no row with it. */
  predicate Distinguishable(base: Base, other: Base) {
    base.stamp != other.stamp || Apart(base.servers, other.servers)
  }

  /** Cycles measure valid rows, and one whose ranking is not written after its journal is the base
      behind the served ranking again or can never be taken for it. */
  ghost predicate Admissible(s: Snapshot, origin: Option<Base>, e: Event) {
    && (e.Cycle? || e.KilledCycle? ==>
          && (e.measured.servers != [] ==> ValidRows(e.measured.servers))
          && e.cfg.ttl > 0
          && (Ranking(s).Some? && origin.Some? && !e.rankingOk ==>
                e.measured == origin.value || Distinguishable(e.measured, origin.value)))
    && (e.Refresh? || e.KilledRefresh? ==> e.cfg.ttl > 0)
  }

  ghost predicate AdmissibleRun(s: Snapshot, origin: Option<Base>, es: seq<Event>)
    decreases |es|
  {
    es != [] ==>
      Admissible(s, origin, es[0]) && AdmissibleRun(Next(s, es[0]), OriginAfter(origin, es[0]), es[1..])
  }

  ghost function Run(s: Snapshot, es: seq<Event>): Snapshot
    decreases |es|
  {
    if es == [] then s else Run(Next(s, es[0]), es[1..])
  }

  ghost function RunOrigin(origin: Option<Base>, es: seq<Event>): Option<Base>
    decreases |es|
  {
    if es == [] then origin else RunOrigin(OriginAfter(origin, es[0]), es[1..])
  }

  ghost predicate Explains(origin: Base, doc: Doc) {
    origin.stamp == doc.stamp && ValidRows(origin.servers) && RankedSubset(doc.servers, origin.servers)
  }

  /** HTTP readers and file readers agree, and recovery is right or says nothing. */
  ghost predicate Consistent(s: Snapshot, origin: Option<Base>) {
    && s.payload == Ranking(s)
    && (Ranking(s).Some? ==> origin.Some? && Explains(origin.value, Ranking(s).value))
    && (Ranking(s).Some? && ReadableJournal(s.journal) ==>
          Honest(s.journal.content, origin.value))
    && (BaseOf(s).Some? ==> BaseOf(s) == Recovered(s))
  }

  /** No journal entry ahead of the true base can be taken for it. */
  predicate Honest(bases: seq<Base>, origin: Base) {
    bases == [] || bases[0] == origin || (Distinguishable(bases[0], origin) && Honest(bases[1..], origin))
  }

  ghost predicate Intact(s: Snapshot, origin: Option<Base>) {
    Ranking(s).Some? ==> Recovered(s) == origin && BaseOf(s) == origin
  }

  lemma PublicDocIsExplained(base: Base, files: seq<FileRead>, cfg: Config)
    requires ValidRows(base.servers) && cfg.ttl > 0
    ensures ValidDoc(PublicDoc(base, files, cfg)) && Explains(base, PublicDoc(base, files, cfg))
  {
    var doc := PublicDoc(base, files, cfg);
    KeptIsRankedSubset(base.servers, Documents(files), cfg.maxFraction);
    KeptIsNonEmpty(base.servers, Documents(files), cfg.maxFraction);
    var at :| Embeds(at, doc.servers, base.servers);
    assert forall i :: 0 <= i < |at| ==> doc.servers[i] == base.servers[at[i]];
  }

  /** An honest journal yields the true base if it has it, and nothing otherwise. */
  lemma {:induction false} HonestMatch(bases: seq<Base>, doc: Doc, origin: Base)
    requires Honest(bases, origin) && Explains(origin, doc) && doc.servers != []
    ensures FirstMatch(bases, doc) == if origin in bases then Some(origin) else None
  {
    if bases != [] && bases[0] != origin {
      if bases[0].stamp == doc.stamp { ApartCannotMatch(doc.servers, bases[0].servers, origin.servers); }
      HonestMatch(bases[1..], doc, origin);
      assert origin in bases <==> origin in bases[1..];
    }
  }

  lemma ApartCannotMatch(rows: seq<Row>, a: seq<Row>, b: seq<Row>)
    requires rows != [] && Apart(a, b) && RankedSubset(rows, b)
    ensures !RankedSubset(rows, a)
  {
    SubsetIsPresent(rows, b);
    MissingRowIsNoSubset(rows, a, rows[0]);
  }

  lemma BootKeepsConsistent(s: Snapshot, origin: Option<Base>)
    requires Consistent(s, origin)
    ensures Consistent(Booted(s), origin)
    ensures Intact(s, origin) ==> Intact(Booted(s), origin)
  {
    var t := Booted(s);
    assert Recovered(t) == Recovered(s);
    if Ranking(s).Some? && ReadableJournal(s.journal) {
      HonestMatch(s.journal.content, Ranking(s).value, origin.value);
    }
  }

  lemma CycleKeepsConsistent(s: Snapshot, origin: Option<Base>, e: Event)
    requires e.Cycle?
    requires Consistent(s, origin) && Admissible(s, origin, e)
    ensures Consistent(Next(s, e), OriginAfter(origin, e))
    ensures Intact(s, origin) || OriginAfter(None, e).Some? ==> Intact(Next(s, e), OriginAfter(origin, e))
  {
    var m := e.measured;
    if Journals(m, e.files, e.cfg, e.journalOk) {
      var t, o, served := Next(s, e), OriginAfter(origin, e), BaseOf(s);
      var bases := BuildJournal(m, served);
      if served.Some? { HonestMatch(s.journal.content, Ranking(s).value, origin.value); }
      assert ReadableJournal(t.journal);
      if e.rankingOk { PublicDocIsExplained(m, e.files, e.cfg); }
      if Ranking(t).Some? {
        assert Honest(bases, o.value);
        HonestMatch(bases, Ranking(t).value, o.value);
      }
    }
  }

  lemma RefreshKeepsConsistent(s: Snapshot, origin: Option<Base>, e: Event)
    requires e.Refresh?
    requires Consistent(s, origin) && Admissible(s, origin, e)
    ensures Consistent(Next(s, e), origin)
    ensures Intact(s, origin) ==> Intact(Next(s, e), origin)
  {
    var t := Next(s, e);
    if t != s {
      PublicDocIsExplained(origin.value, e.files, e.cfg);
      HonestMatch(s.journal.content, Ranking(s).value, origin.value);
      HonestMatch(t.journal.content, Ranking(t).value, origin.value);
    }
  }

  lemma EventKeepsConsistent(s: Snapshot, origin: Option<Base>, e: Event)
    requires Consistent(s, origin) && Admissible(s, origin, e)
    ensures Consistent(Next(s, e), OriginAfter(origin, e))
    ensures Intact(s, origin) || OriginAfter(None, e).Some? ==> Intact(Next(s, e), OriginAfter(origin, e))
  {
    match e
    case Cycle(_, _, _, _, _) => CycleKeepsConsistent(s, origin, e);
    case KilledCycle(m, files, cfg, j, r) =>
      CycleKeepsConsistent(s, origin, Cycle(m, files, cfg, j, r));
      BootKeepsConsistent(Cycled(s, m, files, cfg, j, r), OriginAfter(origin, e));
    case Refresh(_, _, _) => RefreshKeepsConsistent(s, origin, e);
    case KilledRefresh(files, cfg, r) =>
      RefreshKeepsConsistent(s, origin, Refresh(files, cfg, r));
      BootKeepsConsistent(Refreshed(s, files, cfg, r), origin);
    case Restart => BootKeepsConsistent(s, origin);
  }

  /** Crash safety over whole runs: whatever fails and wherever the process dies, the journal
      holds the exact base behind the ranking on disk, a restart recovers that base under its
      stamp, and HTTP serves exactly the bytes of the file. */
  lemma {:induction false} JournalSurvivesEveryRun(s: Snapshot, origin: Option<Base>, es: seq<Event>)
    requires Consistent(s, origin) && Intact(s, origin) && AdmissibleRun(s, origin, es)
    ensures var t, o := Run(s, es), RunOrigin(origin, es);
            && t.payload == Ranking(t)
            && (Ranking(t).Some? ==>
                  && o.Some?
                  && Recovered(t) == o == BaseOf(t) == BaseOf(Booted(t))
                  && Explains(o.value, Ranking(t).value))
    decreases |es|
  {
    if es != [] {
      EventKeepsConsistent(s, origin, es[0]);
      JournalSurvivesEveryRun(Next(s, es[0]), OriginAfter(origin, es[0]), es[1..]);
    }
  }

  /** Starting from a lost or unreadable journal, recovery says nothing rather than something
      wrong, and the first cycle that publishes, even if it is killed right after, makes the
      journal whole again. */
  lemma {:induction false} LostJournalNeverLies(s: Snapshot, origin: Option<Base>, es: seq<Event>)
    requires Consistent(s, origin) && AdmissibleRun(s, origin, es)
    ensures var t, o := Run(s, es), RunOrigin(origin, es);
            && t.payload == Ranking(t)
            && (BaseOf(t) == None || BaseOf(t) == o)
            && (Recovered(t) == None || Recovered(t) == o)
            && ((exists i :: 0 <= i < |es| && OriginAfter(None, es[i]).Some?) ==> Intact(t, o))
    decreases |es|
  {
    if es == [] {
      if Ranking(s).Some? && ReadableJournal(s.journal) {
        HonestMatch(s.journal.content, Ranking(s).value, origin.value);
      }
    } else {
      var t, o := Next(s, es[0]), OriginAfter(origin, es[0]);
      EventKeepsConsistent(s, origin, es[0]);
      LostJournalNeverLies(t, o, es[1..]);
      if OriginAfter(None, es[0]).Some? {
        IntactRun(t, o, es[1..]);
      } else if exists i :: 0 <= i < |es| && OriginAfter(None, es[i]).Some? {
        var i :| 0 <= i < |es| && OriginAfter(None, es[i]).Some?;
        assert es[1..][i - 1] == es[i];
      }
    }
  }

  lemma {:induction false} IntactRun(s: Snapshot, origin: Option<Base>, es: seq<Event>)
    requires Consistent(s, origin) && Intact(s, origin) && AdmissibleRun(s, origin, es)
    ensures Intact(Run(s, es), RunOrigin(origin, es))
    decreases |es|
  {
    if es != [] {
      EventKeepsConsistent(s, origin, es[0]);
      IntactRun(Next(s, es[0]), OriginAfter(origin, es[0]), es[1..]);
    }
  }

  /** A fresh deployment, and a restart on files an earlier run left, are both good starts. */
  lemma GoodStarts(ranking: Doc, journal: seq<Base>, origin: Base)
    ensures Consistent(Booted(Snapshot(Missing, Missing, None, [], None)), None)
    ensures Intact(Booted(Snapshot(Missing, Missing, None, [], None)), None)
    ensures ValidDoc(ranking) && Explains(origin, ranking) && ReadableJournal(Parsed(journal))
            && Honest(journal, origin) && origin in journal ==>
              var s := Booted(Snapshot(Parsed(ranking), Parsed(journal), None, [], None));
              Consistent(s, Some(origin)) && Intact(s, Some(origin))
  {
    if ValidDoc(ranking) && Explains(origin, ranking) && Honest(journal, origin) {
      HonestMatch(journal, ranking, origin);
    }
  }

  // ----- one second is not enough -----------------------------------------------------------------------

  /** When a cycle journals its base but cannot write its ranking, a restart right behind it recovers
      the base really behind the old ranking exactly when the new base was measured in another second,
      or could not have produced that ranking, or is the same base. */
  lemma FailedRankingRecoversExactlyIf(s: Snapshot, origin: Base, e: Event)
    requires Consistent(s, Some(origin)) && Intact(s, Some(origin)) && Ranking(s).Some?
    requires e.Cycle? && ValidRows(e.measured.servers) && e.journalOk && !e.rankingOk
    ensures Recovered(Next(s, e)) == Some(origin)
            <==> || e.measured.stamp != Ranking(s).value.stamp
                 || !RankedSubset(Ranking(s).value.servers, e.measured.servers)
                 || e.measured.servers == origin.servers
  {
    KeptIsNonEmpty(e.measured.servers, Documents(e.files), e.cfg.maxFraction);
    assert ReadableJournal(Next(s, e).journal);
    FirstOfTwo(e.measured, origin, Ranking(s).value);
  }

  lemma FirstOfTwo(measured: Base, origin: Base, doc: Doc)
    requires Explains(origin, doc)
    ensures FirstMatch(BuildJournal(measured, Some(origin)), doc)
         == if measured.stamp == doc.stamp && RankedSubset(doc.servers, measured.servers) then Some(measured)
            else Some(origin)
  {
    var bases := BuildJournal(measured, Some(origin));
    if measured != origin {
      assert bases[1..] == [origin];
      assert FirstMatch([origin], doc) == Some(origin);
    }
  }

  /** Behind a refresh after the failed write, the same with what the refresh publishes. */
  lemma RefreshedFailureRecoversExactlyIf(s: Snapshot, origin: Base, e: Event, files: seq<FileRead>, cfg: Config)
    requires Consistent(s, Some(origin)) && Intact(s, Some(origin)) && Ranking(s).Some?
    requires e.Cycle? && ValidRows(e.measured.servers) && e.journalOk && !e.rankingOk && cfg.ttl > 0
    ensures Recovered(Refreshed(Next(s, e), files, cfg, true)) == Some(origin)
            <==> || e.measured.stamp != Ranking(s).value.stamp
                 || !RankedSubset(Kept(origin.servers, Documents(files), cfg.maxFraction), e.measured.servers)
                 || e.measured.servers == origin.servers
    ensures Recovered(Refreshed(Next(s, e), files, cfg, true)) in {Some(origin), Some(e.measured)}
  {
    KeptIsNonEmpty(e.measured.servers, Documents(e.files), e.cfg.maxFraction);
    PublicDocIsExplained(origin, files, cfg);
    var t := Refreshed(Next(s, e), files, cfg, true);
    assert ReadableJournal(t.journal);
    FirstOfTwo(e.measured, origin, PublicDoc(origin, files, cfg));
  }

  /** So the true base is recovered for good, whatever a later refresh publishes, exactly when the new
      base is the same, was measured in another second, or shares no row with it. That is what
      `Admissible` asks, and a caller can check it before writing the journal. */
  lemma FailedRankingIsHarmlessExactlyIf(s: Snapshot, origin: Base, e: Event)
    requires Consistent(s, Some(origin)) && Intact(s, Some(origin)) && Ranking(s).Some?
    requires e.Cycle? && ValidRows(e.measured.servers) && e.journalOk && !e.rankingOk
    ensures (forall files, cfg: Config | cfg.ttl > 0 ::
               Recovered(Refreshed(Next(s, e), files, cfg, true)) == Some(origin))
            <==> e.measured == origin || Distinguishable(e.measured, origin)
  {
    if Apart(e.measured.servers, origin.servers) || e.measured == origin || e.measured.stamp != origin.stamp {
      forall files, cfg: Config | cfg.ttl > 0
        ensures Recovered(Refreshed(Next(s, e), files, cfg, true)) == Some(origin)
      {
        RefreshedFailureRecoversExactlyIf(s, origin, e, files, cfg);
        PublicDocIsExplained(origin, files, cfg);
        if Apart(e.measured.servers, origin.servers) {
          ApartCannotMatch(PublicDoc(origin, files, cfg).servers, e.measured.servers, origin.servers);
        }
      }
    } else {
      var row :| row in e.measured.servers && row in origin.servers;
      var vs := OneCanRemain(origin.servers, row);
      var files, cfg := Filed(vs), Config(1, Finite(1.0));
      FiledDocuments(vs);
      RefreshedFailureRecoversExactlyIf(s, origin, e, files, cfg);
      var i :| 0 <= i < |e.measured.servers| && e.measured.servers[i] == row;
      assert Embeds([i], [row], e.measured.servers);
      assert Recovered(Refreshed(Next(s, e), files, cfg, true)) != Some(origin);
    }
  }

  /** It does fail: the base [a] is served, and a cycle in the same second measures [a, b], writes
      its journal and cannot write its ranking. A restart then takes [a, b] for the base. */
  lemma SameSecondRecoversTheWrongBase(a: Row, b: Row, stamp: int, cfg: Config)
    requires ValidRow(a) && ValidRow(b) && Key(a) != Key(b) && cfg.ttl > 0
    ensures var s := Booted(Snapshot(Parsed(Doc(stamp, cfg.ttl, [a])), Parsed([Base(stamp, [a])]), None, [], None));
            var e := Cycle(Base(stamp, [a, b]), [], cfg, true, false);
            && Consistent(s, Some(Base(stamp, [a]))) && Intact(s, Some(Base(stamp, [a])))
            && Recovered(Next(s, e)) == Some(Base(stamp, [a, b]))
  {
    var served, doc := Base(stamp, [a]), Doc(stamp, cfg.ttl, [a]);
    var s := Booted(Snapshot(Parsed(doc), Parsed([served]), None, [], None));
    var e := Cycle(Base(stamp, [a, b]), [], cfg, true, false);
    assert Embeds([0], [a], [a]) && Embeds([0], [a], [a, b]);
    GoodStarts(doc, [served], served);
    KeptIsNonEmpty([a, b], [], cfg.maxFraction);
    assert Next(s, e).journal == Parsed(BuildJournal(e.measured, Some(served)));
    assert e.measured.servers[1] == b;
  }

  /** And later: the base [a, b] is served in full, a cycle in the same second measures [a, c] and
      cannot write its ranking, which a restart would survive; but once a verdict ejects b, a restart
      takes [a, c] for the base. */
  lemma RefreshCanMakeTheWrongBaseMatch(a: Row, b: Row, c: Row, v: Verdict, stamp: int, ttl: int)
    requires ValidRow(a) && ValidRow(b) && ValidRow(c) && ttl > 0 && c != b
    requires Key(a) != Key(b) && Key(a) != Key(c) && Server(v) == Key(b)
    ensures var cfg, served := Config(ttl, Finite(0.5)), Base(stamp, [a, b]);
            var s := Booted(Snapshot(Parsed(Doc(stamp, ttl, [a, b])), Parsed([served]), None, [], None));
            var t := Next(s, Cycle(Base(stamp, [a, c]), [], cfg, true, false));
            && Consistent(s, Some(served)) && Intact(s, Some(served))
            && Recovered(t) == Some(served)
            && Recovered(Refreshed(t, [Usable(v)], cfg, true)) == Some(Base(stamp, [a, c]))
  {
    var cfg, served := Config(ttl, Finite(0.5)), Base(stamp, [a, b]);
    var s := Booted(Snapshot(Parsed(Doc(stamp, ttl, [a, b])), Parsed([served]), None, [], None));
    var e := Cycle(Base(stamp, [a, c]), [], cfg, true, false);
    PairIsServed(a, b, stamp, ttl);
    PairIsValid(a, c);
    PairsMatchAfterEjection(a, b, c, v);
    FailedRankingRecoversExactlyIf(s, served, e);
    RefreshedFailureRecoversExactlyIf(s, served, e, [Usable(v)], cfg);
    assert [a, b][1] != [a, c][1];
  }

  lemma PairsMatchAfterEjection(a: Row, b: Row, c: Row, v: Verdict)
    requires Key(a) != Key(b) && Key(a) != Key(c) && Server(v) == Key(b) && c != b
    ensures !RankedSubset([a, b], [a, c])
    ensures RankedSubset(Kept([a, b], Documents([Usable(v)]), Finite(0.5)), [a, c])
  {
    assert b in [a, b] && b !in [a, c];
    MissingRowIsNoSubset([a, b], [a, c], b);
    OneOfTwoRemains(a, b, v);
    assert Documents([Usable(v)]) == [v];
    assert Embeds([0], [a], [a, c]);
  }

  lemma PairIsValid(a: Row, b: Row)
    requires ValidRow(a) && ValidRow(b) && Key(a) != Key(b)
    ensures ValidRows([a, b])
  {}

  lemma PairIsServed(a: Row, b: Row, stamp: int, ttl: int)
    requires ValidRow(a) && ValidRow(b) && Key(a) != Key(b) && ttl > 0
    ensures var served := Base(stamp, [a, b]);
            var s := Booted(Snapshot(Parsed(Doc(stamp, ttl, [a, b])), Parsed([served]), None, [], None));
            Consistent(s, Some(served)) && Intact(s, Some(served)) && Ranking(s) == Some(Doc(stamp, ttl, [a, b]))
  {
    PairIsValid(a, b);
    assert Embeds([0, 1], [a, b], [a, b]);
    WholeBaseIsServed(Base(stamp, [a, b]), ttl);
  }

  lemma WholeBaseIsServed(served: Base, ttl: int)
    requires ValidRows(served.servers) && RankedSubset(served.servers, served.servers) && ttl > 0
    ensures var doc := Doc(served.stamp, ttl, served.servers);
            var s := Booted(Snapshot(Parsed(doc), Parsed([served]), None, [], None));
            Consistent(s, Some(served)) && Intact(s, Some(served)) && Ranking(s) == Some(doc)
  {
    GoodStarts(Doc(served.stamp, ttl, served.servers), [served], served);
  }

  /** A cycle that has measured something and can write still does not publish exactly when every
      measured name is accused and the cap is no smaller than the number of names. With unique
      names it always publishes. */
  lemma PublishesUnless(measured: Base, files: seq<FileRead>, cfg: Config)
    requires measured.servers != []
    ensures !Journals(measured, files, cfg, true)
            <==> && (forall row :: row in measured.servers ==> Accused(Documents(files), Key(row)))
                 && |Names(measured.servers)| <= Limit(|measured.servers|, cfg.maxFraction)
    ensures UniqueNames(measured.servers) ==> Journals(measured, files, cfg, true)
  {
    KeptIsNonEmpty(measured.servers, Documents(files), cfg.maxFraction);
  }

  /** A cycle of rows that break the ranking's rules, such as two of one name, and that gets as far as
      its journal leaves one no restart can read, even if its ranking is not written: nothing is
      recovered from it. The ranking it writes is unreadable exactly if a rule is broken by what is
      kept. */
  lemma InvalidRowsLoseTheBase(s: Snapshot, measured: Base, files: seq<FileRead>, cfg: Config, rankingOk: bool)
    requires Journals(measured, files, cfg, true) && !ValidRows(measured.servers) && cfg.ttl > 0
    ensures var t, doc := Cycled(s, measured, files, cfg, true, rankingOk), PublicDoc(measured, files, cfg);
            && !ReadableJournal(t.journal) && Recovered(t) == None && BaseOf(Booted(t)) == None
            && Ranking(t) == if !rankingOk then Ranking(s) else if ValidRows(doc.servers) then Some(doc) else None
  {
    var bases := BuildJournal(measured, BaseOf(s));
    assert bases[0] == measured && measured in bases;
  }

  // ----- what is published ---------------------------------------------------------------------------------

  /** From any state, the empty disk included, a cycle that can write leaves the measured rows minus the
      current ejections, under its own stamp, on disk and behind HTTP, and its base first in the journal
      and in memory. */
  lemma CyclePublishesBaseMinusEjections(s: Snapshot, m: Base, files: seq<FileRead>, cfg: Config)
    requires m.servers != [] && UniqueNames(m.servers) && cfg.ttl > 0
    ensures var t := Next(s, Cycle(m, files, cfg, true, true));
            var doc := Doc(m.stamp, cfg.ttl, Kept(m.servers, Documents(files), cfg.maxFraction));
            && t.ranking == Parsed(doc) && t.payload == Some(doc)
            && t.journal.Parsed? && t.journal.content != [] && t.journal.content[0] == m
            && t.baseServers == m.servers && t.baseStamp == Some(m.stamp)
  {
    KeptIsNonEmpty(m.servers, Documents(files), cfg.maxFraction);
  }

  /** A cycle that has measured nothing, or cannot write its journal, changes nothing; one that cannot
      write its ranking changes the journal only, which then begins with the new base and still has
      the one in memory. */
  lemma FailedCycleTouchesOnlyTheJournal(s: Snapshot, m: Base, files: seq<FileRead>, cfg: Config)
    requires UniqueNames(m.servers)
    ensures Next(s, Cycle(m, files, cfg, false, true)) == Next(s, Cycle(m, files, cfg, false, false)) == s
    ensures m.servers == [] ==>
              Next(s, Cycle(m, files, cfg, true, true)) == Next(s, Cycle(m, files, cfg, true, false)) == s
    ensures m.servers != [] ==>
              var t := Next(s, Cycle(m, files, cfg, true, false));
              && t == s.(journal := t.journal)
              && t.journal.Parsed? && t.journal.content != [] && t.journal.content[0] == m
              && (s.baseServers != [] && s.baseStamp.Some? ==>
                    Base(s.baseStamp.value, s.baseServers) in t.journal.content)
  {
    if m.servers != [] {
      KeptIsNonEmpty(m.servers, Documents(files), cfg.maxFraction);
      var bases := BuildJournal(m, BaseOf(s));
      assert bases[0] == m;
      assert |bases| == 2 ==> bases[1] in bases;
    }
  }

  /** A refresh without a base, or whose write fails, changes nothing, and a restart changes no file. */
  lemma NothingElseIsTouched(s: Snapshot, files: seq<FileRead>, cfg: Config)
    ensures Next(s, Refresh(files, cfg, false)) == s
    ensures s.baseServers == [] || s.baseStamp.None? ==> Next(s, Refresh(files, cfg, true)) == s
    ensures Next(s, Restart).ranking == s.ranking && Next(s, Restart).journal == s.journal
    ensures Next(s, KilledRefresh(files, cfg, true)) == Next(Next(s, Refresh(files, cfg, true)), Restart)
    ensures forall m, j, r ::
              Next(s, KilledCycle(m, files, cfg, j, r)) == Next(Next(s, Cycle(m, files, cfg, j, r)), Restart)
  {}

  // ----- refreshes ----------------------------------------------------------------------------------------

  /** A refresh that can write leaves exactly the base minus the current ejections, under the
      stamp of the measurement, in both places; and the whole base once no verdict is active. */
  lemma RefreshPublishesBaseMinusEjections(s: Snapshot, origin: Base, files: seq<FileRead>, cfg: Config)
    requires Consistent(s, Some(origin)) && Intact(s, Some(origin)) && Ranking(s).Some? && cfg.ttl > 0
    ensures var t := Refreshed(s, files, cfg, true);
            && t.payload == Ranking(t)
            && Ranking(t) == Some(Doc(Ranking(s).value.stamp, cfg.ttl,
                                      Kept(origin.servers, Documents(files), cfg.maxFraction)))
            && (Documents(files) == [] ==> Ranking(t).value.servers == origin.servers)
  {
    PublicDocIsExplained(origin, files, cfg);
    NoVerdictKeepsEverything(origin.servers, cfg.maxFraction);
  }

  /** Refreshing again changes nothing; refreshing after a failed write does what it would have. */
  lemma RefreshIsIdempotentAndRetried(s: Snapshot, files: seq<FileRead>, cfg: Config, rankingOk: bool)
    ensures var t := Refreshed(s, files, cfg, true);
            && Refreshed(t, files, cfg, rankingOk) == t
            && Refreshed(Refreshed(s, files, cfg, false), files, cfg, true) == t
  {}
}
