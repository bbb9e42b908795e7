/** Granting a machine access to the hub: stage a token, then append its digest to a shared client
    map by compare-and-swap. Any number of runs may be under way, interleaved at every call. */
module Provision {
  import opened Wrappers

  type Token = string
  type Digest = string

  /** The staged tokens by machine, and the instance Secret: its clients and its version. */
  datatype Shared = Shared(staged: map<string, Token>, clients: map<string, Digest>, version: nat)

  datatype Error = Unavailable | NoStagedToken | GrantDiffers | Contention

  const TRIES := 5

  /** Where a run is, with what it has read. `Holding` is at the top of the retry loop. */
  datatype Progress =
    | Begun
    | SeenInstance(existing: bool)
    | Creating
    | CreateFailed
    | Holding(token: Token, tries: nat)
    | Patching(token: Token, tries: nat, clients: map<string, Digest>, version: nat)
    | Granted(token: Token)
    | Refused(error: Error)

  /** One run for a machine, and the token it will stage if there is none. */
  datatype Run = Run(machine: string, drawn: Token, progress: Progress)

  /** One call of a run: what it found, whether it reported success, and whether it applied even
      if it did not. */
  datatype Moment = Moment(found: Shared, works: bool, applied: bool)

  // ----- one call ------------------------------------------------------------------------------------------

  function Created(at: Moment, machine: string, value: Token): Shared {
    if machine !in at.found.staged && (at.works || at.applied)
    then at.found.(staged := at.found.staged[machine := value]) else at.found
  }

  /** The whole client map is rewritten, behind a test of the version it was read at. */
  function Patched(at: Moment, clients: map<string, Digest>, expected: nat): Shared {
    if at.found.version == expected && (at.works || at.applied)
    then at.found.(clients := clients, version := at.found.version + 1) else at.found
  }

  function Effect(r: Run, at: Moment, hash: Token -> Digest): Shared {
    match r.progress
    case Creating => Created(at, r.machine, r.drawn)
    case Patching(token, _, clients, version) => Patched(at, clients[r.machine := hash(token)], version)
    case _ => at.found
  }

  function Advance(r: Run, at: Moment, hash: Token -> Digest): Progress {
    var s := at.found;
    match r.progress
    case Begun => if at.works then SeenInstance(r.machine in s.clients) else Refused(Unavailable)
    case SeenInstance(existing) =>
      if !at.works then Refused(Unavailable)
      else if r.machine in s.staged then Holding(s.staged[r.machine], 0)
      else if existing then Refused(NoStagedToken) else Creating
    case Creating => if at.works && r.machine !in s.staged then Holding(r.drawn, 0) else CreateFailed
    case CreateFailed =>
      if at.works && r.machine in s.staged then Holding(s.staged[r.machine], 0) else Refused(Unavailable)
    case Holding(token, tries) =>
      if !at.works then Refused(Unavailable)
      else if r.machine !in s.clients then Patching(token, tries, s.clients, s.version)
      else if s.clients[r.machine] == hash(token) then Granted(token) else Refused(GrantDiffers)
    case Patching(token, tries, _, version) =>
      if at.works && s.version == version then Granted(token)
      else if tries + 1 < TRIES then Holding(token, tries + 1) else Refused(Contention)
    case _ => r.progress
  }

  /** The calls of a run, one after the other. */
  function Course(r: Run, log: seq<Moment>, hash: Token -> Digest): (after: Run)
    ensures after.machine == r.machine && after.drawn == r.drawn
  {
    if log == [] then r
    else
      var before := Course(r, log[..|log| - 1], hash);
      before.(progress := Advance(before, log[|log| - 1], hash))
  }

  function ResultOf(p: Progress): Result<(), Error>
    requires p.Granted? || p.Refused?
  {
    if p.Granted? then Ok(()) else Err(p.error)
  }

  // ----- what a call keeps -----------------------------------------------------------------------------------

  /** Everything a run does to what others rely on: nothing staged or granted is ever lost or
      changed, a version names one client map, and a digest that appears where there was none is
      the digest of the machine's staged token. */
  ghost predicate RunActed(s: Shared, s': Shared, hash: Token -> Digest) {
    && (forall m :: m in s.staged ==> m in s'.staged && s'.staged[m] == s.staged[m])
    && (forall m :: m in s.clients ==> m in s'.clients && s'.clients[m] == s.clients[m])
    && s.version <= s'.version
    && (s.version == s'.version ==> s.clients == s'.clients)
    && (forall m :: m in s'.clients && m !in s.clients ==> Matches(s', m, hash))
  }

  predicate Matches(s: Shared, m: string, hash: Token -> Digest)
    requires m in s.clients
  {
    m in s.staged && s.clients[m] == hash(s.staged[m])
  }

  predicate Staged(s: Shared, machine: string, token: Token) {
    machine in s.staged && s.staged[machine] == token
  }

  /** What a run knows is still so: its token is the staged one, the client map it read is the one
      of the version it read, a token it was granted for is granted, and a grant that differed
      still does. */
  predicate Holds(s: Shared, r: Run, hash: Token -> Digest) {
    match r.progress
    case Holding(token, _) => Staged(s, r.machine, token)
    case Patching(token, _, clients, version) =>
      && Staged(s, r.machine, token) && r.machine !in clients
      && version <= s.version && (version == s.version ==> clients == s.clients)
    case Granted(token) => Staged(s, r.machine, token) && r.machine in s.clients && Matches(s, r.machine, hash)
    case Refused(GrantDiffers) => r.machine in s.staged && r.machine in s.clients && !Matches(s, r.machine, hash)
    case _ => true
  }

  lemma RunsCompose(s: Shared, t: Shared, u: Shared, hash: Token -> Digest)
    requires RunActed(s, t, hash) && RunActed(t, u, hash)
    ensures RunActed(s, u, hash)
  {}

  /** What one run knows cannot be spoiled by any other. */
  lemma OthersKeepHolds(s: Shared, s': Shared, r: Run, hash: Token -> Digest)
    requires Holds(s, r, hash) && RunActed(s, s', hash)
    ensures Holds(s', r, hash)
  {}

  /** A compare-and-swap behind a stale version changes nothing, and one that lands adds exactly one
      grant: rewriting the whole map loses no other. */
  lemma CallKeepsHolds(r: Run, at: Moment, hash: Token -> Digest)
    requires Holds(at.found, r, hash)
    ensures RunActed(at.found, Effect(r, at, hash), hash)
    ensures Holds(Effect(r, at, hash), r.(progress := Advance(r, at, hash)), hash)
  {}

  // ----- the code ----------------------------------------------------------------------------------------------

  class Cluster {
    const hash: Token -> Digest
    var now: Shared
    ghost var calls: seq<Moment>

    constructor (start: Shared, hash: Token -> Digest)
      ensures now == start && this.hash == hash && calls == []
    {
      now, this.hash, calls := start, hash, [];
    }

    /** Any number of calls of any number of other runs, and rewrites of the Secret. */
    method Others()
      modifies this`now
      ensures RunActed(old(now), now, hash)
    {
      var n: int := *;
      for i := 0 to if n < 0 then 0 else n
        invariant RunActed(old(now), now, hash)
      {
        ghost var before := now;
        var rewrite: bool := *;
        if rewrite {
          now := now.(version := now.version + 1);
        } else {
          var run: Run := *;
          var works: bool := *;
          var applied: bool := *;
          if Holds(now, run, hash) {
            var at := Moment(now, works, applied);
            CallKeepsHolds(run, at, hash);
            now := Effect(run, at, hash);
          }
        }
        RunsCompose(old(now), before, now, hash);
      }
    }

    method GetInstance() returns (r: Result<(map<string, Digest>, nat), Error>, ghost at: Moment)
      modifies this
      ensures RunActed(old(now), at.found, hash) && now == at.found && calls == old(calls) + [at]
      ensures r == if at.works then Ok((now.clients, now.version)) else Err(Unavailable)
    {
      Others();
      var works: bool := *;
      r := if works then Ok((now.clients, now.version)) else Err(Unavailable);
      at := Moment(now, works, false);
      calls := calls + [at];
    }

    method GetStaged(machine: string) returns (r: Result<Option<Token>, Error>, ghost at: Moment)
      modifies this
      ensures RunActed(old(now), at.found, hash) && now == at.found && calls == old(calls) + [at]
      ensures r == if !at.works then Err(Unavailable)
                   else if machine in now.staged then Ok(Some(now.staged[machine])) else Ok(None)
    {
      Others();
      var works: bool := *;
      r := if !works then Err(Unavailable)
           else if machine in now.staged then Ok(Some(now.staged[machine])) else Ok(None);
      at := Moment(now, works, false);
      calls := calls + [at];
    }

    /** Fails if the Secret exists; may also fail after it has created it. */
    method Create(machine: string, value: Token) returns (works: bool, ghost at: Moment)
      modifies this
      ensures RunActed(old(now), at.found, hash) && now == Created(at, machine, value)
      ensures calls == old(calls) + [at]
      ensures works == (at.works && machine !in at.found.staged)
    {
      Others();
      works := *;
      var applied: bool := *;
      at := Moment(now, works, applied);
      calls := calls + [at];
      if machine in now.staged {
        works := false;
      } else if works || applied {
        now := now.(staged := now.staged[machine := value]);
      }
    }

    /** Fails if the version has moved on; may also fail after it has applied. */
    method Patch(clients: map<string, Digest>, expected: nat) returns (works: bool, ghost at: Moment)
      modifies this
      ensures RunActed(old(now), at.found, hash) && now == Patched(at, clients, expected)
      ensures calls == old(calls) + [at]
      ensures works == (at.works && at.found.version == expected)
    {
      Others();
      works := *;
      var applied: bool := *;
      at := Moment(now, works, applied);
      calls := calls + [at];
      if now.version != expected {
        works := false;
      } else if works || applied {
        now := now.(clients := clients, version := now.version + 1);
      }
    }
  }

  /** A run goes on by one call. */
  lemma OneCallMore(start: Run, log: seq<Moment>, at: Moment, s: Shared, before: Shared, hash: Token -> Digest)
    requires RunActed(s, before, hash) && RunActed(before, at.found, hash)
    requires Holds(before, Course(start, log, hash), hash)
    ensures var r := Course(start, log, hash);
            && Course(start, log + [at], hash) == r.(progress := Advance(r, at, hash))
            && RunActed(s, Effect(r, at, hash), hash)
            && Holds(Effect(r, at, hash), Course(start, log + [at], hash), hash)
  {
    var r := Course(start, log, hash);
    OthersKeepHolds(before, at.found, r, hash);
    CallKeepsHolds(r, at, hash);
    RunsCompose(s, before, at.found, hash);
    RunsCompose(s, at.found, Effect(r, at, hash), hash);
    assert (log + [at])[..|log|] == log;
  }

  /** The head of a run: find the machine's token, or stage the one at hand. */
  method Stage(cluster: Cluster, machine: string, drawn: Token)
    returns (r: Result<Token, Error>, ghost log: seq<Moment>)
    modifies cluster
    ensures var end := Course(Run(machine, drawn, Begun), log, cluster.hash);
            && end.progress == (if r.Ok? then Holding(r.value, 0) else Refused(r.error))
            && Holds(cluster.now, end, cluster.hash)
    ensures RunActed(old(cluster.now), cluster.now, cluster.hash) && cluster.calls == old(cluster.calls) + log
  {
    ghost var start, before, at := Run(machine, drawn, Begun), cluster.now, Moment(cluster.now, true, true);
    log := [];
    var instance, staged;
    instance, at := cluster.GetInstance();
    OneCallMore(start, log, at, old(cluster.now), before, cluster.hash);
    log, before := log + [at], cluster.now;
    if instance.Err? { return Err(Unavailable), log; }
    var existing := machine in instance.value.0;
    staged, at := cluster.GetStaged(machine);
    OneCallMore(start, log, at, old(cluster.now), before, cluster.hash);
    log, before := log + [at], cluster.now;
    if staged.Err? { return Err(Unavailable), log; }
    if staged.value.Some? { return Ok(staged.value.value), log; }
    if existing { return Err(NoStagedToken), log; }
    r, log := CreateOrAdopt(cluster, machine, drawn, old(cluster.calls), log);
    RunsCompose(old(cluster.now), before, cluster.now, cluster.hash);
  }

  /** Stages the token at hand; if that is not reported to have worked, whatever is staged now counts. */
  method CreateOrAdopt(cluster: Cluster, machine: string, drawn: Token,
                       ghost base: seq<Moment>, ghost head: seq<Moment>)
    returns (r: Result<Token, Error>, ghost log: seq<Moment>)
    requires Course(Run(machine, drawn, Begun), head, cluster.hash).progress == Creating
    requires cluster.calls == base + head
    modifies cluster
    ensures cluster.calls == base + log
    ensures var end := Course(Run(machine, drawn, Begun), log, cluster.hash);
            && end.progress == (if r.Ok? then Holding(r.value, 0) else Refused(r.error))
            && Holds(cluster.now, end, cluster.hash)
    ensures RunActed(old(cluster.now), cluster.now, cluster.hash)
  {
    ghost var start, before, at := Run(machine, drawn, Begun), cluster.now, Moment(cluster.now, true, true);
    var created;
    created, at := cluster.Create(machine, drawn);
    OneCallMore(start, head, at, old(cluster.now), before, cluster.hash);
    log, before := head + [at], cluster.now;
    if created { return Ok(drawn), log; }
    var staged;
    staged, at := cluster.GetStaged(machine);
    OneCallMore(start, log, at, old(cluster.now), before, cluster.hash);
    log := log + [at];
    if staged.Err? || staged.value.None? { return Err(Unavailable), log; }
    r := Ok(staged.value.value);
  }

  /** The tail of a run: append the digest behind a test of the version it was read at. */
  method Grant(cluster: Cluster, machine: string, token: Token,
               ghost start: Run, ghost base: seq<Moment>, ghost head: seq<Moment>)
    returns (r: Result<(), Error>, ghost log: seq<Moment>)
    requires start.machine == machine && Course(start, head, cluster.hash).progress == Holding(token, 0)
    requires Holds(cluster.now, Course(start, head, cluster.hash), cluster.hash)
    requires cluster.calls == base + head
    modifies cluster
    ensures cluster.calls == base + log
    ensures var end := Course(start, log, cluster.hash);
            && (end.progress.Granted? || end.progress.Refused?) && r == ResultOf(end.progress)
            && Holds(cluster.now, end, cluster.hash)
    ensures RunActed(old(cluster.now), cluster.now, cluster.hash)
  {
    log := head;
    for tries := 0 to TRIES
      invariant RunActed(old(cluster.now), cluster.now, cluster.hash)
      invariant cluster.calls == base + log
      invariant Holds(cluster.now, Course(start, log, cluster.hash), cluster.hash)
      invariant Course(start, log, cluster.hash).progress
                == if tries < TRIES then Holding(token, tries) else Refused(Contention)
    {
      ghost var before := cluster.now;
      var ended;
      ended, log := Append(cluster, machine, token, start, base, log, tries);
      RunsCompose(old(cluster.now), before, cluster.now, cluster.hash);
      if ended.Some? { return ended.value, log; }
    }
    r := Err(Contention);
  }

  /** One turn of the retry loop. None means that the patch was not reported to have landed. */
  method Append(cluster: Cluster, machine: string, token: Token,
                ghost start: Run, ghost base: seq<Moment>, ghost head: seq<Moment>, ghost tries: nat)
    returns (r: Option<Result<(), Error>>, ghost log: seq<Moment>)
    requires start.machine == machine && Course(start, head, cluster.hash).progress == Holding(token, tries)
    requires Holds(cluster.now, Course(start, head, cluster.hash), cluster.hash)
    requires cluster.calls == base + head
    modifies cluster
    ensures cluster.calls == base + log
    ensures var end := Course(start, log, cluster.hash);
            && Holds(cluster.now, end, cluster.hash)
            && (r.None? ==>
                  end.progress == if tries + 1 < TRIES then Holding(token, tries + 1) else Refused(Contention))
            && (r.Some? ==> (end.progress.Granted? || end.progress.Refused?) && r.value == ResultOf(end.progress))
    ensures RunActed(old(cluster.now), cluster.now, cluster.hash)
  {
    ghost var before, at := cluster.now, Moment(cluster.now, true, true);
    var digest := cluster.hash(token);
    var instance;
    instance, at := cluster.GetInstance();
    OneCallMore(start, head, at, old(cluster.now), before, cluster.hash);
    log, before := head + [at], cluster.now;
    if instance.Err? { return Some(Err(Unavailable)), log; }
    var clients, version := instance.value.0, instance.value.1;
    if machine in clients {
      return Some(if clients[machine] != digest then Err(GrantDiffers) else Ok(())), log;
    }
    var patched;
    patched, log := Land(cluster, machine, token, digest, clients, version, start, base, log, tries);
    RunsCompose(old(cluster.now), before, cluster.now, cluster.hash);
    r := if patched then Some(Ok(())) else None;
  }

  /** The patch itself. */
  method Land(cluster: Cluster, machine: string, token: Token, digest: Digest, clients: map<string, Digest>,
              version: nat, ghost start: Run, ghost base: seq<Moment>, ghost head: seq<Moment>, ghost tries: nat)
    returns (patched: bool, ghost log: seq<Moment>)
    requires start.machine == machine && digest == cluster.hash(token)
    requires Course(start, head, cluster.hash).progress == Patching(token, tries, clients, version)
    requires Holds(cluster.now, Course(start, head, cluster.hash), cluster.hash)
    requires cluster.calls == base + head
    modifies cluster
    ensures cluster.calls == base + log
    ensures var end := Course(start, log, cluster.hash);
            && Holds(cluster.now, end, cluster.hash)
            && end.progress == if patched then Granted(token)
                               else if tries + 1 < TRIES then Holding(token, tries + 1) else Refused(Contention)
    ensures RunActed(old(cluster.now), cluster.now, cluster.hash)
  {
    ghost var before, at := cluster.now, Moment(cluster.now, true, true);
    patched, at := cluster.Patch(clients[machine := digest], version);
    OneCallMore(start, head, at, old(cluster.now), before, cluster.hash);
    log := head + [at];
  }

  /** One run. `log` is its calls, with the others at work before each. */
  method ProvisionMachine(cluster: Cluster, machine: string, drawn: Token)
    returns (r: Result<(), Error>, ghost log: seq<Moment>)
    modifies cluster
    ensures var end := Course(Run(machine, drawn, Begun), log, cluster.hash);
            && (end.progress.Granted? || end.progress.Refused?) && r == ResultOf(end.progress)
            && Holds(cluster.now, end, cluster.hash)
    ensures RunActed(old(cluster.now), cluster.now, cluster.hash) && cluster.calls == old(cluster.calls) + log
    ensures r.Ok? ==> machine in cluster.now.clients && Matches(cluster.now, machine, cluster.hash)
  {
    var staged;
    staged, log := Stage(cluster, machine, drawn);
    if staged.Err? { return Err(staged.error), log; }
    ghost var mid := cluster.now;
    r, log := Grant(cluster, machine, staged.value, Run(machine, drawn, Begun), old(cluster.calls), log);
    RunsCompose(old(cluster.now), mid, cluster.now, cluster.hash);
  }

  // ----- any number of runs ---------------------------------------------------------------------------------------

  datatype System = System(shared: Shared, runs: seq<Run>)

  /** A call of one of the runs, or a rewrite of the Secret that leaves its clients alone. */
  datatype Event = Call(n: nat, works: bool, applied: bool) | Rewrite

  function Next(s: System, e: Event, hash: Token -> Digest): System {
    match e
    case Call(n, works, applied) =>
      if n >= |s.runs| then s
      else
        var r, at := s.runs[n], Moment(s.shared, works, applied);
        System(Effect(r, at, hash), s.runs[n := r.(progress := Advance(r, at, hash))])
    case Rewrite => s.(shared := s.shared.(version := s.shared.version + 1))
  }

  function After(s: System, es: seq<Event>, hash: Token -> Digest): System {
    if es == [] then s else Next(After(s, es[..|es| - 1], hash), es[|es| - 1], hash)
  }

  predicate AllBegun(s: System) {
    forall n :: 0 <= n < |s.runs| ==> s.runs[n].progress == Begun
  }

  ghost predicate AllHold(s: System, hash: Token -> Digest) {
    forall n :: 0 <= n < |s.runs| ==> Holds(s.shared, s.runs[n], hash)
  }

  lemma StepActs(s: System, e: Event, hash: Token -> Digest)
    requires AllHold(s, hash)
    ensures AllHold(Next(s, e, hash), hash) && RunActed(s.shared, Next(s, e, hash).shared, hash)
  {
    var t := Next(s, e, hash);
    if e.Call? && e.n < |s.runs| {
      CallKeepsHolds(s.runs[e.n], Moment(s.shared, e.works, e.applied), hash);
    }
    forall n | 0 <= n < |t.runs| ensures Holds(t.shared, t.runs[n], hash) {
      if !(e.Call? && e.n == n) { OthersKeepHolds(s.shared, t.shared, s.runs[n], hash); }
    }
  }

  lemma {:induction false} RunsAct(s: System, es: seq<Event>, hash: Token -> Digest)
    requires AllHold(s, hash)
    ensures AllHold(After(s, es, hash), hash) && RunActed(s.shared, After(s, es, hash).shared, hash)
  {
    if es != [] {
      var front := es[..|es| - 1];
      RunsAct(s, front, hash);
      StepActs(After(s, front, hash), es[|es| - 1], hash);
      RunsCompose(s.shared, After(s, front, hash).shared, After(s, es, hash).shared, hash);
    }
  }

  predicate OneToken(r: Run, q: Run) {
    r.machine == q.machine && r.progress.Granted? && q.progress.Granted? ==> r.progress.token == q.progress.token
  }

  /** In every interleaving of any number of runs: the client map only grows and no digest ever
      changes, a new digest is that of its machine's staged token, every run that has returned
      normally has left its machine granted under its token, and the runs of one machine have
      settled on one token. */
  lemma NoGrantIsEverLost(s: System, es: seq<Event>, hash: Token -> Digest)
    requires AllBegun(s)
    ensures var a, b := s.shared, After(s, es, hash).shared;
            && a.clients.Keys <= b.clients.Keys
            && (forall m :: m in a.clients ==> b.clients[m] == a.clients[m])
            && (forall m :: m in a.staged ==> m in b.staged && b.staged[m] == a.staged[m])
            && (forall m :: m in b.clients && m !in a.clients ==> Matches(b, m, hash))
    ensures var t := After(s, es, hash);
            && (forall n :: 0 <= n < |t.runs| && t.runs[n].progress.Granted? ==>
                  t.runs[n].machine in t.shared.clients
                  && t.shared.clients[t.runs[n].machine] == hash(t.runs[n].progress.token))
            && (forall i, j :: 0 <= i < j < |t.runs| ==> OneToken(t.runs[i], t.runs[j]))
  {
    RunsAct(s, es, hash);
    var t := After(s, es, hash);
    assert forall n :: 0 <= n < |t.runs| ==> Holds(t.shared, t.runs[n], hash);
  }

  ghost predicate AllMatch(s: Shared, hash: Token -> Digest) {
    forall m :: m in s.clients ==> Matches(s, m, hash)
  }

  /** No sign yet of a grant without its token. */
  predicate Smooth(s: Shared, r: Run) {
    match r.progress
    case SeenInstance(existing) => existing ==> r.machine in s.staged
    case Refused(error) => error == Unavailable || error == Contention
    case _ => true
  }

  lemma CallStaysSmooth(r: Run, at: Moment, hash: Token -> Digest)
    requires Holds(at.found, r, hash) && Smooth(at.found, r) && AllMatch(at.found, hash)
    ensures Smooth(Effect(r, at, hash), r.(progress := Advance(r, at, hash)))
  {}

  /** Where every grant has its token to begin with, it stays so, and no interleaving refuses a run
      for a missing token or a differing grant. */
  lemma {:induction false} NothingIsRefused(s: System, es: seq<Event>, hash: Token -> Digest)
    requires AllBegun(s) && AllMatch(s.shared, hash)
    ensures var t := After(s, es, hash);
            && AllMatch(t.shared, hash)
            && |t.runs| == |s.runs|
            && forall n :: 0 <= n < |t.runs| ==> Smooth(t.shared, t.runs[n])
  {
    RunsAct(s, es, hash);
    if es != [] {
      var front, last := es[..|es| - 1], es[|es| - 1];
      NothingIsRefused(s, front, hash);
      RunsAct(s, front, hash);
      var mid := After(s, front, hash);
      StepActs(mid, last, hash);
      if last.Call? && last.n < |mid.runs| {
        CallStaysSmooth(mid.runs[last.n], Moment(mid.shared, last.works, last.applied), hash);
      }
    }
  }

  /** Longest a run can still take, in calls. */
  function CallsLeft(p: Progress): int {
    match p
    case Begun => 2 * TRIES + 4
    case SeenInstance(_) => 2 * TRIES + 3
    case Creating => 2 * TRIES + 2
    case CreateFailed => 2 * TRIES + 1
    case Holding(_, tries) => 2 * (TRIES - tries)
    case Patching(_, tries, _, _) => 2 * (TRIES - tries) - 1
    case _ => 0
  }

  /** A run is over after at most 14 calls, whatever the others do. */
  lemma {:induction false} RunsEnd(r: Run, log: seq<Moment>, hash: Token -> Digest)
    requires r.progress == Begun
    ensures var p := Course(r, log, hash).progress;
            && 0 <= CallsLeft(p) && (CallsLeft(p) == 0 <==> p.Granted? || p.Refused?)
            && (CallsLeft(p) > 0 ==> CallsLeft(p) + |log| <= 14)
  {
    if log != [] { RunsEnd(r, log[..|log| - 1], hash); }
  }

  /** The patches of a run that were not reported to have landed. */
  function FailedPatches(r: Run, log: seq<Moment>, hash: Token -> Digest): nat {
    if log == [] then 0
    else
      var front, at := log[..|log| - 1], log[|log| - 1];
      var p := Course(r, front, hash).progress;
      FailedPatches(r, front, hash) + if p.Patching? && !(at.works && at.found.version == p.version) then 1 else 0
  }

  /** A run gives up for contention exactly at its fifth failed patch. */
  lemma {:induction false} GivesUpExactlyAtTheFifth(r: Run, log: seq<Moment>, hash: Token -> Digest)
    requires r.progress == Begun
    ensures var p, failed := Course(r, log, hash).progress, FailedPatches(r, log, hash);
            && failed <= 5
            && (p == Refused(Contention) <==> failed == 5)
            && (p.Holding? || p.Patching? ==> p.tries == failed)
            && (!p.Holding? && !p.Patching? && !p.Granted? && !p.Refused? ==> failed == 0)
  {
    if log != [] { GivesUpExactlyAtTheFifth(r, log[..|log| - 1], hash); }
  }

  // ----- a run alone -----------------------------------------------------------------------------------------

  /** What an undisturbed run comes to: a grant without its token, or for another, is never replaced. */
  function Outcome(s: Shared, machine: string, drawn: Token, hash: Token -> Digest): Progress {
    if machine in s.staged then
      if machine in s.clients && s.clients[machine] != hash(s.staged[machine]) then Refused(GrantDiffers)
      else Granted(s.staged[machine])
    else if machine in s.clients then Refused(NoStagedToken)
    else Granted(drawn)
  }

  /** Its calls all work. */
  predicate Undisturbed(es: seq<Event>) {
    forall i :: 0 <= i < |es| ==> es[i].Call? && es[i].n == 0 && es[i].works
  }

  lemma OneMoreCall(s: System, es: seq<Event>, hash: Token -> Digest)
    requires es != [] && Undisturbed(es) && |After(s, es[..|es| - 1], hash).runs| == 1
    ensures Undisturbed(es[..|es| - 1])
    ensures var t := After(s, es[..|es| - 1], hash);
            var r, at := t.runs[0], Moment(t.shared, true, es[|es| - 1].applied);
            After(s, es, hash) == System(Effect(r, at, hash), [r.(progress := Advance(r, at, hash))])
  {}

  /** How far it has come after so many calls, if nothing refuses it. */
  ghost predicate OnItsWay(s: Shared, machine: string, drawn: Token, p: Progress, calls: nat) {
    if calls == 0 then p == Begun
    else if calls == 1 then p == SeenInstance(machine in s.clients)
    else if machine in s.staged then
      if calls == 2 then p == Holding(s.staged[machine], 0)
      else calls == 3 && p == Patching(s.staged[machine], 0, s.clients, s.version) && machine !in s.clients
    else
      && machine !in s.clients
      && if calls == 2 then p == Creating
         else if calls == 3 then p == Holding(drawn, 0)
         else calls == 4 && p == Patching(drawn, 0, s.clients, s.version)
  }

  lemma {:induction false} AloneGoesOn(s: Shared, machine: string, drawn: Token, es: seq<Event>,
                                       hash: Token -> Digest)
    requires Undisturbed(es)
    ensures var t := After(System(s, [Run(machine, drawn, Begun)]), es, hash);
            && |t.runs| == 1 && t.runs[0].machine == machine && t.runs[0].drawn == drawn
            && var p := t.runs[0].progress;
               if p.Granted? || p.Refused?
               then p == Outcome(s, machine, drawn, hash) && t.shared == Left(s, machine, p, hash, t.shared.version)
               else OnItsWay(s, machine, drawn, p, |es|)
                    && t.shared == if |es| >= 3 then s.(staged := s.staged[machine := p.token]) else s
  {
    if es != [] {
      AloneGoesOn(s, machine, drawn, es[..|es| - 1], hash);
      OneMoreCall(System(s, [Run(machine, drawn, Begun)]), es, hash);
    }
  }

  /** The token staged and its digest granted, where that is the outcome. */
  function Left(s: Shared, machine: string, p: Progress, hash: Token -> Digest, version: nat): Shared {
    if p.Granted? then Shared(s.staged[machine := p.token], s.clients[machine := hash(p.token)], version)
    else s.(version := version)
  }

  /** Left alone, with calls that work, a run has come to its outcome after five of them. It returns
      normally, with the staged token or else its own granted, exactly unless the machine has a grant
      without a token or one that is not for its token; and then it changes nothing. */
  lemma AloneComesToItsOutcome(s: Shared, machine: string, drawn: Token, es: seq<Event>, hash: Token -> Digest)
    requires Undisturbed(es) && |es| >= 5
    ensures var t := After(System(s, [Run(machine, drawn, Begun)]), es, hash);
            && |t.runs| == 1 && t.runs[0].progress == Outcome(s, machine, drawn, hash)
            && (t.runs[0].progress.Granted?
                <==> machine in s.clients ==> machine in s.staged && s.clients[machine] == hash(s.staged[machine]))
            && t.shared == Left(s, machine, t.runs[0].progress, hash, t.shared.version)
  {
    AloneGoesOn(s, machine, drawn, es, hash);
  }
}
