/** The agent's verdict publisher: one worker behind a bounded, ordered, coalescing map.

    Every block of the code that holds the Condition is one step. A verdict is identified by its
    ticket, its position among all verdicts ever accepted. */
module Publisher {
  import opened Wrappers

  datatype Publication = Publication(path: string, payload: string)

  /** Where the worker thread is. `Writing` is inside the storage call, `Wrote` behind it and
      waiting for the lock, `Logging` inside the completion log. */
  datatype Worker =
    | NoThread
    | Top
    | Writing(ticket: nat)
    | Wrote(ticket: nat)
    | Logging(ticket: nat)
    | Gone

  datatype State = State(
    accepted: seq<Publication>,  // every verdict submit() returned True for
    pending: seq<nat>,           // tickets, in the insertion order of the dictionary
    worker: Worker,
    stopping: bool,              // shutdown() has claimed the stop
    stopped: bool,               // shutdown() has returned
    handed: multiset<nat>,       // tickets given to the writer, with how often
    logged: multiset<nat>,       // tickets whose completion log has begun, with how often
    storage: map<string, nat>,   // the ticket each path was last written from
    failures: nat)               // writes that did not reach storage

  datatype Event =
    | Submit(publication: Publication, threadStarts: bool)
    | Claim
    | WriteEnds(applied: bool)
    | AfterWrite
    | LogEnds
    | StopClaim
    | StopReturns

  const INITIAL := State([], [], NoThread, false, false, multiset{}, multiset{}, map[], 0)

  /** The position of a path among the pending tickets, or their number when it is not there. */
  function Position(accepted: seq<Publication>, pending: seq<nat>, path: string): (k: nat)
    requires forall i :: 0 <= i < |pending| ==> pending[i] < |accepted|
    ensures k <= |pending|
    ensures k < |pending| ==> accepted[pending[k]].path == path
    ensures forall i :: 0 <= i < k ==> accepted[pending[i]].path != path
  {
    if pending == [] || accepted[pending[0]].path == path then 0
    else 1 + Position(accepted, pending[1..], path)
  }

  /** A ticket in the place of another, or at the end. */
  function Placed(pending: seq<nat>, k: nat, t: nat): seq<nat>
    requires k <= |pending|
  {
    if k < |pending| then pending[k := t] else pending + [t]
  }

  ghost predicate TicketsExist(s: State) {
    && (forall i :: 0 <= i < |s.pending| ==> s.pending[i] < |s.accepted|)
    && (forall t :: t in s.handed ==> t < |s.accepted|)
    && (s.worker.Writing? || s.worker.Wrote? || s.worker.Logging? ==> s.worker.ticket < |s.accepted|)
  }

  ghost predicate Accepts(s: State, cap: nat, p: Publication, threadStarts: bool)
    requires TicketsExist(s)
  {
    && !s.stopping
    && (Position(s.accepted, s.pending, p.path) < |s.pending| || |s.pending| < cap)
    && (s.worker.NoThread? ==> threadStarts)
  }

  ghost predicate Enabled(s: State, e: Event) {
    match e
    case Submit(_, _) => true
    case Claim => s.worker.Top? && (s.pending != [] || s.stopping)
    case WriteEnds(_) => s.worker.Writing?
    case AfterWrite => s.worker.Wrote?
    case LogEnds => s.worker.Logging?
    case StopClaim => true
    case StopReturns => s.stopping && !s.worker.Logging?
  }

  ghost function Next(s: State, cap: nat, e: Event): State
    requires TicketsExist(s) && Enabled(s, e)
  {
    match e
    case Submit(p, starts) =>
      if !Accepts(s, cap, p, starts) then s
      else
        var k, t := Position(s.accepted, s.pending, p.path), |s.accepted|;
        s.(accepted := s.accepted + [p],
           pending := Placed(s.pending, k, t),
           worker := if s.worker.NoThread? then Top else s.worker)
    case Claim =>
      if s.stopping then s.(pending := [], worker := Gone)
      else s.(pending := s.pending[1..], worker := Writing(s.pending[0]), handed := s.handed + multiset{s.pending[0]})
    case WriteEnds(applied) =>
      if applied then
        s.(worker := Wrote(s.worker.ticket),
           storage := s.storage[s.accepted[s.worker.ticket].path := s.worker.ticket])
      else s.(worker := Wrote(s.worker.ticket), failures := s.failures + 1)
    case AfterWrite =>
      if s.stopping then s.(worker := Gone)
      else s.(worker := Logging(s.worker.ticket), logged := s.logged + multiset{s.worker.ticket})
    case LogEnds => s.(worker := Top)
    case StopClaim => s.(stopping := true, pending := [])
    case StopReturns => s.(stopped := true)
  }

  // ----- the code ----------------------------------------------------------------------------------

  /** The dictionary's entries are the verdicts of the pending tickets. */
  ghost predicate Matches(entries: seq<Publication>, accepted: seq<Publication>, pending: seq<nat>) {
    && |entries| == |pending|
    && forall i :: 0 <= i < |pending| ==> pending[i] < |accepted| && entries[i] == accepted[pending[i]]
  }

  lemma PlacedMatches(entries: seq<Publication>, accepted: seq<Publication>, pending: seq<nat>, k: nat, p: Publication)
    requires Matches(entries, accepted, pending) && k <= |pending|
    ensures Matches(if k < |entries| then entries[k := p] else entries + [p], accepted + [p],
                    Placed(pending, k, |accepted|))
  {}

  class VerdictPublisher {
    const maxPending: nat
    var pending: seq<Publication>  // an insertion-ordered dictionary, one entry per path
    var active: bool
    var logging: bool
    var stopping: bool
    var threadStarted: bool
    ghost var state: State

    ghost predicate Valid()
      reads this
    {
      && TicketsExist(state)
      && Matches(pending, state.accepted, state.pending)
      && stopping == state.stopping
      && threadStarted == !state.worker.NoThread?
      && active == (state.worker.Writing? || state.worker.Wrote? || state.worker.Logging?)
      && logging == state.worker.Logging?
    }

    constructor (maxPending: nat)
      requires maxPending >= 1
      ensures Valid() && state == INITIAL && this.maxPending == maxPending
    {
      this.maxPending := maxPending;
      pending, active, logging, stopping, threadStarted := [], false, false, false, false;
      state := INITIAL;
    }

    method Find(path: string) returns (k: nat)
      requires Valid()
      ensures k == Position(state.accepted, state.pending, path)
    {
      k := 0;
      while k < |pending| && pending[k].path != path
        invariant k <= |pending|
        invariant forall i :: 0 <= i < k ==> pending[i].path != path
      {
        k := k + 1;
      }
    }

    method Submit(publication: Publication, threadStarts: bool) returns (accepted: bool)
      requires Valid()
      modifies this
      ensures Valid() && state == Next(old(state), maxPending, Event.Submit(publication, threadStarts))
      ensures accepted == Accepts(old(state), maxPending, publication, threadStarts)
    {
      if stopping { return false; }
      var k := Find(publication.path);
      if k == |pending| && |pending| >= maxPending { return false; }
      if !threadStarted {
        if !threadStarts { return false; }
        threadStarted := true;
      }
      PlacedMatches(pending, state.accepted, state.pending, k, publication);
      pending := if k < |pending| then pending[k := publication] else pending + [publication];
      state := Next(state, maxPending, Event.Submit(publication, threadStarts));
      accepted := true;
    }

    /** The top of the worker loop. None means the thread has returned. */
    method ClaimNext() returns (publication: Option<Publication>)
      requires Valid() && Enabled(state, Claim)
      modifies this
      ensures Valid() && state == Next(old(state), maxPending, Claim)
      ensures publication == if old(stopping) then None else Some(old(pending)[0])
      ensures active == publication.Some? && pending == if old(stopping) then [] else old(pending)[1..]
    {
      if stopping {
        pending := [];
        active := false;
        publication := None;
      } else {
        publication := Some(pending[0]);
        pending := pending[1..];
        active := true;
      }
      state := Next(state, maxPending, Claim);
    }

    /** The storage call, outside the lock, has returned or raised. */
    ghost method StorageCallEnds(applied: bool)
      requires Valid() && Enabled(state, WriteEnds(applied))
      modifies this
      ensures Valid() && state == Next(old(state), maxPending, WriteEnds(applied))
      ensures pending == old(pending) && active && !logging && stopping == old(stopping)
    {
      state := Next(state, maxPending, WriteEnds(applied));
    }

    /** The locked step behind the storage call. False means the thread has returned. */
    method BeginLog() returns (goesOn: bool)
      requires Valid() && Enabled(state, AfterWrite)
      modifies this
      ensures Valid() && state == Next(old(state), maxPending, AfterWrite)
      ensures goesOn == !old(stopping) && logging == active == goesOn
    {
      if stopping {
        active := false;
        goesOn := false;
      } else {
        logging := true;
        goesOn := true;
      }
      state := Next(state, maxPending, AfterWrite);
    }

    method EndLog()
      requires Valid() && Enabled(state, LogEnds)
      modifies this
      ensures Valid() && state == Next(old(state), maxPending, LogEnds)
      ensures !logging && !active && pending == old(pending)
    {
      logging := false;
      active := false;
      state := Next(state, maxPending, LogEnds);
    }

    /** The first half of shutdown(); the second half waits until `logging` is false. */
    method ClaimStop()
      requires Valid()
      modifies this
      ensures Valid() && state == Next(old(state), maxPending, StopClaim)
      ensures stopping && pending == []
    {
      stopping := true;
      pending := [];
      state := Next(state, maxPending, StopClaim);
    }

    /** One look at `logging` by the waiting half of shutdown(). */
    method TryReturnFromShutdown() returns (returned: bool)
      requires Valid() && stopping
      modifies this
      ensures Valid() && returned == Enabled(old(state), StopReturns)
      ensures state == if returned then Next(old(state), maxPending, StopReturns) else old(state)
    {
      returned := !logging;
      if returned {
        state := Next(state, maxPending, StopReturns);
      }
    }
  }

  // ----- what every step keeps --------------------------------------------------------------------

  /** A later verdict for the same path was accepted. */
  ghost predicate Superseded(accepted: seq<Publication>, t: nat) {
    t < |accepted| && exists u :: t < u < |accepted| && accepted[u].path == accepted[t].path
  }

  ghost predicate IsPending(pending: seq<nat>, t: nat) {
    exists i :: 0 <= i < |pending| && pending[i] == t
  }

  /** One pending ticket per path, the newest of its path, and newer than all handed over. */
  ghost predicate PendingIsNewest(accepted: seq<Publication>, pending: seq<nat>, handed: multiset<nat>)
    requires forall i :: 0 <= i < |pending| ==> pending[i] < |accepted|
    requires forall t :: t in handed ==> t < |accepted|
  {
    && OnePerPath(accepted, pending)
    && (forall i :: 0 <= i < |pending| ==> !Superseded(accepted, pending[i]))
    && NewerThanHanded(accepted, pending, handed)
  }

  ghost predicate OnePerPath(accepted: seq<Publication>, pending: seq<nat>)
    requires forall i :: 0 <= i < |pending| ==> pending[i] < |accepted|
  {
    forall i, j :: 0 <= i < j < |pending| ==> accepted[pending[i]].path != accepted[pending[j]].path
  }

  ghost predicate NewerThanHanded(accepted: seq<Publication>, pending: seq<nat>, handed: multiset<nat>)
    requires forall i :: 0 <= i < |pending| ==> pending[i] < |accepted|
    requires forall t :: t in handed ==> t < |accepted|
  {
    forall i, t :: 0 <= i < |pending| && t in handed && accepted[t].path == accepted[pending[i]].path ==>
      t < pending[i]
  }

  /** Nothing is lost, except to a later verdict for its path. */
  ghost predicate Conserved(accepted: seq<Publication>, pending: seq<nat>, handed: multiset<nat>) {
    forall t :: 0 <= t < |accepted| ==> t in handed || IsPending(pending, t) || Superseded(accepted, t)
  }

  /** While no write has failed, each path holds the newest verdict handed over and written. */
  ghost predicate StorageCurrent(s: State)
    requires TicketsExist(s)
  {
    && (s.worker.Writing? ==> NewestHanded(s.accepted, s.handed, s.worker.ticket))
    && StorageWasHanded(s.accepted, s.handed, s.storage)
    && (s.failures == 0 ==> HandedIsStored(s.accepted, s.handed, s.storage, s.worker))
  }

  ghost predicate NewestHanded(accepted: seq<Publication>, handed: multiset<nat>, t: nat)
    requires t < |accepted| && forall u :: u in handed ==> u < |accepted|
  {
    t in handed && forall u :: u in handed && accepted[u].path == accepted[t].path ==> u <= t
  }

  ghost predicate StorageWasHanded(accepted: seq<Publication>, handed: multiset<nat>, storage: map<string, nat>)
    requires forall u :: u in handed ==> u < |accepted|
  {
    forall path :: path in storage ==> storage[path] in handed && accepted[storage[path]].path == path
  }

  ghost predicate HandedIsStored(accepted: seq<Publication>, handed: multiset<nat>, storage: map<string, nat>,
                                 w: Worker)
    requires forall u :: u in handed ==> u < |accepted|
  {
    forall u :: u in handed && w != Writing(u) ==> accepted[u].path in storage && storage[accepted[u].path] >= u
  }

  /** Is this ticket between the start of its write and the step behind it? */
  function AtWork(w: Worker, t: nat): nat {
    if (w.Writing? || w.Wrote?) && w.ticket == t then 1 else 0
  }

  /** Until a stop each verdict handed over is written and then logged once; a stop may cost a log. */
  ghost predicate LogsFollowWrites(handed: multiset<nat>, logged: multiset<nat>, w: Worker, stopping: bool) {
    forall t: nat ::
      if stopping then logged[t] + AtWork(w, t) <= handed[t] else logged[t] + AtWork(w, t) == handed[t]
  }

  ghost predicate Inv(s: State, cap: nat) {
    && TicketsExist(s)
    && PendingIsNewest(s.accepted, s.pending, s.handed)
    && (forall t :: s.handed[t] <= 1)
    && (!s.stopping ==> Conserved(s.accepted, s.pending, s.handed))
    && StorageCurrent(s)
    && LogsFollowWrites(s.handed, s.logged, s.worker, s.stopping)
    && |s.pending| <= cap
    && (s.stopping ==> s.pending == [])
    && (s.stopped ==> s.stopping && !s.worker.Logging?)
    && (s.worker.Gone? ==> s.stopping)
    && (s.worker.NoThread? ==> s.pending == [])
  }

  /** Every step is enabled where it is taken. That its tickets exist, which makes the step
      well defined, is part of the invariant and never an extra demand. */
  ghost predicate Legal(s: State, cap: nat, es: seq<Event>)
    requires TicketsExist(s)
    decreases |es|
  {
    es != [] ==> Enabled(s, es[0]) && TicketsExist(Next(s, cap, es[0])) && Legal(Next(s, cap, es[0]), cap, es[1..])
  }

  ghost function Run(s: State, cap: nat, es: seq<Event>): State
    requires TicketsExist(s) && Legal(s, cap, es)
    decreases |es|
  {
    if es == [] then s else Run(Next(s, cap, es[0]), cap, es[1..])
  }

  lemma SubmitKeepsInv(s: State, cap: nat, e: Event)
    requires Inv(s, cap) && e.Submit?
    ensures TicketsExist(Next(s, cap, e)) && Inv(Next(s, cap, e), cap)
  {
    var t := Next(s, cap, e);
    if t != s {
      var k := Position(s.accepted, s.pending, e.publication.path);
      SubmitKeepsNewest(s.accepted, s.pending, s.handed, e.publication, k);
      SubmitConserves(s.accepted, s.pending, s.handed, e.publication, k);
      SubmitKeepsStorage(s, t);
    }
  }

  lemma SubmitKeepsStorage(s: State, t: State)
    requires TicketsExist(s) && TicketsExist(t) && StorageCurrent(s)
    requires s.accepted <= t.accepted && t.handed == s.handed && t.storage == s.storage && t.failures == s.failures
    requires t.worker == s.worker || (!t.worker.Writing? && !s.worker.Writing?)
    ensures StorageCurrent(t)
  {
    assert forall u :: 0 <= u < |s.accepted| ==> t.accepted[u] == s.accepted[u];
  }

  lemma SubmitKeepsNewest(accepted: seq<Publication>, pending: seq<nat>, handed: multiset<nat>,
                          p: Publication, k: nat)
    requires forall i :: 0 <= i < |pending| ==> pending[i] < |accepted|
    requires forall t :: t in handed ==> t < |accepted|
    requires k == Position(accepted, pending, p.path)
    requires PendingIsNewest(accepted, pending, handed)
    ensures PendingIsNewest(accepted + [p], Placed(pending, k, |accepted|), handed)
  {
    var after, placed := accepted + [p], Placed(pending, k, |accepted|);
    SubmitKeepsOnePerPath(accepted, pending, p, k);
    forall i | 0 <= i < |placed| ensures !Superseded(after, placed[i]) {
      AcceptingSupersedes(accepted, p);
    }
  }

  /** No other pending ticket has the path, so each keeps what it had. */
  lemma SubmitKeepsOnePerPath(accepted: seq<Publication>, pending: seq<nat>, p: Publication, k: nat)
    requires forall i :: 0 <= i < |pending| ==> pending[i] < |accepted|
    requires k == Position(accepted, pending, p.path)
    requires OnePerPath(accepted, pending)
    ensures forall i :: 0 <= i < |pending| && i != k ==> accepted[pending[i]].path != p.path
    ensures OnePerPath(accepted + [p], Placed(pending, k, |accepted|))
  {}

  lemma SubmitConserves(accepted: seq<Publication>, pending: seq<nat>, handed: multiset<nat>,
                        p: Publication, k: nat)
    requires forall i :: 0 <= i < |pending| ==> pending[i] < |accepted|
    requires k == Position(accepted, pending, p.path)
    requires Conserved(accepted, pending, handed)
    ensures Conserved(accepted + [p], Placed(pending, k, |accepted|), handed)
  {
    AcceptingSupersedes(accepted, p);
    var placed := Placed(pending, k, |accepted|);
    forall t | 0 <= t < |accepted| + 1
      ensures t in handed || IsPending(placed, t) || Superseded(accepted + [p], t)
    {
      if t == |accepted| {
        assert placed[k] == t;
      } else if IsPending(pending, t) {
        var i :| 0 <= i < |pending| && pending[i] == t;
        if i != k { assert placed[i] == t; }
      }
    }
  }

  /** Accepting a verdict supersedes exactly the earlier ones for its path. */
  lemma AcceptingSupersedes(accepted: seq<Publication>, p: Publication)
    ensures !Superseded(accepted + [p], |accepted|)
    ensures forall t :: 0 <= t < |accepted| ==>
              (Superseded(accepted + [p], t) <==> Superseded(accepted, t) || accepted[t].path == p.path)
  {
    var after, n := accepted + [p], |accepted|;
    forall t | 0 <= t < n
      ensures Superseded(after, t) <==> Superseded(accepted, t) || accepted[t].path == p.path
    {
      if Superseded(accepted, t) {
        var u :| t < u < n && accepted[u].path == accepted[t].path;
        assert after[u].path == after[t].path;
      }
      if accepted[t].path == p.path { assert after[n].path == after[t].path; }
    }
  }

  lemma ClaimKeepsInv(s: State, cap: nat)
    requires Inv(s, cap) && Enabled(s, Claim)
    ensures TicketsExist(Next(s, cap, Claim)) && Inv(Next(s, cap, Claim), cap)
  {
    if !s.stopping {
      ClaimConserves(s.accepted, s.pending, s.handed);
      ClaimKeepsStorage(s, cap);
    }
  }

  lemma ClaimConserves(accepted: seq<Publication>, pending: seq<nat>, handed: multiset<nat>)
    requires pending != [] && Conserved(accepted, pending, handed)
    ensures Conserved(accepted, pending[1..], handed + multiset{pending[0]})
  {
    forall u | 0 <= u < |accepted| && IsPending(pending, u)
      ensures u in handed + multiset{pending[0]} || IsPending(pending[1..], u)
    {
      var i :| 0 <= i < |pending| && pending[i] == u;
      if i > 0 { assert pending[1..][i - 1] == u; }
    }
  }

  lemma ClaimKeepsStorage(s: State, cap: nat)
    requires TicketsExist(s) && Enabled(s, Claim) && !s.stopping && StorageCurrent(s)
    requires NewerThanHanded(s.accepted, s.pending, s.handed)
    ensures TicketsExist(Next(s, cap, Claim)) && StorageCurrent(Next(s, cap, Claim))
  {
    var t := s.pending[0];
    ClaimIsNewest(s.accepted, s.pending, s.handed);
    ClaimKeepsWasHanded(s.accepted, s.handed, s.storage, t);
    if s.failures == 0 { ClaimKeepsStored(s.accepted, s.handed, s.storage, t); }
  }

  lemma ClaimIsNewest(accepted: seq<Publication>, pending: seq<nat>, handed: multiset<nat>)
    requires pending != [] && forall i :: 0 <= i < |pending| ==> pending[i] < |accepted|
    requires forall u :: u in handed ==> u < |accepted|
    requires NewerThanHanded(accepted, pending, handed)
    ensures NewestHanded(accepted, handed + multiset{pending[0]}, pending[0])
  {}

  lemma ClaimKeepsWasHanded(accepted: seq<Publication>, handed: multiset<nat>, storage: map<string, nat>, t: nat)
    requires t < |accepted| && forall u :: u in handed ==> u < |accepted|
    requires StorageWasHanded(accepted, handed, storage)
    ensures StorageWasHanded(accepted, handed + multiset{t}, storage)
  {}

  lemma ClaimKeepsStored(accepted: seq<Publication>, handed: multiset<nat>, storage: map<string, nat>, t: nat)
    requires t < |accepted| && forall u :: u in handed ==> u < |accepted|
    requires HandedIsStored(accepted, handed, storage, Top)
    ensures HandedIsStored(accepted, handed + multiset{t}, storage, Writing(t))
  {}

  lemma WriteKeepsInv(s: State, cap: nat, e: Event)
    requires Inv(s, cap) && Enabled(s, e) && e.WriteEnds?
    ensures TicketsExist(Next(s, cap, e)) && Inv(Next(s, cap, e), cap)
  {
    WriteKeepsStorage(s, cap, e);
  }

  lemma WriteKeepsStorage(s: State, cap: nat, e: Event)
    requires TicketsExist(s) && Enabled(s, e) && e.WriteEnds? && StorageCurrent(s)
    ensures TicketsExist(Next(s, cap, e)) && StorageCurrent(Next(s, cap, e))
  {
    var t := s.worker.ticket;
    if e.applied {
      WriteWasHanded(s.accepted, s.handed, s.storage, t);
      if s.failures == 0 { WriteIsStored(s.accepted, s.handed, s.storage, t); }
    }
  }

  lemma WriteWasHanded(accepted: seq<Publication>, handed: multiset<nat>, storage: map<string, nat>, t: nat)
    requires t in handed && forall u :: u in handed ==> u < |accepted|
    requires StorageWasHanded(accepted, handed, storage)
    ensures StorageWasHanded(accepted, handed, storage[accepted[t].path := t])
  {}

  lemma WriteIsStored(accepted: seq<Publication>, handed: multiset<nat>, storage: map<string, nat>, t: nat)
    requires t < |accepted| && forall u :: u in handed ==> u < |accepted|
    requires NewestHanded(accepted, handed, t) && HandedIsStored(accepted, handed, storage, Writing(t))
    ensures HandedIsStored(accepted, handed, storage[accepted[t].path := t], Wrote(t))
  {}

  lemma StepKeepsInv(s: State, cap: nat, e: Event)
    requires Inv(s, cap) && Enabled(s, e)
    ensures TicketsExist(Next(s, cap, e)) && Inv(Next(s, cap, e), cap)
  {
    match e
    case Submit(_, _) => SubmitKeepsInv(s, cap, e);
    case Claim => ClaimKeepsInv(s, cap);
    case WriteEnds(_) => WriteKeepsInv(s, cap, e);
    case _ =>
  }

  lemma {:induction false} RunKeepsInv(s: State, cap: nat, es: seq<Event>)
    requires Inv(s, cap) && Legal(s, cap, es)
    ensures Inv(Run(s, cap, es), cap)
    decreases |es|
  {
    if es != [] {
      StepKeepsInv(s, cap, es[0]);
      RunKeepsInv(Next(s, cap, es[0]), cap, es[1..]);
    }
  }

  // ----- what it is for ---------------------------------------------------------------------------

  lemma InitialHolds(cap: nat)
    ensures Inv(INITIAL, cap)
  {}

  /** Before a stop, every accepted verdict is in exactly one place: handed to the writer exactly
      once, waiting its turn, or replaced by a later one for its path; a replaced one may have
      been handed over before it was replaced, but never twice. One handed over is being written
      or has had its completion log begun, once. */
  lemma EveryVerdictOnceOrSuperseded(cap: nat, es: seq<Event>)
    requires Legal(INITIAL, cap, es)
    ensures EachInOnePlace(Run(INITIAL, cap, es), cap)
  {
    InitialHolds(cap);
    RunKeepsInv(INITIAL, cap, es);
    Places(Run(INITIAL, cap, es), cap);
  }

  ghost predicate EachInOnePlace(s: State, cap: nat) {
    |s.pending| <= cap && (!s.stopping ==> forall t: nat :: t < |s.accepted| ==> InOnePlace(s, t))
  }

  ghost predicate InOnePlace(s: State, t: nat) {
    && s.handed[t] <= 1
    && !(s.handed[t] == 1 && IsPending(s.pending, t))
    && (s.handed[t] == 1 || IsPending(s.pending, t) || Superseded(s.accepted, t))
    && (IsPending(s.pending, t) ==> !Superseded(s.accepted, t))
    && s.logged[t] + (if (s.worker.Writing? || s.worker.Wrote?) && s.worker.ticket == t then 1 else 0) == s.handed[t]
  }

  lemma Places(s: State, cap: nat)
    requires Inv(s, cap)
    ensures EachInOnePlace(s, cap)
  {
    if !s.stopping {
      forall t: nat | t < |s.accepted| ensures InOnePlace(s, t) {
        assert Conserved(s.accepted, s.pending, s.handed);
      }
    }
  }

  /** When the publisher is idle and no write has failed, every path holds the last verdict
      accepted for it. */
  lemma IdleStorageIsLatest(cap: nat, es: seq<Event>, t: nat)
    requires Legal(INITIAL, cap, es)
    requires var s := Run(INITIAL, cap, es);
             && !s.stopping && (s.worker.Top? || s.worker.NoThread?)
             && s.pending == [] && s.failures == 0
             && t < |s.accepted| && !Superseded(s.accepted, t)
    ensures var s := Run(INITIAL, cap, es);
            s.accepted[t].path in s.storage && s.storage[s.accepted[t].path] == t
  {
    InitialHolds(cap);
    RunKeepsInv(INITIAL, cap, es);
    var s := Run(INITIAL, cap, es);
    NothingWaits(s.accepted, s.handed, t);
    LatestIsStored(s, t);
  }

  lemma NothingWaits(accepted: seq<Publication>, handed: multiset<nat>, t: nat)
    requires Conserved(accepted, [], handed) && t < |accepted| && !Superseded(accepted, t)
    ensures t in handed
  {
    assert !IsPending([], t);
  }

  lemma LatestIsStored(s: State, t: nat)
    requires TicketsExist(s) && StorageCurrent(s) && !s.worker.Writing? && s.failures == 0
    requires t in s.handed && !Superseded(s.accepted, t)
    ensures s.accepted[t].path in s.storage && s.storage[s.accepted[t].path] == t
  {
    var u := s.storage[s.accepted[t].path];
    assert u > t ==> Superseded(s.accepted, t);
  }

  ghost predicate PathPending(s: State, path: string)
    requires TicketsExist(s)
  {
    exists i :: 0 <= i < |s.pending| && s.accepted[s.pending[i]].path == path
  }

  /** Accepting evidence never erases other evidence: a refresh takes over the place of its path,
      a new path goes to the end, and every other ticket stays where it is. Refusal needs a stop,
      a thread that cannot start, or a full set of other paths. */
  lemma AcceptingErasesNothing(s: State, cap: nat, e: Event)
    requires Inv(s, cap) && e.Submit?
    ensures var t, path := Next(s, cap, e), e.publication.path;
            if Accepts(s, cap, e.publication, e.threadStarts) then
              && !s.stopping && (s.worker.NoThread? ==> e.threadStarts) && (PathPending(s, path) || |s.pending| < cap)
              && t.accepted == s.accepted + [e.publication]
              && |t.pending| == |s.pending| + (if PathPending(s, path) then 0 else 1)
              && (forall i :: 0 <= i < |s.pending| && s.accepted[s.pending[i]].path != path ==>
                    t.pending[i] == s.pending[i])
              && (exists k :: 0 <= k < |t.pending| && t.pending[k] == |s.accepted|
                              && (k < |s.pending| ==> s.accepted[s.pending[k]].path == path))
            else
              && t == s
              && (s.stopping || (s.worker.NoThread? && !e.threadStarts)
                  || (|s.pending| == cap && !PathPending(s, path)))
  {
    var k := Position(s.accepted, s.pending, e.publication.path);
    if Accepts(s, cap, e.publication, e.threadStarts) {
      assert Next(s, cap, e).pending[k] == |s.accepted|;
    }
  }

  // ----- fairness ----------------------------------------------------------------------------------

  function Claims(es: seq<Event>): nat {
    if es == [] then 0 else (if es[0].Claim? then 1 else 0) + Claims(es[1..])
  }

  ghost predicate WaitsAt(s: State, path: string, k: nat) {
    k < |s.pending| && s.pending[k] < |s.accepted| && s.accepted[s.pending[k]].path == path
  }

  predicate NoStop(es: seq<Event>) {
    es == [] || (!es[0].StopClaim? && NoStop(es[1..]))
  }

  lemma StepMovesUp(s: State, cap: nat, path: string, k: nat, e: Event)
    requires Inv(s, cap) && Enabled(s, e) && !s.stopping && !e.StopClaim?
    requires WaitsAt(s, path, k) && (e.Claim? ==> k > 0)
    ensures !Next(s, cap, e).stopping
    ensures WaitsAt(Next(s, cap, e), path, if e.Claim? then k - 1 else k)
  {}

  /** However often it is refreshed and whatever else is submitted, a path with k paths ahead of
      it is still behind exactly those that have not been claimed, ... */
  lemma {:induction false} WaitingPathMovesUp(s: State, cap: nat, path: string, k: nat, es: seq<Event>)
    requires Inv(s, cap) && !s.stopping && WaitsAt(s, path, k)
    requires Legal(s, cap, es) && NoStop(es) && Claims(es) <= k
    ensures !Run(s, cap, es).stopping && WaitsAt(Run(s, cap, es), path, k - Claims(es))
    decreases |es|
  {
    if es == [] {
      assert Claims(es) == 0 && Run(s, cap, es) == s;
    } else {
      var next, rest := Next(s, cap, es[0]), es[1..];
      var left := if es[0].Claim? then k - 1 else k;
      assert Claims(es) == Claims(rest) + (k - left);
      StepKeepsInv(s, cap, es[0]);
      StepMovesUp(s, cap, path, k, es[0]);
      WaitingPathMovesUp(next, cap, path, left, rest);
      assert Run(s, cap, es) == Run(next, cap, rest) && left - Claims(rest) == k - Claims(es);
    }
  }

  /** ... and the claim after k others takes it, with the newest verdict accepted for it by then. */
  lemma ClaimedAfterExactlyKOthers(s: State, cap: nat, path: string, k: nat, es: seq<Event>)
    requires Inv(s, cap) && !s.stopping && WaitsAt(s, path, k)
    requires Legal(s, cap, es) && NoStop(es) && Claims(es) == k
    requires Enabled(Run(s, cap, es), Claim)
    ensures TicketsExist(Run(s, cap, es))
    ensures var t := Next(Run(s, cap, es), cap, Claim);
            && t.worker.Writing?
            && t.worker.ticket < |t.accepted|
            && t.accepted[t.worker.ticket].path == path
            && !Superseded(t.accepted, t.worker.ticket)
  {
    RunKeepsInv(s, cap, es);
    WaitingPathMovesUp(s, cap, path, k, es);
  }

  // ----- shutdown -----------------------------------------------------------------------------------

  /** What a stop lets happen: nothing but the end of a write and of a log already begun. */
  ghost predicate Winding(s: State, t: State)
    requires TicketsExist(s)
  {
    && t.stopping && t.pending == [] && t.accepted == s.accepted && t.handed == s.handed && t.logged == s.logged
    && (t.storage == s.storage
        || (s.worker.Writing? && !t.worker.Writing?
            && t.storage == s.storage[s.accepted[s.worker.ticket].path := s.worker.ticket]))
    && (t.worker.Writing? ==> t.worker == s.worker && t.storage == s.storage)
    && (t.worker.Logging? ==> s.worker.Logging?)
    && (t.stopped ==> !t.worker.Logging?)
  }

  /** Once the stop is claimed, at most the write already claimed still reaches storage, no
      completion log starts, and once shutdown() has returned none is running either. */
  lemma {:induction false} NothingStartsAfterStop(s: State, cap: nat, es: seq<Event>)
    requires Inv(s, cap) && s.stopping && Legal(s, cap, es)
    ensures Winding(s, Run(s, cap, es))
    decreases |es|
  {
    if es != [] {
      var next := Next(s, cap, es[0]);
      StepKeepsInv(s, cap, es[0]);
      StepWinds(s, cap, es[0]);
      NothingStartsAfterStop(next, cap, es[1..]);
      WindingComposes(s, next, Run(next, cap, es[1..]));
    }
  }

  lemma StepWinds(s: State, cap: nat, e: Event)
    requires Inv(s, cap) && s.stopping && Enabled(s, e)
    ensures Winding(s, Next(s, cap, e))
  {}

  lemma WindingComposes(s: State, t: State, u: State)
    requires TicketsExist(s) && TicketsExist(t) && Winding(s, t) && Winding(t, u)
    ensures Winding(s, u)
  {}

  /** shutdown() as a whole: from any moment on, its stop sets the flag and empties the pending set at
      once, and then holds all of the above. */
  lemma NothingStartsFromTheStopOn(s: State, cap: nat, es: seq<Event>)
    requires Inv(s, cap) && Legal(s, cap, [StopClaim] + es)
    ensures Winding(s, Run(s, cap, [StopClaim] + es))
    ensures var t := Next(s, cap, StopClaim);
            t.stopping && t.pending == [] && t.worker == s.worker && t.storage == s.storage
  {
    var next := Next(s, cap, StopClaim);
    assert ([StopClaim] + es)[1..] == es;
    StepKeepsInv(s, cap, StopClaim);
    NothingStartsAfterStop(next, cap, es);
    WindingComposes(s, next, Run(next, cap, es));
  }

  /** shutdown() waits for a running log only. It never waits for storage, the log it may wait for
      ends in one step, and nothing the other threads do can make it wait again. */
  lemma ShutdownWaitsForTheLogOnly(s: State, cap: nat, es: seq<Event>)
    requires Inv(s, cap) && s.stopping
    ensures Enabled(s, StopReturns) <==> !s.worker.Logging?
    ensures s.worker.Logging? ==> Enabled(s, LogEnds) && Enabled(Next(s, cap, LogEnds), StopReturns)
    ensures Enabled(s, StopReturns) && Legal(s, cap, es) ==> Enabled(Run(s, cap, es), StopReturns)
  {
    if Legal(s, cap, es) { NothingStartsAfterStop(s, cap, es); }
  }
}
