/** The agent thread: watch a window, accuse, ask the budget, and walk the candidates. A walk
    disconnects, tries the ranked servers under a deadline, verifies by traffic, and ends on
    `quick` if nothing held. Every daemon answer and every duration within its bound is possible. */
module Agent {
  import opened Numbers
  import opened Wrappers

  import Budget
  import Text
  import Watch

  /** The agent's calls on the daemon and the tunnel, as the walk sees them. */
  datatype Call =
    | Disconnect
    | Dial(server: Option<string>, started: real, reported: Option<string>)  // None dials quick
    | Device(ok: bool)
    | Traffic(passed: bool)

  datatype Reason = Degradation | BootUpgrade

  datatype Config = Config(
    callBound: real,        // longest one daemon call takes
    probeBound: real,       // longest one traffic probe takes
    verifySeconds: real,
    verifyInterval: real,
    verifyMaxLoss: real,
    attempts: nat,
    retryBackoff: real,
    recoveryBudget: real,
    quickReserve: real,
    jitter: real,
    cooldown: real,
    failedCooldown: real,
    escapeWindow: real,
    badLoss: real,
    badWindows: int,
    band: nat,
    dryRun: bool)

  predicate ValidConfig(cfg: Config) {
    && cfg.callBound >= 0.0 && cfg.probeBound >= 0.0
    && cfg.verifyInterval > 0.0
    && cfg.retryBackoff >= 0.0 && cfg.jitter >= 0.0
  }

  // ----- what a good walk is ---------------------------------------------------------------------------

  /** Has the last dial reported a connection that no disconnect has ended? */
  predicate Up(t: seq<Call>) {
    t != [] && match t[|t| - 1] {
      case Disconnect => false
      case Dial(_, _, reported) => reported.Some?
      case _ => Up(t[..|t| - 1])
    }
  }

  predicate HasConnected(t: seq<Call>, name: string) {
    exists i :: 0 <= i < |t| && t[i].Dial? && t[i].server == Some(name) && t[i].reported.Some?
  }

  predicate HasDialedQuick(t: seq<Call>) {
    exists i :: 0 <= i < |t| && t[i].Dial? && t[i].server.None?
  }

  function Dials(t: seq<Call>): nat {
    if t == [] then 0 else Dials(t[..|t| - 1]) + if t[|t| - 1].Dial? then 1 else 0
  }

  /** May this call follow these? No dial over a reported connection, none after quick, no
      candidate at or past the walk deadline. */
  predicate MayFollow(t: seq<Call>, c: Call, walkDeadline: real) {
    c.Dial? ==>
      && !Up(t)
      && !HasDialedQuick(t)
      && (c.server.Some? ==> c.started < walkDeadline)
  }

  predicate Orderly(t: seq<Call>, walkDeadline: real) {
    t != [] ==> Orderly(t[..|t| - 1], walkDeadline) && MayFollow(t[..|t| - 1], t[|t| - 1], walkDeadline)
  }

  /** No candidate is dialed again once it has reported a connection. */
  predicate NeverRedialed(t: seq<Call>) {
    forall i, j :: 0 <= i < j < |t| && t[i].Dial? && t[i].server.Some? && t[i].reported.Some? && t[j].Dial? ==>
      t[j].server != t[i].server
  }

  /** What order means between any two dials of a walk: a reported connection is ended by a
      disconnect before the next dial, and quick is the last dial there is. */
  lemma {:induction false} DialsAreSeparated(t: seq<Call>, w: real, i: nat, j: nat)
    requires Orderly(t, w) && i < j < |t| && t[i].Dial? && t[j].Dial?
    ensures t[i].server.Some? && t[i].started < w
    ensures t[i].reported.Some? ==> exists k :: i < k < j && t[k] == Call.Disconnect
    decreases |t|
  {
    var front := t[..|t| - 1];
    if j < |t| - 1 {
      DialsAreSeparated(front, w, i, j);
      if t[i].reported.Some? {
        var k :| i < k < j && front[k] == Call.Disconnect;
        assert t[k] == Call.Disconnect;
      }
    } else {
      OrderlyPrefix(t, w, i + 1);
      assert t[..i + 1][..i] == t[..i];
      assert front[i] == t[i];
      if t[i].reported.Some? { StaysUp(t, w, i, j); }
    }
  }

  lemma {:induction false} OrderlyPrefix(t: seq<Call>, w: real, n: nat)
    requires Orderly(t, w) && n <= |t|
    ensures Orderly(t[..n], w)
    decreases |t|
  {
    if n < |t| {
      OrderlyPrefix(t[..|t| - 1], w, n);
      assert t[..|t| - 1][..n] == t[..n];
    } else {
      assert t[..n] == t;
    }
  }

  lemma {:induction false} StaysUp(t: seq<Call>, w: real, i: nat, j: nat)
    requires Orderly(t, w) && i < j <= |t| && t[i].Dial? && t[i].reported.Some?
    ensures Up(t[..j]) || exists k :: i < k < j && t[k] == Call.Disconnect
    decreases j
  {
    assert t[..j][..j - 1] == t[..j - 1];
    if j > i + 1 && !exists k :: i < k < j && t[k] == Call.Disconnect {
      StaysUp(t, w, i, j - 1);
      OrderlyPrefix(t, w, j);
    }
  }

  lemma Appended(t: seq<Call>, c: Call, w: real)
    ensures (t + [c])[..|t|] == t
    ensures Orderly(t + [c], w) <==> Orderly(t, w) && MayFollow(t, c, w)
    ensures Dials(t + [c]) == Dials(t) + if c.Dial? then 1 else 0
  {
    assert (t + [c])[..|t|] == t;
  }

  lemma AppendedConnections(t: seq<Call>, c: Call)
    ensures HasDialedQuick(t + [c]) <==> HasDialedQuick(t) || (c.Dial? && c.server.None?)
    ensures forall name :: HasConnected(t + [c], name) <==>
              HasConnected(t, name) || (c.Dial? && c.server == Some(name) && c.reported.Some?)
    ensures NeverRedialed(t) && (c.Dial? ==> c.server.None? || !HasConnected(t, c.server.value)) ==>
              NeverRedialed(t + [c])
  {
    var u := t + [c];
    assert u[|t|] == c && forall i :: 0 <= i < |t| ==> u[i] == t[i];
  }

  predicate DialsOnly(t: seq<Call>, names: seq<string>) {
    forall i :: 0 <= i < |t| && t[i].Dial? && t[i].server.Some? ==> t[i].server.value in names
  }

  predicate Distinct(names: seq<string>) {
    forall i, j :: 0 <= i < j < |names| ==> names[i] != names[j]
  }

  /** How a walk ended. */
  datatype Ending = Held | WrongDevice | QuickVerified | QuickUnverified | NoTunnel

  function Earned(reason: Reason, cfg: Config): real {
    if reason == Degradation then cfg.cooldown else cfg.failedCooldown
  }

  function Armed(ending: Ending, reason: Reason, cfg: Config): real {
    match ending
    case Held => Earned(reason, cfg)
    case WrongDevice => cfg.cooldown
    case QuickVerified => Earned(reason, cfg)
    case QuickUnverified => cfg.failedCooldown
    case NoTunnel => cfg.failedCooldown
  }

  /** Longest a candidate dial begun before its deadline can run past it. */
  function DialOverrun(cfg: Config): real {
    Max(2.0 * cfg.callBound, cfg.callBound + cfg.verifyInterval)
  }

  /** Longest the agent stays with a candidate after its dial: dropping it, or backing off. */
  function LeaveTime(cfg: Config): real {
    Max(cfg.probeBound + 2.0 * cfg.callBound, 1.5 * cfg.retryBackoff)
  }

  predicate QuickInTime(t: real, started: real, walkDeadline: real, cfg: Config) {
    t <= started + 2.0 * cfg.callBound || t < walkDeadline + DialOverrun(cfg) + LeaveTime(cfg)
  }

  // ----- the story of a walk --------------------------------------------------------------------------------

  /** What one attempt at a candidate comes to. */
  datatype Outcome = Failed | Wrong | Verified | Dropped

  /** One attempt: at which candidate, when, and what came of it. */
  datatype Try = Try(n: nat, at: real, connected: Option<string>, outcome: Outcome)

  /** The fall back. The device is looked at, but decides nothing. */
  datatype Quick = Quick(at: real, connected: Option<string>, device: bool, passed: bool)

  datatype Story = Story(tries: seq<Try>, quick: Option<Quick>)

  /** The calls of one attempt. */
  function AttemptCalls(name: string, t: Try): seq<Call> {
    [Dial(Some(name), t.at, t.connected)] + match t.outcome
      case Failed => []
      case Wrong => [Device(false)]
      case Verified => [Device(true), Traffic(true)]
      case Dropped => [Device(true), Traffic(false), Call.Disconnect]
  }

  function QuickCalls(q: Quick): seq<Call> {
    [Dial(None, q.at, q.connected)] + if q.connected.Some? then [Device(q.device), Traffic(q.passed)] else []
  }

  function NameAt(names: seq<string>, n: nat): string {
    if n < |names| then names[n] else ""
  }

  function TryCalls(tries: seq<Try>, names: seq<string>): seq<Call> {
    if tries == [] then [Call.Disconnect]
    else
      var last := tries[|tries| - 1];
      TryCalls(tries[..|tries| - 1], names) + AttemptCalls(NameAt(names, last.n), last)
  }

  /** Every call of a walk: a disconnect, its attempts, and quick if it came to that. */
  function Calls(story: Story, names: seq<string>): seq<Call> {
    TryCalls(story.tries, names) + if story.quick.Some? then QuickCalls(story.quick.value) else []
  }

  /** Whose turn it is: candidate n, for the time after k failures. */
  datatype Turn = Turn(n: nat, k: nat)

  /** A failed candidate is tried again up to `attempts` times, a dropped one is not. */
  function TurnAfter(tries: seq<Try>, attempts: nat): Turn {
    if tries == [] then Turn(0, 0)
    else
      var t := TurnAfter(tries[..|tries| - 1], attempts);
      if tries[|tries| - 1].outcome == Failed && t.k + 1 < attempts then Turn(t.n, t.k + 1) else Turn(t.n + 1, 0)
  }

  predicate GoesOn(t: Try) { t.outcome == Failed || t.outcome == Dropped }

  /** Every attempt begins in time, at the candidate whose turn it is, and none follows one that
      ended the walk. */
  ghost predicate InTurn(tries: seq<Try>, names: seq<string>, attempts: nat, w: real) {
    tries != [] ==>
      var front, last := tries[..|tries| - 1], tries[|tries| - 1];
      && InTurn(front, names, attempts, w)
      && (front != [] ==> GoesOn(front[|front| - 1]))
      && attempts > 0
      && last.n == TurnAfter(front, attempts).n
      && last.n < |names|
      && last.at < w
      && (last.outcome == Failed <==> last.connected.None?)
  }

  /** A walk that may go on. */
  ghost predicate Underway(tries: seq<Try>, names: seq<string>, attempts: nat, w: real) {
    InTurn(tries, names, attempts, w) && (tries != [] ==> GoesOn(tries[|tries| - 1]))
  }

  /** The exact course of a walk. It ends with an attempt that held or met a wrong device, or with
      quick; and with quick only when every candidate had its turns or time was up. */
  ghost predicate Told(story: Story, names: seq<string>, attempts: nat, w: real) {
    if story.quick.None? then
      InTurn(story.tries, names, attempts, w) && story.tries != [] && !GoesOn(story.tries[|story.tries| - 1])
    else
      && Underway(story.tries, names, attempts, w)
      && (story.quick.value.at >= w || attempts == 0 || TurnAfter(story.tries, attempts).n == |names|)
  }

  function EndingOf(story: Story): Ending
    requires story.quick.None? ==> story.tries != []
  {
    if story.quick.None? then
      (if story.tries[|story.tries| - 1].outcome == Wrong then WrongDevice else Held)
    else if story.quick.value.connected.None? then NoTunnel
    else if story.quick.value.passed then QuickVerified else QuickUnverified
  }

  /** The server the walk ended on. */
  function Reported(story: Story): Option<string>
    requires story.quick.None? ==> story.tries != []
  {
    if story.quick.None? then story.tries[|story.tries| - 1].connected else story.quick.value.connected
  }

  lemma NextInTurn(tries: seq<Try>, names: seq<string>, attempts: nat, w: real, t: Try)
    requires Underway(tries, names, attempts, w) && attempts > 0
    requires t.n < |names| && t.n == TurnAfter(tries, attempts).n && t.at < w
    requires t.outcome == Failed <==> t.connected.None?
    ensures GoesOn(t) ==> Underway(tries + [t], names, attempts, w)
    ensures !GoesOn(t) ==> Told(Story(tries + [t], None), names, attempts, w)
    ensures TryCalls(tries + [t], names) == TryCalls(tries, names) + AttemptCalls(NameAt(names, t.n), t)
    ensures TurnAfter(tries + [t], attempts)
         == var turn := TurnAfter(tries, attempts);
            if t.outcome == Failed && turn.k + 1 < attempts then Turn(turn.n, turn.k + 1) else Turn(turn.n + 1, 0)
  {
    assert (tries + [t])[..|tries|] == tries;
  }

  // ----- what the story implies -----------------------------------------------------------------------------

  ghost predicate Sound(t: seq<Call>, names: seq<string>, w: real) {
    t != [] && t[0] == Call.Disconnect && Orderly(t, w) && DialsOnly(t, names)
  }

  lemma SoundAppends(t: seq<Call>, c: Call, names: seq<string>, w: real)
    requires Sound(t, names, w) && MayFollow(t, c, w)
    requires c.Dial? && c.server.Some? ==> c.server.value in names
    ensures Sound(t + [c], names, w)
    ensures !HasDialedQuick(t) && (c.Dial? ==> c.server.Some?) ==> !HasDialedQuick(t + [c])
    ensures NeverRedialed(t) && (c.Dial? ==> c.server.None? || !HasConnected(t, c.server.value)) ==>
              NeverRedialed(t + [c])
    ensures Dials(t + [c]) == Dials(t) + if c.Dial? then 1 else 0
  {
    Appended(t, c, w);
    AppendedConnections(t, c);
  }

  /** Calls that dial nothing change none of this. */
  lemma {:induction false} TailKeeps(t: seq<Call>, tail: seq<Call>, names: seq<string>, w: real)
    requires Sound(t, names, w)
    requires forall i :: 0 <= i < |tail| ==> !tail[i].Dial?
    ensures Sound(t + tail, names, w)
    ensures !HasDialedQuick(t) ==> !HasDialedQuick(t + tail)
    ensures NeverRedialed(t) ==> NeverRedialed(t + tail)
    ensures forall name :: HasConnected(t + tail, name) ==> HasConnected(t, name)
    ensures Dials(t + tail) == Dials(t)
  {
    if tail == [] {
      assert t + tail == t;
    } else {
      var front, last := tail[..|tail| - 1], tail[|tail| - 1];
      TailKeeps(t, front, names, w);
      SoundAppends(t + front, last, names, w);
      AppendedConnections(t + front, last);
      assert t + tail == t + front + [last];
    }
  }

  lemma AttemptGrowsWalk(t: seq<Call>, names: seq<string>, w: real, name: string, attempt: Try)
    requires Sound(t, names, w) && !Up(t) && !HasDialedQuick(t)
    requires name in names && attempt.at < w && (attempt.outcome == Failed <==> attempt.connected.None?)
    ensures var u := t + AttemptCalls(name, attempt);
            && Sound(u, names, w) && !HasDialedQuick(u)
            && Dials(u) == Dials(t) + 1
            && (GoesOn(attempt) ==> !Up(u))
            && (NeverRedialed(t) && !HasConnected(t, name) ==> NeverRedialed(u))
            && (forall other :: HasConnected(u, other) ==>
                  HasConnected(t, other) || (other == name && attempt.outcome != Failed))
  {
    var dial, calls := Dial(Some(name), attempt.at, attempt.connected), AttemptCalls(name, attempt);
    SoundAppends(t, dial, names, w);
    AppendedConnections(t, dial);
    TailKeeps(t + [dial], calls[1..], names, w);
    assert t + calls == t + [dial] + calls[1..];
    if attempt.outcome == Failed { assert t + calls == t + [dial]; }
  }

  lemma NextMultiple(a: nat, n: nat)
    ensures a * (n + 1) == a * n + a
  {}

  /** Attempts use up no more turns than there are. */
  lemma {:induction false} TurnsAreUsedUp(tries: seq<Try>, names: seq<string>, attempts: nat, w: real)
    requires InTurn(tries, names, attempts, w)
    ensures var turn := TurnAfter(tries, attempts);
            && turn.n <= |names| && (attempts > 0 ==> turn.k < attempts)
            && (turn.n == |names| ==> turn.k == 0)
            && |tries| <= attempts * turn.n + turn.k
  {
    if tries == [] {
      assert attempts * 0 == 0;
    } else {
      var front := tries[..|tries| - 1];
      TurnsAreUsedUp(front, names, attempts, w);
      NextMultiple(attempts, TurnAfter(front, attempts).n);
    }
  }

  /** Only candidates before the n-th have reported a connection. */
  ghost predicate PastConnections(t: seq<Call>, names: seq<string>, n: nat) {
    forall j :: n <= j < |names| ==> !HasConnected(t, names[j])
  }

  /** Attempts in turn are a sound walk. */
  lemma {:induction false} TriesAreSound(tries: seq<Try>, names: seq<string>, attempts: nat, w: real)
    requires InTurn(tries, names, attempts, w)
    ensures var t := TryCalls(tries, names);
            && Sound(t, names, w) && !HasDialedQuick(t)
            && Dials(t) == |tries|
            && (Underway(tries, names, attempts, w) ==> !Up(t))
            && (Distinct(names) ==> NeverRedialed(t) && PastConnections(t, names, TurnAfter(tries, attempts).n))
  {
    if tries == [] {
      Appended([], Call.Disconnect, w);
      assert [] + [Call.Disconnect] == [Call.Disconnect];
    } else {
      var front, last := tries[..|tries| - 1], tries[|tries| - 1];
      TriesAreSound(front, names, attempts, w);
      assert NameAt(names, last.n) == names[last.n];
      AttemptGrowsWalk(TryCalls(front, names), names, w, names[last.n], last);
    }
  }

  lemma {:induction false} Larger(k: nat, n: nat, m: nat)
    requires n <= m
    ensures k * n <= k * m
  {
    if n < m {
      Larger(k, n, m - 1);
      NextMultiple(k, m - 1);
    }
  }

  lemma DialsWithin(attempts: nat, n: nat, m: nat)
    requires n < m
    ensures attempts * n + attempts == attempts * (n + 1) <= attempts * m
  {
    NextMultiple(attempts, n);
    Larger(attempts, n + 1, m);
  }

  /** The safety of a walk, from its first call to its last, whatever the daemon answers: it starts
      by disconnecting, dials each candidate only in time and never over a reported connection,
      dials quick at most once and then nothing more, dials at most attempts*|names|+1 times, and
      never redials a name behind a reported connection. */
  lemma WalkIsSafe(story: Story, names: seq<string>, attempts: nat, w: real)
    requires Told(story, names, attempts, w)
    ensures var walk := Calls(story, names);
            && walk != [] && walk[0] == Call.Disconnect
            && Orderly(walk, w)
            && DialsOnly(walk, names)
            && Dials(walk) <= attempts * |names| + 1
            && (Distinct(names) ==> NeverRedialed(walk))
  {
    TriesAreSound(story.tries, names, attempts, w);
    TurnsAreUsedUp(story.tries, names, attempts, w);
    var t, turn := TryCalls(story.tries, names), TurnAfter(story.tries, attempts);
    if turn.n < |names| { DialsWithin(attempts, turn.n, |names|); }
    if story.quick.Some? {
      var calls := QuickCalls(story.quick.value);
      SoundAppends(t, calls[0], names, w);
      TailKeeps(t + [calls[0]], calls[1..], names, w);
      assert Calls(story, names) == t + [calls[0]] + calls[1..];
    } else {
      assert Calls(story, names) == t;
    }
  }

  function Skipping(names: seq<string>, skip: string): seq<string> {
    if names == [] then []
    else (if Text.Lower(names[0]) == skip then [] else [names[0]]) + Skipping(names[1..], skip)
  }

  /** The ranked names to walk, minus the server the agent is on. */
  function CandidateNames(ranked: seq<string>, band: nat, exclude: Option<string>): seq<string> {
    var skip := Text.Lower(exclude.GetOr(""));
    Skipping(if band < |ranked| then ranked[..band] else ranked, skip)
  }

  lemma {:induction false} SkippingNames(names: seq<string>, skip: string)
    ensures forall s :: s in Skipping(names, skip) <==> s in names && Text.Lower(s) != skip
    ensures |Skipping(names, skip)| <= |names|
    ensures Distinct(names) ==> Distinct(Skipping(names, skip))
  {
    if names != [] {
      var rest := Skipping(names[1..], skip);
      SkippingNames(names[1..], skip);
      assert names == [names[0]] + names[1..];
      if Distinct(names) {
        assert Distinct(names[1..]) by {
          assert forall i :: 0 <= i < |names[1..]| ==> names[1..][i] == names[i + 1];
        }
        assert names[0] !in rest by {
          assert forall i :: 0 <= i < |names[1..]| ==> names[1..][i] != names[0];
        }
      }
    }
  }

  /** The candidates are the ranking's own names in the ranking's own order: exactly those within the
      band that are not the excluded server. */
  lemma CandidatesFollowTheRanking(ranked: seq<string>, band: nat, exclude: Option<string>) returns (at: seq<nat>)
    ensures var names := CandidateNames(ranked, band, exclude);
            && |at| == |names|
            && (forall i :: 0 <= i < |at| ==> at[i] < |ranked| && at[i] < band && names[i] == ranked[at[i]])
            && (forall i, j :: 0 <= i < j < |at| ==> at[i] < at[j])
            && (forall p: nat ::
                  p < |ranked| && p < band && Text.Lower(ranked[p]) != Text.Lower(exclude.GetOr("")) ==> p in at)
  {
    var skip := Text.Lower(exclude.GetOr(""));
    var top := if band < |ranked| then ranked[..band] else ranked;
    at := SkippingKeepsPlaces(top, skip);
    assert forall p :: 0 <= p < |top| ==> top[p] == ranked[p];
  }

  ghost predicate KeepsPlaces(at: seq<nat>, kept: seq<string>, names: seq<string>, skip: string) {
    && |at| == |kept|
    && (forall i :: 0 <= i < |at| ==> at[i] < |names| && kept[i] == names[at[i]])
    && (forall i, j :: 0 <= i < j < |at| ==> at[i] < at[j])
    && (forall p: nat :: p < |names| && Text.Lower(names[p]) != skip ==> p in at)
  }

  lemma {:induction false} SkippingAppends(names: seq<string>, last: string, skip: string)
    ensures Skipping(names + [last], skip)
         == Skipping(names, skip) + if Text.Lower(last) == skip then [] else [last]
  {
    if names == [] {
      assert [last][1..] == [] && [] + [last] == [last];
    } else {
      SkippingAppends(names[1..], last, skip);
      assert (names + [last])[1..] == names[1..] + [last];
    }
  }

  lemma {:induction false} SkippingKeepsPlaces(names: seq<string>, skip: string) returns (at: seq<nat>)
    ensures KeepsPlaces(at, Skipping(names, skip), names, skip)
  {
    if names == [] {
      at := [];
    } else {
      var front, last := names[..|names| - 1], names[|names| - 1];
      at := SkippingKeepsPlaces(front, skip);
      SkippingAppends(front, last, skip);
      PlacesGrow(at, Skipping(front, skip), front, last, skip);
      if Text.Lower(last) != skip { at := at + [|front|]; }
      assert names == front + [last];
    }
  }

  lemma PlacesGrow(at: seq<nat>, kept: seq<string>, names: seq<string>, last: string, skip: string)
    requires KeepsPlaces(at, kept, names, skip)
    ensures Text.Lower(last) == skip ==> KeepsPlaces(at, kept + [], names + [last], skip)
    ensures Text.Lower(last) != skip ==> KeepsPlaces(at + [|names|], kept + [last], names + [last], skip)
  {
    var more := names + [last];
    assert forall p :: 0 <= p < |names| ==> more[p] == names[p];
    assert kept + [] == kept && (at + [|names|])[|at|] == |names|;
    forall p: nat | p < |more| && Text.Lower(more[p]) != skip && Text.Lower(last) != skip ensures p in at + [|names|] {
      assert p < |names| ==> p in at;
    }
  }

  /** The names dialed, in the order of the dials; quick has no name. */
  function DialedNames(t: seq<Call>): seq<string> {
    if t == [] then []
    else
      var last := t[|t| - 1];
      DialedNames(t[..|t| - 1]) + if last.Dial? && last.server.Some? then [last.server.value] else []
  }

  lemma {:induction false} DialedNamesAppend(t: seq<Call>, u: seq<Call>)
    ensures DialedNames(t + u) == DialedNames(t) + DialedNames(u)
  {
    if u == [] {
      assert t + u == t && DialedNames(t) + [] == DialedNames(t);
    } else {
      DialedNamesAppend(t, u[..|u| - 1]);
      assert (t + u)[..|t + u| - 1] == t + u[..|u| - 1];
    }
  }

  lemma {:induction false} NothingDialed(t: seq<Call>)
    requires forall i :: 0 <= i < |t| ==> !(t[i].Dial? && t[i].server.Some?)
    ensures DialedNames(t) == []
  {
    if t != [] { NothingDialed(t[..|t| - 1]); }
  }

  lemma {:induction false} TriesDial(tries: seq<Try>, names: seq<string>)
    ensures |DialedNames(TryCalls(tries, names))| == |tries|
    ensures forall i :: 0 <= i < |tries| ==> DialedNames(TryCalls(tries, names))[i] == NameAt(names, tries[i].n)
  {
    if tries == [] {
      NothingDialed([Call.Disconnect]);
    } else {
      TriesDial(tries[..|tries| - 1], names);
      OneMoreDialed(tries, names);
    }
  }

  lemma OneMoreDialed(tries: seq<Try>, names: seq<string>)
    requires tries != []
    ensures DialedNames(TryCalls(tries, names))
         == DialedNames(TryCalls(tries[..|tries| - 1], names)) + [NameAt(names, tries[|tries| - 1].n)]
  {
    var front, last := tries[..|tries| - 1], tries[|tries| - 1];
    AttemptDials(NameAt(names, last.n), last);
    DialedNamesAppend(TryCalls(front, names), AttemptCalls(NameAt(names, last.n), last));
  }

  lemma AttemptDials(name: string, t: Try)
    ensures DialedNames(AttemptCalls(name, t)) == [name]
  {
    var calls := AttemptCalls(name, t);
    DialedNamesAppend(calls[..1], calls[1..]);
    NothingDialed(calls[1..]);
    assert calls == calls[..1] + calls[1..] && calls[..1][..0] == [];
  }

  /** Every candidate before the n-th has been tried. */
  ghost predicate AllTried(tries: seq<Try>, n: nat) {
    forall p: nat :: p < n ==> Tried(tries, p)
  }

  ghost predicate Tried(tries: seq<Try>, p: nat) {
    exists i :: 0 <= i < |tries| && tries[i].n == p
  }

  lemma {:induction false} TriesAscend(tries: seq<Try>, names: seq<string>, attempts: nat, w: real)
    requires InTurn(tries, names, attempts, w)
    ensures forall i :: 0 <= i < |tries| ==> tries[i].n < |names| && tries[i].n <= TurnAfter(tries, attempts).n
    ensures forall i, j :: 0 <= i < j < |tries| ==> tries[i].n <= tries[j].n
    ensures forall j :: 0 <= j < |tries| ==> AllTried(tries[..j], tries[j].n)
    ensures AllTried(tries, TurnAfter(tries, attempts).n)
  {
    if tries != [] {
      var front, last := tries[..|tries| - 1], tries[|tries| - 1];
      TriesAscend(front, names, attempts, w);
      assert forall i :: 0 <= i < |front| ==> tries[i] == front[i];
      forall j | 0 <= j < |tries| ensures AllTried(tries[..j], tries[j].n) {
        assert j < |front| ==> tries[..j] == front[..j];
      }
      forall p: nat | p < TurnAfter(tries, attempts).n ensures Tried(tries, p) {
        if p < last.n {
          assert Tried(front, p);
          var i :| 0 <= i < |front| && front[i].n == p;
          assert tries[i].n == p;
        } else {
          assert tries[|front|].n == p;
        }
      }
    }
  }

  /** The dials go down the ranking from its best server: in its order, within the band, and with no
      candidate passed over. */
  ghost predicate FollowsRanking(dialed: seq<string>, at: seq<nat>, ranked: seq<string>, band: nat, skip: string) {
    && |at| == |dialed|
    && (forall i :: 0 <= i < |at| ==> at[i] < |ranked| && at[i] < band && dialed[i] == ranked[at[i]])
    && (forall i, j :: 0 <= i < j < |at| ==> at[i] <= at[j])
    && (forall j, p: nat :: 0 <= j < |at| && p < at[j] && Text.Lower(ranked[p]) != skip ==> p in at[..j])
  }

  lemma WalkFollowsTheRanking(story: Story, ranked: seq<string>, exclude: Option<string>, w: real, cfg: Config)
    returns (at: seq<nat>)
    requires Told(story, CandidateNames(ranked, cfg.band, exclude), cfg.attempts, w)
    ensures FollowsRanking(DialedNames(Calls(story, CandidateNames(ranked, cfg.band, exclude))), at, ranked, cfg.band,
                           Text.Lower(exclude.GetOr("")))
  {
    var names, tries := CandidateNames(ranked, cfg.band, exclude), story.tries;
    var places := CandidatesFollowTheRanking(ranked, cfg.band, exclude);
    QuickDialsNoName(story, names);
    TriesDial(tries, names);
    TriesAscend(tries, names, cfg.attempts, w);
    at := seq(|tries|, i requires 0 <= i < |tries| => places[tries[i].n]);
    PlacesFollow(DialedNames(Calls(story, names)), tries, places, at, ranked, cfg.band, Text.Lower(exclude.GetOr("")));
  }

  lemma PlacesFollow(dialed: seq<string>, tries: seq<Try>, places: seq<nat>, at: seq<nat>, ranked: seq<string>,
                     band: nat, skip: string)
    requires |at| == |tries| == |dialed|
    requires forall i :: 0 <= i < |places| ==> places[i] < |ranked| && places[i] < band
    requires forall i, k :: 0 <= i < k < |places| ==> places[i] < places[k]
    requires forall p: nat :: p < |ranked| && p < band && Text.Lower(ranked[p]) != skip ==> p in places
    requires forall i :: 0 <= i < |tries| ==>
               tries[i].n < |places| && at[i] == places[tries[i].n] && dialed[i] == ranked[at[i]]
    requires forall i, j :: 0 <= i < j < |tries| ==> tries[i].n <= tries[j].n
    requires forall j :: 0 <= j < |tries| ==> AllTried(tries[..j], tries[j].n)
    ensures FollowsRanking(dialed, at, ranked, band, skip)
  {
    forall j, p: nat | 0 <= j < |at| && p < at[j] && Text.Lower(ranked[p]) != skip ensures p in at[..j] {
      assert p in places;
      NoPlacePassedOver(tries, places, at, j, p);
    }
  }

  lemma NoPlacePassedOver(tries: seq<Try>, places: seq<nat>, at: seq<nat>, j: nat, p: nat)
    requires |at| == |tries| && j < |tries| && AllTried(tries[..j], tries[j].n)
    requires forall i :: 0 <= i < |tries| ==> tries[i].n < |places| && at[i] == places[tries[i].n]
    requires forall i, k :: 0 <= i < k < |places| ==> places[i] < places[k]
    requires p in places && p < at[j]
    ensures p in at[..j]
  {
    var k :| 0 <= k < |places| && places[k] == p;
    assert Tried(tries[..j], k);
    var i :| 0 <= i < j && tries[..j][i].n == k;
    assert at[..j][i] == p;
  }

  lemma QuickDialsNoName(story: Story, names: seq<string>)
    ensures DialedNames(Calls(story, names)) == DialedNames(TryCalls(story.tries, names))
  {
    var quick := if story.quick.Some? then QuickCalls(story.quick.value) else [];
    DialedNamesAppend(TryCalls(story.tries, names), quick);
    NothingDialed(quick);
  }

  function TriesOf(tries: seq<Try>, n: nat): nat {
    if tries == [] then 0 else TriesOf(tries[..|tries| - 1], n) + if tries[|tries| - 1].n == n then 1 else 0
  }

  /** A candidate has had all its attempts, or has shown in fewer that no traffic passes it. */
  ghost predicate GivenUp(tries: seq<Try>, n: nat, attempts: nat) {
    && TriesOf(tries, n) <= attempts
    && (TriesOf(tries, n) == attempts
        || exists i :: 0 <= i < |tries| && tries[i].n == n && tries[i].outcome == Dropped)
  }

  lemma {:induction false} EveryTurnIsUsed(tries: seq<Try>, names: seq<string>, attempts: nat, w: real)
    requires Underway(tries, names, attempts, w) && attempts > 0
    ensures var turn := TurnAfter(tries, attempts);
            && turn.k < attempts && TriesOf(tries, turn.n) == turn.k
            && (forall n: nat :: n > turn.n ==> TriesOf(tries, n) == 0)
            && (forall n: nat :: n < turn.n ==> GivenUp(tries, n, attempts))
  {
    if tries != [] {
      var front, last := tries[..|tries| - 1], tries[|tries| - 1];
      EveryTurnIsUsed(front, names, attempts, w);
      forall n: nat | n < TurnAfter(tries, attempts).n ensures GivenUp(tries, n, attempts) {
        if n < last.n {
          assert GivenUp(front, n, attempts);
        } else {
          assert tries[|front|] == last;
        }
      }
    }
  }

  /** A walk that comes to quick with time left has given every candidate its due: as many dials as it
      is allowed, all failed, or fewer that ended with a connection over which nothing passed. */
  lemma NoCandidateIsGivenUpEarly(story: Story, names: seq<string>, attempts: nat, w: real)
    requires Told(story, names, attempts, w) && attempts > 0
    requires story.quick.Some? && story.quick.value.at < w
    ensures forall n: nat :: n < |names| ==> GivenUp(story.tries, n, attempts)
  {
    EveryTurnIsUsed(story.tries, names, attempts, w);
  }

  /** What a finished walk arms can be read off its last call: traffic passed earns what the reason
      earns, which is the full cooldown for a degradation only; a wrong device arms the full one; a
      walk that ends without traffic or without a tunnel arms the short one. */
  lemma ArmedByTheLastCall(story: Story, names: seq<string>, attempts: nat, w: real, reason: Reason, cfg: Config)
    requires Told(story, names, attempts, w)
    ensures var walk := Calls(story, names);
            Armed(EndingOf(story), reason, cfg)
            == if walk[|walk| - 1] == Traffic(true) then
                 (if reason == Degradation then cfg.cooldown else cfg.failedCooldown)
               else if walk[|walk| - 1] == Device(false) then cfg.cooldown
               else cfg.failedCooldown
  {
    if story.quick.None? {
      var last := story.tries[|story.tries| - 1];
      var calls := AttemptCalls(NameAt(names, last.n), last);
      assert Calls(story, names)[|Calls(story, names)| - 1] == calls[|calls| - 1];
    } else {
      var calls := QuickCalls(story.quick.value);
      assert Calls(story, names)[|Calls(story, names)| - 1] == calls[|calls| - 1];
    }
  }

  /** The time bounds in full. With w the walk deadline, quick is dialed within two daemon calls of the
      start, or before w plus the longest a dial can overrun it plus the longest the agent stays with a
      candidate after its dial. */
  lemma QuickStartsInTime(story: Story, names: seq<string>, begun: real, connected: Option<string>, cfg: Config)
    requires GoodWalk(story, names, begun, connected, cfg) && story.quick.Some?
    ensures var w, at := begun + cfg.recoveryBudget - cfg.quickReserve, story.quick.value.at;
            || at <= begun + 2.0 * cfg.callBound
            || at < w + 2.0 * cfg.callBound + (cfg.probeBound + 2.0 * cfg.callBound)
            || at < w + 2.0 * cfg.callBound + 1.5 * cfg.retryBackoff
            || at < w + (cfg.callBound + cfg.verifyInterval) + (cfg.probeBound + 2.0 * cfg.callBound)
            || at < w + (cfg.callBound + cfg.verifyInterval) + 1.5 * cfg.retryBackoff
  {}

  /** A finished walk: its course is the exact one, quick is dialed in time, and the server the
      agent believes in is the one last reported. */
  ghost predicate GoodWalk(story: Story, names: seq<string>, begun: real, connected: Option<string>, cfg: Config) {
    var w := begun + cfg.recoveryBudget - cfg.quickReserve;
    && Told(story, names, cfg.attempts, w)
    && connected == Reported(story)
    && (story.quick.Some? ==> QuickInTime(story.quick.value.at, begun, w, cfg))
  }

  /** A walk away from a server never dials that server, goes down the ranking in its order, dials at
      most a band of names, and, the ranking's names being distinct, never redials one that failed
      behind a reported connection. */
  lemma WalkLeavesTheServer(story: Story, ranked: seq<string>, current: string, begun: real,
                            connected: Option<string>, cfg: Config)
    requires GoodWalk(story, CandidateNames(ranked, cfg.band, Some(current)), begun, connected, cfg)
    ensures var walk := Calls(story, CandidateNames(ranked, cfg.band, Some(current)));
            && (forall i :: 0 <= i < |walk| && walk[i].Dial? && walk[i].server.Some? ==>
                  walk[i].server.value in ranked && Text.Lower(walk[i].server.value) != Text.Lower(current))
            && Dials(walk) <= cfg.attempts * cfg.band + 1
            && (Distinct(ranked) ==> NeverRedialed(walk))
            && (exists at :: FollowsRanking(DialedNames(walk), at, ranked, cfg.band, Text.Lower(current)))
  {
    WalkStaysInTheBand(story, ranked, current, begun, connected, cfg);
    var at := WalkFollowsTheRanking(story, ranked, Some(current), begun + cfg.recoveryBudget - cfg.quickReserve, cfg);
  }

  lemma WalkStaysInTheBand(story: Story, ranked: seq<string>, current: string, begun: real,
                           connected: Option<string>, cfg: Config)
    requires GoodWalk(story, CandidateNames(ranked, cfg.band, Some(current)), begun, connected, cfg)
    ensures var walk := Calls(story, CandidateNames(ranked, cfg.band, Some(current)));
            && (forall i :: 0 <= i < |walk| && walk[i].Dial? && walk[i].server.Some? ==>
                  walk[i].server.value in ranked && Text.Lower(walk[i].server.value) != Text.Lower(current))
            && Dials(walk) <= cfg.attempts * cfg.band + 1
            && (Distinct(ranked) ==> NeverRedialed(walk))
  {
    var top := if cfg.band < |ranked| then ranked[..cfg.band] else ranked;
    var names := Skipping(top, Text.Lower(current));
    WalkIsSafe(story, names, cfg.attempts, begun + cfg.recoveryBudget - cfg.quickReserve);
    SkippingNames(top, Text.Lower(current));
    Larger(cfg.attempts, |names|, cfg.band);
  }

  // ----- the daemon ----------------------------------------------------------------------------------------

  lemma PositiveQuotient(left: real, interval: real)
    requires left > 0.0 && interval > 0.0
    ensures left / interval >= 0.0
  {}

  /** Status polls left before a deadline. */
  function Polls(left: real, interval: real): nat
    requires interval > 0.0
  {
    if left <= 0.0 then 0
    else
      PositiveQuotient(left, interval);
      (left / interval).Floor + 1
  }

  lemma QuotientDrops(left: real, later: real, interval: real)
    requires interval > 0.0 && later <= left - interval
    ensures later / interval <= left / interval - 1.0
  {
    var q, p := left / interval, later / interval;
    assert q * interval == left && p * interval == later;
    assert (q - 1.0) * interval == q * interval - interval;
    Scale(interval, p, q - 1.0);
  }

  lemma PollsDecrease(left: real, later: real, interval: real)
    requires interval > 0.0 && left > 0.0 && later <= left - interval
    ensures Polls(later, interval) < Polls(left, interval)
  {
    if later > 0.0 {
      QuotientDrops(left, later, interval);
    } else {
      PositiveQuotient(left, interval);
    }
  }

  class Bluetit {
    const cfg: Config
    var clock: real
    ghost var calls: seq<Call>
    ghost var probes: seq<Option<real>>  // what each probe measured

    constructor (cfg: Config, now: real)
      ensures this.cfg == cfg && clock == now && calls == [] && probes == []
    {
      this.cfg, clock, calls, probes := cfg, now, [], [];
    }

    /** Anything may take any time up to its bound. */
    method Elapse(bound: real)
      requires bound >= 0.0
      modifies this`clock
      ensures old(clock) <= clock <= old(clock) + bound
    {
      var d: real := *;
      if 0.0 <= d <= bound { clock := clock + d; }
    }

    method Sleep(seconds: real)
      requires seconds >= 0.0
      modifies this`clock
      ensures clock == old(clock) + seconds
    {
      clock := clock + seconds;
    }

    method Status() returns (current: Option<string>)
      requires ValidConfig(cfg)
      modifies this`clock
      ensures old(clock) <= clock <= old(clock) + cfg.callBound
    {
      Elapse(cfg.callBound);
      current := *;
    }

    method Disconnect() returns (current: Option<string>)
      requires ValidConfig(cfg)
      modifies this
      ensures calls == old(calls) + [Call.Disconnect]
      ensures old(clock) <= clock <= old(clock) + 2.0 * cfg.callBound
    {
      Elapse(cfg.callBound);
      calls := calls + [Call.Disconnect];
      current := Status();
    }

    /** Does a status name the server asked for, or any if none was? */
    static predicate Names(status: Option<string>, name: Option<string>) {
      && status.Some? && status.value != ""
      && (name.Some? ==> Text.Lower(status.value) == Text.Lower(name.value))
    }

    /** Dial, then poll the status until it names the server, the dial was refused, or time is up. */
    method Connect(name: Option<string>, deadline: real)
      returns (connected: Option<string>, ghost polls: seq<Option<string>>, ghost refused: bool)
      requires ValidConfig(cfg)
      modifies this
      ensures calls == old(calls) + [Dial(name, old(clock), connected)]
      ensures polls != [] && forall i :: 0 <= i < |polls| - 1 ==> !Names(polls[i], name)
      ensures connected == if Names(polls[|polls| - 1], name) then polls[|polls| - 1] else None
      ensures refused ==> |polls| == 1
      ensures connected.None? && !refused ==> clock >= deadline || clock >= old(clock) + cfg.verifySeconds
      ensures old(clock) <= clock
      ensures clock <= old(clock) + 2.0 * cfg.callBound || clock < deadline + cfg.verifyInterval + cfg.callBound
    {
      ghost var begun := clock;
      Elapse(cfg.callBound);
      var failed: bool := *;
      refused := failed;
      var limit := Min(clock + cfg.verifySeconds, deadline);
      connected, polls := None, [];
      while true
        invariant begun <= clock
        invariant forall i :: 0 <= i < |polls| ==> !Names(polls[i], name)
        invariant refused == failed && (failed ==> polls == [])
        invariant connected == None && calls == old(calls)
        invariant clock <= begun + cfg.callBound || clock < deadline + cfg.verifyInterval
        decreases Polls(limit - clock, cfg.verifyInterval)
      {
        ghost var top := clock;
        var current := Status();
        polls := polls + [current];
        if current.Some? && current.value != "" &&
           (name.None? || Text.Lower(current.value) == Text.Lower(name.value))
        {
          connected := current;
          break;
        }
        if failed { break; }
        if clock >= limit { break; }
        PollsDecrease(limit - top, limit - (clock + cfg.verifyInterval), cfg.verifyInterval);
        Sleep(cfg.verifyInterval);
      }
      calls := calls + [Dial(name, begun, connected)];
    }

    method TunOk() returns (ok: bool)
      modifies this`calls
      ensures calls == old(calls) + [Device(ok)]
    {
      ok := *;
      calls := calls + [Device(ok)];
    }

    /** A short burst of packets. None means the probe did not run. */
    method Probe() returns (loss: Option<real>)
      requires ValidConfig(cfg)
      modifies this`clock, this`probes
      ensures probes == old(probes) + [loss]
      ensures old(clock) <= clock <= old(clock) + cfg.probeBound
    {
      Elapse(cfg.probeBound);
      loss := *;
      probes := probes + [loss];
    }
  }

  // ----- the agent ---------------------------------------------------------------------------------------------

  /** By when a switch is over, whatever the daemon does. */
  function OverBy(started: real, cfg: Config): real {
    var quickBy := Max(started + 2.0 * cfg.callBound,
                       started + cfg.recoveryBudget - cfg.quickReserve + DialOverrun(cfg) + LeaveTime(cfg));
    Max(quickBy + 2.0 * cfg.callBound, started + cfg.recoveryBudget + cfg.verifyInterval + cfg.callBound)
    + cfg.probeBound
  }

  /** A switch is over, including its last probe, four daemon calls after its start, or two behind the
      latest quick dial, or one status call and a pause behind the hard deadline. */
  lemma OverByInFull(started: real, cfg: Config)
    ensures var left, w := OverBy(started, cfg) - cfg.probeBound, started + cfg.recoveryBudget - cfg.quickReserve;
            || left == started + 4.0 * cfg.callBound
            || left == w + 4.0 * cfg.callBound + (cfg.probeBound + 2.0 * cfg.callBound)
            || left == w + 4.0 * cfg.callBound + 1.5 * cfg.retryBackoff
            || left == w + (3.0 * cfg.callBound + cfg.verifyInterval) + (cfg.probeBound + 2.0 * cfg.callBound)
            || left == w + (3.0 * cfg.callBound + cfg.verifyInterval) + 1.5 * cfg.retryBackoff
            || left == started + cfg.recoveryBudget + cfg.verifyInterval + cfg.callBound
  {}

  lemma Scaled(factor: real, backoff: real)
    requires 0.5 <= factor <= 1.5 && backoff >= 0.0
    ensures 0.5 * backoff <= factor * backoff <= 1.5 * backoff
  {}

  function Jittered(factor: real, backoff: real): (pause: real)
    requires backoff >= 0.0
    ensures 0.5 * backoff <= pause <= 1.5 * backoff
  {
    var within := Max(0.5, Min(factor, 1.5));
    Scaled(within, backoff);
    within * backoff
  }

  function EntryFor(armed: real, escape: bool, when: real): Budget.Entry {
    Budget.Entry(when, armed, if escape then Budget.Escape else Budget.Switch)
  }

  /** What a loop over candidates leaves to its caller. */
  datatype Step = MoveOn | OutOfTime | DeviceFault | Success

  class Agent {
    const cfg: Config
    const bluetit: Bluetit
    const budget: Budget.SwitchBudget
    var currentServer: Option<string>
    var consecutiveBad: nat
    var consecutiveBadServer: Option<string>
    var consecutiveBadGeneration: Option<int>
    var homeSideWindows: nat
    var switching: bool

    ghost predicate Valid()
      reads this, budget
    {
      && ValidConfig(cfg) && bluetit.cfg == cfg && budget.Valid() && budget.cooldown == cfg.cooldown
      && (consecutiveBadServer.Some? <==> consecutiveBadGeneration.Some?)
    }

    function Streak(): Watch.Streak
      reads this
    {
      Watch.Streak(consecutiveBad,
                   if consecutiveBadServer.Some? && consecutiveBadGeneration.Some?
                   then Some(Watch.Session(consecutiveBadServer.value, consecutiveBadGeneration.value)) else None)
    }

    constructor (cfg: Config, bluetit: Bluetit, budget: Budget.SwitchBudget)
      requires ValidConfig(cfg) && bluetit.cfg == cfg && budget.Valid() && budget.cooldown == cfg.cooldown
      ensures Valid() && this.cfg == cfg && this.bluetit == bluetit && this.budget == budget
      ensures Streak() == Watch.NO_STREAK && homeSideWindows == 0
    {
      this.cfg, this.bluetit, this.budget := cfg, bluetit, budget;
      currentServer, consecutiveBad, consecutiveBadServer, consecutiveBadGeneration := None, 0, None, None;
      homeSideWindows, switching := 0, false;
    }

    method ForgetStreak()
      modifies this`consecutiveBad, this`consecutiveBadServer, this`consecutiveBadGeneration
      ensures Streak() == Watch.NO_STREAK && consecutiveBadServer.None? && consecutiveBadGeneration.None?
    {
      consecutiveBad, consecutiveBadServer, consecutiveBadGeneration := 0, None, None;
    }

    /** A probe that did not run, or lost too much, is no proof of a tunnel. */
    method VerifyTunnel() returns (passed: bool, ghost loss: Option<real>)
      requires Valid()
      modifies bluetit
      ensures passed <==> loss.Some? && loss.value <= cfg.verifyMaxLoss
      ensures bluetit.probes == old(bluetit.probes) + [loss]
      ensures bluetit.calls == old(bluetit.calls) + [Traffic(passed)]
      ensures old(bluetit.clock) <= bluetit.clock <= old(bluetit.clock) + cfg.probeBound
    {
      var measured := bluetit.Probe();
      loss := measured;
      passed := measured.Some? && measured.value <= cfg.verifyMaxLoss;
      bluetit.calls := bluetit.calls + [Traffic(passed)];
    }

    /** `finished` is the wall time, on which the budget runs, when the switch is over. */
    method Finish(connected: Option<string>, armed: real, escape: bool, finished: real, saveWorks: bool)
      requires Valid() && budget.clock <= finished
      modifies this, budget
      ensures Valid() && homeSideWindows == old(homeSideWindows) && switching == old(switching)
      ensures currentServer == connected && Streak() == Watch.NO_STREAK
      ensures budget.log == old(budget.log) + [EntryFor(armed, escape, finished)]
    {
      currentServer := connected;
      ForgetStreak();
      budget.Record(finished, Some(armed), EntryFor(armed, escape, finished).kind, saveWorks);
    }

    method FallBack(hardDeadline: real, reason: Reason, escape: bool, finished: real, saveWorks: bool)
      returns (connected: Option<string>, ghost quick: Quick)
      requires Valid() && budget.clock <= finished
      modifies this, budget, bluetit
      ensures Valid() && homeSideWindows == old(homeSideWindows) && switching == old(switching)
      ensures currentServer == connected && Streak() == Watch.NO_STREAK
      ensures quick.at == old(bluetit.clock) && quick.connected == connected
      ensures bluetit.calls == old(bluetit.calls) + QuickCalls(quick)
      ensures budget.log
              == old(budget.log) + [EntryFor(Armed(EndingOf(Story([], Some(quick))), reason, cfg), escape, finished)]
      ensures bluetit.clock <= Max(old(bluetit.clock) + 2.0 * cfg.callBound,
                                   hardDeadline + cfg.verifyInterval + cfg.callBound) + cfg.probeBound
    {
      ghost var polls, refused;
      connected, polls, refused := bluetit.Connect(None, hardDeadline);
      var verified := false;
      ghost var device := false;
      if connected.Some? {
        device := bluetit.TunOk();
        ghost var loss;
        verified, loss := VerifyTunnel();
      }
      quick := Quick(old(bluetit.clock), connected, device, verified);
      var armed := if verified then Earned(reason, cfg) else cfg.failedCooldown;
      assert armed == Armed(EndingOf(Story([], Some(quick))), reason, cfg);
      assert bluetit.calls == old(bluetit.calls) + QuickCalls(quick);
      Finish(connected, armed, escape, finished, saveWorks);
    }

    /** One pass of the inner loop: dial a candidate, look at the device, verify by traffic, and
        drop it again if no traffic passed. */
    method Attempt(name: string, walkDeadline: real, ghost n: nat) returns (connected: Option<string>, outcome: Outcome)
      requires Valid() && bluetit.clock < walkDeadline
      modifies bluetit
      ensures outcome == Failed <==> connected.None?
      ensures bluetit.calls == old(bluetit.calls) + AttemptCalls(name, Try(n, old(bluetit.clock), connected, outcome))
      ensures outcome == Failed ==> bluetit.clock < walkDeadline + DialOverrun(cfg)
      ensures outcome == Dropped ==> bluetit.clock < walkDeadline + DialOverrun(cfg) + LeaveTime(cfg)
      ensures outcome != Dropped ==> bluetit.clock < walkDeadline + DialOverrun(cfg) + cfg.probeBound
    {
      ghost var polls, refused;
      connected, polls, refused := bluetit.Connect(Some(name), walkDeadline);
      if connected.None? { return connected, Failed; }
      var ok := bluetit.TunOk();
      if !ok { return connected, Wrong; }
      var passed;
      ghost var loss;
      passed, loss := VerifyTunnel();
      if passed { return connected, Verified; }
      var _ := bluetit.Disconnect();
      outcome := Dropped;
    }

    method BackOff()
      requires Valid()
      modifies bluetit`clock
      ensures old(bluetit.clock) + 0.5 * cfg.retryBackoff <= bluetit.clock
      ensures bluetit.clock <= old(bluetit.clock) + 1.5 * cfg.retryBackoff
    {
      var factor: real := *;
      bluetit.Sleep(Jittered(factor, cfg.retryBackoff));
    }

    /** What one more attempt makes of a walk under way. */
    lemma AfterTry(names: seq<string>, before: seq<Try>, latest: Try, clock: real, started: real, walkDeadline: real)
      requires ValidConfig(cfg) && cfg.attempts > 0 && Underway(before, names, cfg.attempts, walkDeadline)
      requires latest.n == TurnAfter(before, cfg.attempts).n < |names| && latest.at < walkDeadline
      requires latest.outcome == Failed <==> latest.connected.None?
      requires latest.outcome == Dropped ==> clock < walkDeadline + DialOverrun(cfg) + LeaveTime(cfg)
      requires latest.outcome != Dropped ==> clock < walkDeadline + DialOverrun(cfg) + cfg.probeBound
      ensures var tries, turn := before + [latest], TurnAfter(before, cfg.attempts);
              && TryCalls(tries, names) == TryCalls(before, names) + AttemptCalls(names[latest.n], latest)
              && match latest.outcome
                 case Wrong => Ended(DeviceFault, tries, names, latest.connected, clock, started, walkDeadline)
                 case Verified => Ended(Success, tries, names, latest.connected, clock, started, walkDeadline)
                 case Dropped => Ended(MoveOn, tries, names, latest.connected, clock, started, walkDeadline)
                                 && TurnAfter(tries, cfg.attempts) == Turn(turn.n + 1, 0)
                 case Failed => Underway(tries, names, cfg.attempts, walkDeadline)
                                && TurnAfter(tries, cfg.attempts)
                                   == if turn.k + 1 < cfg.attempts then Turn(turn.n, turn.k + 1)
                                      else Turn(turn.n + 1, 0)
    {
      NextInTurn(before, names, cfg.attempts, walkDeadline, latest);
    }

    /** An attempt as the next one of a walk. None means that it failed and may be repeated. */
    method NextTry(names: seq<string>, n: nat, started: real, walkDeadline: real,
                   ghost base: seq<Call>, ghost before: seq<Try>)
      returns (connected: Option<string>, step: Option<Step>, ghost tries: seq<Try>)
      requires Valid() && n < |names| && bluetit.clock < walkDeadline && cfg.attempts > 0
      requires Underway(before, names, cfg.attempts, walkDeadline) && TurnAfter(before, cfg.attempts).n == n
      requires bluetit.calls == base + TryCalls(before, names)
      modifies bluetit
      ensures bluetit.calls == base + TryCalls(tries, names)
      ensures step.Some? ==> Ended(step.value, tries, names, connected, bluetit.clock, started, walkDeadline)
                             && (step.value == MoveOn ==> TurnAfter(tries, cfg.attempts) == Turn(n + 1, 0))
                             && step.value != OutOfTime
      ensures step.None? ==> connected.None? && Underway(tries, names, cfg.attempts, walkDeadline)
                             && bluetit.clock < walkDeadline + DialOverrun(cfg)
                             && TurnAfter(tries, cfg.attempts)
                                == var k := TurnAfter(before, cfg.attempts).k + 1;
                                   if k < cfg.attempts then Turn(n, k) else Turn(n + 1, 0)
    {
      ghost var at := bluetit.clock;
      var outcome;
      connected, outcome := Attempt(names[n], walkDeadline, n);
      ghost var latest := Try(n, at, connected, outcome);
      tries := before + [latest];
      assert bluetit.calls == base + (TryCalls(before, names) + AttemptCalls(names[n], latest));
      AfterTry(names, before, latest, bluetit.clock, started, walkDeadline);
      match outcome {
        case Wrong => step := Some(DeviceFault);
        case Verified => step := Some(Success);
        case Dropped => step := Some(MoveOn);
        case Failed => step := None;
      }
    }

    /** The inner loop: up to `attempts` tries of one candidate, with a pause between failures. */
    method TryCandidate(names: seq<string>, n: nat, started: real, walkDeadline: real,
                        ghost base: seq<Call>, ghost before: seq<Try>)
      returns (step: Step, connected: Option<string>, ghost tries: seq<Try>)
      requires Valid() && n < |names| && Underway(before, names, cfg.attempts, walkDeadline)
      requires bluetit.calls == base + TryCalls(before, names)
      requires cfg.attempts > 0 ==> TurnAfter(before, cfg.attempts) == Turn(n, 0)
      requires QuickInTime(bluetit.clock, started, walkDeadline, cfg)
      modifies bluetit
      ensures bluetit.calls == base + TryCalls(tries, names)
      ensures Ended(step, tries, names, connected, bluetit.clock, started, walkDeadline)
      ensures step == MoveOn && cfg.attempts > 0 ==> TurnAfter(tries, cfg.attempts) == Turn(n + 1, 0)
    {
      connected, tries := None, before;
      for attempt := 1 to cfg.attempts + 1
        invariant bluetit.calls == base + TryCalls(tries, names)
        invariant Underway(tries, names, cfg.attempts, walkDeadline)
        invariant cfg.attempts > 0 ==>
                    TurnAfter(tries, cfg.attempts)
                    == if attempt <= cfg.attempts then Turn(n, attempt - 1) else Turn(n + 1, 0)
        invariant QuickInTime(bluetit.clock, started, walkDeadline, cfg)
      {
        if bluetit.clock >= walkDeadline { return OutOfTime, None, tries; }
        var stop;
        connected, stop, tries := NextTry(names, n, started, walkDeadline, base, tries);
        if stop.Some? { return stop.value, connected, tries; }
        if attempt < cfg.attempts { BackOff(); }
      }
      step, connected := MoveOn, None;
    }

    /** How far a loop over candidates got. */
    ghost predicate Ended(step: Step, tries: seq<Try>, names: seq<string>, connected: Option<string>,
                          clock: real, started: real, walkDeadline: real)
    {
      if step == MoveOn || step == OutOfTime then
        && Underway(tries, names, cfg.attempts, walkDeadline)
        && QuickInTime(clock, started, walkDeadline, cfg)
        && (step == OutOfTime ==> clock >= walkDeadline)
      else
        && Told(Story(tries, None), names, cfg.attempts, walkDeadline)
        && connected == tries[|tries| - 1].connected
        && (tries[|tries| - 1].outcome == Wrong <==> step == DeviceFault)
        && clock < walkDeadline + DialOverrun(cfg) + cfg.probeBound
    }

    /** One switch. `story` is its course, `begun` the moment its recovery budget started. */
    method Switch(names: seq<string>, reason: Reason, escape: bool, finished: real, saveWorks: bool)
      returns (connected: Option<string>, ghost story: Story, ghost begun: real)
      requires Valid() && budget.clock <= finished
      modifies this, budget, bluetit
      ensures Valid() && switching == (if cfg.dryRun then old(switching) else false)
      ensures homeSideWindows == old(homeSideWindows) && (cfg.dryRun ==> Streak() == old(Streak()))
      ensures cfg.dryRun ==> connected.None? && bluetit.calls == old(bluetit.calls)
                             && budget.log == old(budget.log) + [EntryFor(Earned(reason, cfg), escape, finished)]
      ensures !cfg.dryRun ==>
                && currentServer == connected && Streak() == Watch.NO_STREAK
                && GoodWalk(story, names, begun, connected, cfg)
                && bluetit.calls == old(bluetit.calls) + Calls(story, names)
                && old(bluetit.clock) <= begun <= old(bluetit.clock) + cfg.jitter
                && bluetit.clock <= OverBy(begun, cfg)
                && budget.log == old(budget.log) + [EntryFor(Armed(EndingOf(story), reason, cfg), escape, finished)]
    {
      story, begun, connected := Story([], None), bluetit.clock, None;
      if cfg.dryRun {
        budget.Record(finished, Some(Earned(reason, cfg)), EntryFor(0.0, escape, 0.0).kind, saveWorks);
        return;
      }
      connected, story, begun := Apply(names, reason, escape, finished, saveWorks);
    }

    /** The switch itself, when it is not a dry run. */
    method Apply(names: seq<string>, reason: Reason, escape: bool, finished: real, saveWorks: bool)
      returns (connected: Option<string>, ghost story: Story, ghost begun: real)
      requires Valid() && budget.clock <= finished
      modifies this, budget, bluetit
      ensures Valid() && !switching && homeSideWindows == old(homeSideWindows)
      ensures currentServer == connected && Streak() == Watch.NO_STREAK
      ensures GoodWalk(story, names, begun, connected, cfg) && bluetit.clock <= OverBy(begun, cfg)
      ensures old(bluetit.clock) <= begun <= old(bluetit.clock) + cfg.jitter
      ensures bluetit.calls == old(bluetit.calls) + Calls(story, names)
      ensures budget.log == old(budget.log) + [EntryFor(Armed(EndingOf(story), reason, cfg), escape, finished)]
    {
      var delay: real := *;
      bluetit.Sleep(Max(0.0, Min(delay, cfg.jitter)));
      var started := bluetit.clock;
      begun := started;
      var hardDeadline := started + cfg.recoveryBudget;
      var walkDeadline := hardDeadline - cfg.quickReserve;
      switching := true;
      var _ := bluetit.Disconnect();
      var step;
      ghost var tries;
      step, connected, tries := WalkCandidates(names, started, walkDeadline, old(bluetit.calls));
      connected, story := Conclude(step, connected, hardDeadline, reason, escape, finished, saveWorks,
                                   names, tries, started, old(bluetit.calls));
      switching := false;
    }

    /** Behind the loops: a server that held is recorded, otherwise quick is dialed. */
    method Conclude(step: Step, candidate: Option<string>, hardDeadline: real, reason: Reason, escape: bool,
                    finished: real, saveWorks: bool,
                    ghost names: seq<string>, ghost tries: seq<Try>, ghost started: real, ghost base: seq<Call>)
      returns (connected: Option<string>, ghost story: Story)
      requires Valid() && budget.clock <= finished && hardDeadline == started + cfg.recoveryBudget
      requires bluetit.calls == base + TryCalls(tries, names)
      requires Ended(step, tries, names, candidate, bluetit.clock, started, hardDeadline - cfg.quickReserve)
      requires step == MoveOn && cfg.attempts > 0 ==> TurnAfter(tries, cfg.attempts).n == |names|
      modifies this, budget, bluetit
      ensures Valid() && homeSideWindows == old(homeSideWindows)
      ensures currentServer == connected && Streak() == Watch.NO_STREAK
      ensures GoodWalk(story, names, started, connected, cfg) && bluetit.clock <= OverBy(started, cfg)
      ensures bluetit.calls == base + Calls(story, names)
      ensures budget.log == old(budget.log) + [EntryFor(Armed(EndingOf(story), reason, cfg), escape, finished)]
    {
      if step == Success || step == DeviceFault {
        connected, story := candidate, Story(tries, None);
        var armed := if step == DeviceFault then cfg.cooldown else Earned(reason, cfg);
        assert armed == Armed(EndingOf(story), reason, cfg);
        Finish(connected, armed, escape, finished, saveWorks);
        return;
      }
      ghost var quick;
      connected, quick := FallBack(hardDeadline, reason, escape, finished, saveWorks);
      story := Story(tries, Some(quick));
      assert EndingOf(story) == EndingOf(Story([], Some(quick)));
    }

    /** The outer loop, behind the first disconnect. */
    method WalkCandidates(names: seq<string>, started: real, walkDeadline: real, ghost base: seq<Call>)
      returns (step: Step, connected: Option<string>, ghost tries: seq<Try>)
      requires Valid() && bluetit.calls == base + [Call.Disconnect]
      requires bluetit.clock <= started + 2.0 * cfg.callBound
      modifies bluetit
      ensures bluetit.calls == base + TryCalls(tries, names)
      ensures Ended(step, tries, names, connected, bluetit.clock, started, walkDeadline)
      ensures step == MoveOn && cfg.attempts > 0 ==> TurnAfter(tries, cfg.attempts).n == |names|
    {
      step, connected, tries := MoveOn, None, [];
      for n := 0 to |names|
        invariant bluetit.calls == base + TryCalls(tries, names)
        invariant Underway(tries, names, cfg.attempts, walkDeadline)
        invariant cfg.attempts > 0 ==> TurnAfter(tries, cfg.attempts) == Turn(n, 0)
        invariant QuickInTime(bluetit.clock, started, walkDeadline, cfg)
      {
        step, connected, tries := TryCandidate(names, n, started, walkDeadline, base, tries);
        if step != MoveOn { return; }
      }
      step := MoveOn;
    }

    /** The counting half of a window. */
    method CountWindow(w: Watch.Window) returns (tripped: bool)
      requires Valid()
      modifies this
      ensures Valid() && switching == old(switching) && currentServer == w.serverAfter
      ensures (Streak(), tripped) == Watch.Step(old(Streak()), Watch.KindOf(w, cfg.badLoss), cfg.badWindows)
      ensures homeSideWindows == old(homeSideWindows)
                                 + if Watch.KindOf(w, cfg.badLoss) == Watch.HomeSide then 1 else 0
    {
      tripped := false;
      var current := w.serverAfter;
      var sameServer := Watch.Named(w.serverBefore) && Watch.Named(current)
                        && Text.Lower(w.serverBefore.value) == Text.Lower(current.value);
      var sameSession := sameServer && w.generationBefore.Some? && w.generationBefore == w.generationAfter;
      currentServer := current;
      if !sameSession {
        ForgetStreak();
        return;
      }
      if w.loss.None? { return; }
      if w.loss.value < cfg.badLoss {
        ForgetStreak();
        return;
      }
      if w.lanLoss.Some? && w.lanLoss.value >= cfg.badLoss {
        homeSideWindows := homeSideWindows + 1;
        return;
      }
      var key := Text.Lower(current.value);
      if consecutiveBadServer != Some(key) || consecutiveBadGeneration != w.generationAfter {
        consecutiveBad := 0;
        consecutiveBadServer := Some(key);
        consecutiveBadGeneration := w.generationAfter;
      }
      consecutiveBad := consecutiveBad + 1;
      if consecutiveBad < cfg.badWindows { return; }
      ForgetStreak();
      tripped := true;
    }

    /** One degradation window. `asked` and `askedAgain` are when the budget is consulted, and
        `finished` is when the switch, if there is one, is over. */
    method WatchOnce(w: Watch.Window, ranked: seq<string>, asked: real, askedAgain: real, finished: real,
                     saveWorks: bool)
      returns (triggered: bool, accused: Option<string>, ghost story: Story, ghost begun: real)
      requires Valid() && budget.clock <= asked <= askedAgain <= finished
      modifies this, budget, bluetit
      ensures Valid()
      ensures var step := Watch.Step(old(Streak()), Watch.KindOf(w, cfg.badLoss), cfg.badWindows);
              && Streak() == step.0
              && accused == (if step.1 && !cfg.dryRun then w.serverAfter else None)
              && triggered == (step.1 && Decision(old(budget.log), asked, askedAgain, finished).Some?)
      ensures homeSideWindows == old(homeSideWindows)
                                 + if Watch.KindOf(w, cfg.badLoss) == Watch.HomeSide then 1 else 0
      ensures !triggered || cfg.dryRun ==> bluetit.calls == old(bluetit.calls)
      ensures !triggered ==> budget.log == old(budget.log) && currentServer == w.serverAfter
      ensures triggered && !cfg.dryRun ==>
                && GoodWalk(story, CandidateNames(ranked, cfg.band, w.serverAfter), begun, currentServer, cfg)
                && bluetit.calls == old(bluetit.calls) + Calls(story, CandidateNames(ranked, cfg.band, w.serverAfter))
                && budget.log == old(budget.log)
                                 + [Budget.Entry(finished, Armed(EndingOf(story), Degradation, cfg),
                                                 Decision(old(budget.log), asked, askedAgain, finished).value)]
      ensures triggered && cfg.dryRun ==>
                budget.log == old(budget.log)
                              + [Budget.Entry(finished, cfg.cooldown,
                                              Decision(old(budget.log), asked, askedAgain, finished).value)]
    {
      triggered, accused, story, begun := false, None, Story([], None), bluetit.clock;
      var current := w.serverAfter;
      var tripped := CountWindow(w);
      if !tripped { return; }
      if !cfg.dryRun { accused := current; }
      var allowed, escape := budget.AllowedOrEscape(asked, askedAgain, cfg.escapeWindow);
      if !allowed { return; }
      var names := CandidateNames(ranked, cfg.band, current);
      var connected;
      connected, story, begun := Switch(names, Degradation, escape, finished, saveWorks);
      triggered := true;
    }

    function Decision(log: seq<Budget.Entry>, asked: real, askedAgain: real, finished: real): Option<Budget.Kind> {
      Budget.Decide(log, Budget.Trip(asked, askedAgain, cfg.escapeWindow, finished, 0.0, true),
                    budget.maxPerDay, cfg.cooldown)
    }
  }
}
