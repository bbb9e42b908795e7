/** Attribution of loss windows: which windows count against which tunnel session, and when the
    agent may accuse a server. */
module Watch {
  import opened Wrappers
  import Text

  /** One probe window: the tunnel before and after it, and the loss inside and on the LAN. */
  datatype Window = Window(serverBefore: Option<string>, generationBefore: Option<int>,
                           loss: Option<real>, lanLoss: Option<real>,
                           serverAfter: Option<string>, generationAfter: Option<int>)

  /** A tunnel session: a server, in lower case, behind one incarnation of the device. */
  datatype Session = Session(server: string, generation: int)

  datatype Kind = Changed | Unmeasured | Clean | HomeSide | Bad(session: Session)

  /** The agent's `consecutive_bad` fields. */
  datatype Streak = Streak(bad: nat, session: Option<Session>)

  const NO_STREAK := Streak(0, None)

  predicate Named(server: Option<string>) {
    server.Some? && server.value != ""
  }

  /** The session a window was measured on from its first packet to its last. */
  function SessionOf(w: Window): Option<Session> {
    if Named(w.serverBefore) && Named(w.serverAfter)
       && Text.Lower(w.serverBefore.value) == Text.Lower(w.serverAfter.value)
       && w.generationBefore.Some? && w.generationBefore == w.generationAfter
    then Some(Session(Text.Lower(w.serverAfter.value), w.generationAfter.value))
    else None
  }

  function KindOf(w: Window, badLoss: real): Kind {
    if SessionOf(w).None? then Changed
    else if w.loss.None? then Unmeasured
    else if w.loss.value < badLoss then Clean
    else if w.lanLoss.Some? && w.lanLoss.value >= badLoss then HomeSide
    else Bad(SessionOf(w).value)
  }

  /** The counter after a window, and whether the window trips. */
  function Step(s: Streak, k: Kind, badWindows: int): (Streak, bool) {
    match k
    case Changed => (NO_STREAK, false)
    case Unmeasured => (s, false)
    case Clean => (NO_STREAK, false)
    case HomeSide => (s, false)
    case Bad(session) =>
      var bad := 1 + if s.session == Some(session) then s.bad else 0;
      if bad < badWindows then (Streak(bad, Some(session)), false) else (NO_STREAK, true)
  }

  function Run(ks: seq<Kind>, badWindows: int): Streak {
    if ks == [] then NO_STREAK
    else Step(Run(ks[..|ks| - 1], badWindows), ks[|ks| - 1], badWindows).0
  }

  predicate Trips(ks: seq<Kind>, badWindows: int) {
    ks != [] && Step(Run(ks[..|ks| - 1], badWindows), ks[|ks| - 1], badWindows).1
  }

  /** Was the tunnel on one named server, behind one readable incarnation of its device, from the first
      packet of the window to the last? */
  predicate OnOneTunnel(w: Window) {
    match (w.serverBefore, w.serverAfter, w.generationBefore, w.generationAfter)
    case (Some(before), Some(after), Some(first), Some(last)) =>
      before != "" && after != "" && Text.Lower(before) == Text.Lower(after) && first == last
    case _ => false
  }

  /** Which windows count: a bad one was measured on one tunnel, lost too much inside it, and did not
      lose too much on the way to the router as well. */
  lemma KindsExactlyWhen(w: Window, badLoss: real)
    ensures var lossy := w.loss.Some? && w.loss.value >= badLoss;
            var lanLossy := w.lanLoss.Some? && w.lanLoss.value >= badLoss;
            && (KindOf(w, badLoss) == Changed <==> !OnOneTunnel(w))
            && (KindOf(w, badLoss) == Unmeasured <==> OnOneTunnel(w) && w.loss.None?)
            && (KindOf(w, badLoss) == Clean <==> OnOneTunnel(w) && w.loss.Some? && w.loss.value < badLoss)
            && (KindOf(w, badLoss) == HomeSide <==> OnOneTunnel(w) && lossy && lanLossy)
            && (forall server, generation ::
                  KindOf(w, badLoss) == Bad(Session(server, generation))
                  <==> OnOneTunnel(w) && lossy && !lanLossy
                       && server == Text.Lower(w.serverAfter.value) && generation == w.generationAfter.value)
  {}

  // ----- the trace, read backwards ---------------------------------------------------------------

  predicate Neutral(k: Kind) { k == Unmeasured || k == HomeSide }

  /** Bad windows of one session at the end of the trace, with nothing but neutral ones between. */
  function BadTail(ks: seq<Kind>, session: Session): nat {
    if ks == [] then 0
    else
      var front, last := ks[..|ks| - 1], ks[|ks| - 1];
      if Neutral(last) then BadTail(front, session)
      else if last == Bad(session) then BadTail(front, session) + 1
      else 0
  }

  function Required(badWindows: int): (n: nat)
    ensures n >= 1
  {
    if badWindows < 1 then 1 else badWindows
  }

  /** How many of the streak's windows count for a session. */
  function CountFor(s: Streak, session: Session): nat {
    if s.session == Some(session) then s.bad else 0
  }

  predicate CountsTail(s: Streak, session: Session, tail: nat, badWindows: int) {
    && s.bad < Required(badWindows)
    && (s.bad > 0 <==> s.session.Some?)
    && CountFor(s, session) == tail % Required(badWindows)
  }

  /** The counter is the length of the tail, modulo the windows a trip takes: for the session of
      the tail it is that number, for every other session it is zero. */
  lemma {:induction false} CounterIsTail(ks: seq<Kind>, badWindows: int, session: Session)
    ensures CountsTail(Run(ks, badWindows), session, BadTail(ks, session), badWindows)
  {
    if ks == [] {
      NothingCounts(session, badWindows);
    } else {
      var front, last := ks[..|ks| - 1], ks[|ks| - 1];
      match last {
        case Unmeasured => CounterIsTail(front, badWindows, session);
        case HomeSide => CounterIsTail(front, badWindows, session);
        case Changed => NothingCounts(session, badWindows);
        case Clean => NothingCounts(session, badWindows);
        case Bad(hit) =>
          CounterIsTail(front, badWindows, hit);
          BadStep(Run(front, badWindows), hit, session, badWindows, BadTail(front, hit));
      }
    }
  }

  lemma NothingCounts(session: Session, badWindows: int)
    ensures CountsTail(NO_STREAK, session, 0, badWindows)
  {}

  /** A bad window adds one for its own session and leaves nothing to any other. */
  lemma BadStep(s: Streak, hit: Session, session: Session, badWindows: int, tail: nat)
    requires CountsTail(s, hit, tail, badWindows)
    ensures CountsTail(Step(s, Bad(hit), badWindows).0, session, if session == hit then tail + 1 else 0, badWindows)
  {
    OneMore(tail, Required(badWindows));
    NothingCounts(session, badWindows);
  }

  lemma OneMore(m: nat, n: nat)
    requires n >= 1
    ensures (m + 1) % n == if m % n + 1 == n then 0 else m % n + 1
  {
    var q, r := m / n, m % n;
    assert m + 1 == n * q + r + 1;
    if r + 1 == n {
      assert m + 1 == n * (q + 1);
      RemainderIs(m + 1, n, q + 1, 0);
    } else {
      RemainderIs(m + 1, n, q, r + 1);
    }
  }

  lemma RemainderIs(m: nat, n: nat, q: nat, r: nat)
    requires m == n * q + r && r < n
    ensures m % n == r
  {
    var d, e := m / n, m % n;
    assert m == n * d + e;
    assert n * (q - d) == n * q - n * d;
    Multiple(n, q - d);
  }

  lemma Multiple(n: nat, k: int)
    ensures k >= 1 ==> n * k >= n
    ensures k <= -1 ==> n * k + n <= 0
  {
    if k >= 1 { assert n * (k - 1) >= 0; }
    if k <= -1 { assert n * (-1 - k) >= 0; }
  }

  /** A window trips exactly when it is bad and completes the required number, counted backwards
      through neutral windows on its own session. */
  lemma TripsExactlyWhen(ks: seq<Kind>, badWindows: int)
    ensures Trips(ks, badWindows) <==>
              ks != [] && ks[|ks| - 1].Bad? && BadTail(ks, ks[|ks| - 1].session) % Required(badWindows) == 0
  {
    if ks != [] && ks[|ks| - 1].Bad? {
      var front, session := ks[..|ks| - 1], ks[|ks| - 1].session;
      CounterIsTail(front, badWindows, session);
      OneMore(BadTail(front, session), Required(badWindows));
    }
  }

  /** The windows a trip rests on. */
  ghost predicate Evidence(at: seq<nat>, ks: seq<Kind>, session: Session) {
    && (forall i :: 0 <= i < |at| ==> at[i] < |ks| && ks[at[i]] == Bad(session))
    && (forall i, j :: 0 <= i < j < |at| ==> at[i] < at[j])
    && (at != [] ==> forall w :: at[0] <= w < |ks| && w !in at ==> Neutral(ks[w]))
  }

  lemma {:induction false} TailEvidence(ks: seq<Kind>, session: Session, n: nat) returns (at: seq<nat>)
    requires n <= BadTail(ks, session)
    ensures |at| == n && Evidence(at, ks, session)
  {
    at := [];
    if n > 0 {
      var front, last := ks[..|ks| - 1], ks[|ks| - 1];
      if last == Bad(session) {
        var rest := TailEvidence(front, session, n - 1);
        at := rest + [|front|];
        forall w | at[0] <= w < |ks| && w !in at ensures Neutral(ks[w]) {
          assert at[|rest|] == |front|;
          assert w < |front| && w !in rest && front[w] == ks[w];
        }
      } else {
        at := TailEvidence(front, session, n);
        forall w | at[0] <= w < |ks| && w !in at ensures Neutral(ks[w]) {
          if w < |front| { assert front[w] == ks[w]; }
        }
      }
    }
  }

  function Through(ks: seq<Kind>, w: nat): seq<Kind>
    requires w < |ks|
  {
    ks[..w + 1]
  }

  /** Evidence reaches to the last window that is not neutral. */
  lemma LastIsEvidence(ks: seq<Kind>, session: Session, at: seq<nat>)
    requires ks != [] && at != [] && Evidence(at, ks, session) && !Neutral(ks[|ks| - 1])
    ensures at[|at| - 1] == |ks| - 1
    ensures Evidence(at[..|at| - 1], ks[..|ks| - 1], session)
  {
    var front, rest := ks[..|ks| - 1], at[..|at| - 1];
    assert |front| in at;
    assert forall i :: 0 <= i < |at| ==> at[i] <= at[|at| - 1];
    if rest != [] {
      forall w | rest[0] <= w < |front| && w !in rest ensures Neutral(front[w]) {
        assert rest[0] == at[0] && w !in at;
      }
    }
  }

  /** Behind its i-th piece of evidence, the tail is shorter by the pieces still to come. */
  lemma {:induction false} TailAtEvidence(ks: seq<Kind>, session: Session, at: seq<nat>, i: nat)
    requires i < |at| && Evidence(at, ks, session)
    ensures BadTail(Through(ks, at[i]), session) + (|at| - 1 - i) == BadTail(ks, session)
    decreases |ks|
  {
    var front, last := ks[..|ks| - 1], ks[|ks| - 1];
    assert at[i] <= |front| && at[0] <= |front|;
    if at[i] == |front| {
      assert Through(ks, at[i]) == ks;
      assert i == |at| - 1;
    } else {
      assert Through(ks, at[i]) == Through(front, at[i]);
      if Neutral(last) {
        assert forall j :: 0 <= j < |at| ==> at[j] < |front|;
        assert forall w :: 0 <= w < |front| ==> front[w] == ks[w];
        TailAtEvidence(front, session, at, i);
      } else {
        LastIsEvidence(ks, session, at);
        TailAtEvidence(front, session, at[..|at| - 1], i);
      }
    }
  }

  /** Every accusation rests on exactly the required number of bad windows, all of one session,
      the last of them just now, with nothing clean, foreign or cut between them. */
  lemma TripRestsOnEvidence(ks: seq<Kind>, badWindows: int) returns (at: seq<nat>)
    requires Trips(ks, badWindows)
    ensures |at| == Required(badWindows) == (if badWindows < 1 then 1 else badWindows)
    ensures at[|at| - 1] == |ks| - 1
    ensures ks[|ks| - 1].Bad? && Evidence(at, ks, ks[|ks| - 1].session)
    ensures forall w :: at[0] <= w < |ks| && w !in at ==> ks[w] == Unmeasured || ks[w] == HomeSide
    ensures Run(ks, badWindows) == NO_STREAK
  {
    var front, session := ks[..|ks| - 1], ks[|ks| - 1].session;
    TripsExactlyWhen(ks, badWindows);
    AtLeast(BadTail(ks, session), Required(badWindows));
    var rest := TailEvidence(front, session, Required(badWindows) - 1);
    at := rest + [|front|];
    forall w | at[0] <= w < |ks| && w !in at ensures Neutral(ks[w]) {
      assert at[|rest|] == |front|;
      assert w < |front| && w !in rest && front[w] == ks[w];
    }
  }

  /** None of that evidence, and no window among it, has already brought an accusation. */
  lemma EvidenceIsUnspent(ks: seq<Kind>, badWindows: int, at: seq<nat>, w: nat)
    requires Trips(ks, badWindows) && ks[|ks| - 1].Bad?
    requires |at| == Required(badWindows) && Evidence(at, ks, ks[|ks| - 1].session)
    requires at[0] <= w < |ks| - 1
    ensures !Trips(Through(ks, w), badWindows)
  {
    var session, n := ks[|ks| - 1].session, Required(badWindows);
    TripsExactlyWhen(ks, badWindows);
    TripsExactlyWhen(Through(ks, w), badWindows);
    if w in at {
      assert |ks| - 1 in at;
      var i :| 0 <= i < n && at[i] == w;
      var j :| 0 <= j < n && at[j] == |ks| - 1;
      assert i < j;
      AtLeast(BadTail(ks, session), n);
      TailAtEvidence(ks, session, at, i);
      BetweenMultiples(BadTail(ks, session), n, n - 1 - i);
    }
  }

  lemma AtLeast(m: nat, n: nat)
    requires n >= 1 && m % n == 0 && m > 0
    ensures m >= n
  {}

  lemma BetweenMultiples(m: nat, n: nat, j: nat)
    requires 0 < j < n <= m && m % n == 0
    ensures (m - j) % n != 0
  {
    var q := m / n;
    assert m - j == n * (q - 1) + (n - j);
    RemainderIs(m - j, n, q - 1, n - j);
  }
}
