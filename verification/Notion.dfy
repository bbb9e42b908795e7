/** The hub's OAuth grant: one process rotating refresh tokens kept in a versioned Secret, while
    store writes fail or half-fail and an operator may consent anew at any moment. */
module Notion {
  import opened Wrappers

  /** A refresh token: the consent it descends from, and how often it has been rotated. */
  datatype Token = Token(lineage: nat, generation: nat)

  datatype Pair = Pair(access: nat, expires: real, refresh: Token)

  /** The grant Secret. `complete` says it names a client and an endpoint. */
  datatype Secret = Secret(complete: bool, refresh: Option<Token>, access: Option<nat>, expires: real)

  /** A rotated pair not known to be stored, and the token the store held when it was not. */
  datatype Unsaved = Unsaved(base: Token, pair: Pair)

  datatype Answer =
    | Granted(access: nat, lifetime: real, refresh: Option<Token>)
    | InvalidGrant
    | Failed

  datatype Error = StoreUnreadable | Expired | Incomplete | RefreshFailed

  /** A token as it was presented, and the newest of its lineage at that moment. */
  datatype Use = Use(token: Token, newest: nat)

  const FLUSH_EVERY := 30.0
  const EARLY := 300.0

  function With(s: Secret, p: Pair): Secret {
    s.(refresh := Some(p.refresh), access := Some(p.access), expires := p.expires)
  }

  /** Everything outside the process, with two logs: the refresh tokens this program has presented,
      and the tokens its landed writes have replaced. */
  datatype Outside = Outside(
    secret: Secret,
    version: nat,
    newest: seq<nat>,  // what the authorization server holds, by lineage
    minted: nat,       // access tokens issued so far
    uses: seq<Use>,
    replaced: seq<(Token, Token)>)

  // ----- the invariant on values ------------------------------------------------------------------------

  predicate IsNewest(t: Token, newest: seq<nat>) {
    t.lineage < |newest| && t.generation == newest[t.lineage]
  }

  predicate StoredIsNewest(s: Secret, newest: seq<nat>) {
    s.refresh.Some? ==> IsNewest(s.refresh.value, newest)
  }

  /** The store holds the newest token, unless it still holds the base of an unsaved pair, which
      then is the newest. */
  predicate Consistent(s: Secret, newest: seq<nat>, unsaved: Option<Unsaved>) {
    && (unsaved.None? ==> StoredIsNewest(s, newest))
    && (unsaved.Some? ==>
          && unsaved.value.base.lineage == unsaved.value.pair.refresh.lineage
          && IsNewest(unsaved.value.pair.refresh, newest)
          && (s.refresh == Some(unsaved.value.base) || StoredIsNewest(s, newest)))
  }

  ghost predicate PresentedNewest(uses: seq<Use>) {
    forall i :: 0 <= i < |uses| ==> uses[i].token.generation == uses[i].newest
  }

  ghost predicate KeptLineage(replaced: seq<(Token, Token)>) {
    forall i :: 0 <= i < |replaced| ==> replaced[i].0.lineage == replaced[i].1.lineage
  }

  /** The invariant of a hub process: the store and the unsaved pair know the newest token between
      them, every token presented was the newest of its lineage, and nothing this program wrote
      replaced a token of another consent. */
  ghost predicate Good(o: Outside, unsaved: Option<Unsaved>) {
    && Consistent(o.secret, o.newest, unsaved)
    && PresentedNewest(o.uses)
    && KeptLineage(o.replaced)
    && (o.secret.access.Some? ==> o.secret.access.value < o.minted)
    && (unsaved.Some? ==> unsaved.value.pair.access < o.minted)
  }

  /** What others may do: rewrite the Secret unchanged, or consent anew. */
  ghost predicate OthersActed(o: Outside, o': Outside) {
    && o.version <= o'.version
    && (o.version == o'.version ==> o.secret == o'.secret)
    && o.newest <= o'.newest
    && o.minted <= o'.minted
    && o'.uses == o.uses && o'.replaced == o.replaced
    && (o'.secret == o.secret
        || (o'.secret.refresh.Some? && o'.secret.refresh.value.lineage >= |o.newest|
            && IsNewest(o'.secret.refresh.value, o'.newest)
            && o'.secret.access.Some? && o'.secret.access.value < o'.minted))
  }

  /** A versioned write, after the others: it applies only on the version it expects, and it may
      raise even then. */
  ghost predicate WriteEnded(o: Outside, o': Outside, pair: Pair, expected: nat, raised: bool) {
    || (raised && o' == o)
    || (o.version == expected
        && o' == o.(secret := With(o.secret, pair), version := o.version + 1,
                    replaced := o.replaced + if o.secret.refresh.Some? then [(o.secret.refresh.value, pair.refresh)]
                                             else []))
  }

  /** The token endpoint, after the others: it rotates and delivers, or delivers without rotating,
      or does nothing. */
  ghost predicate PostEnded(o: Outside, o': Outside, token: Token, a: Answer) {
    && token.lineage < |o.newest|
    && match a
       case Granted(access, _, refresh) =>
         && IsNewest(token, o.newest)
         && access == o.minted
         && (refresh.Some? ==> refresh.value == Token(token.lineage, token.generation + 1))
         && o' == o.(minted := o.minted + 1,
                     newest := if refresh.Some? then o.newest[token.lineage := token.generation + 1] else o.newest)
       case _ => o' == o
  }

  lemma OthersKeepGood(o: Outside, o': Outside, unsaved: Option<Unsaved>)
    requires Good(o, unsaved) && OthersActed(o, o')
    ensures Good(o', unsaved)
  {}

  /** Others, then a write of the unsaved pair over the version at which the store held its base. */
  lemma WriteKeepsGood(o: Outside, mid: Outside, o': Outside, u: Unsaved, expected: nat, raised: bool)
    requires Good(o, Some(u)) && OthersActed(o, mid) && WriteEnded(mid, o', u.pair, expected, raised)
    requires expected <= o.version && (expected == o.version ==> o.secret.refresh == Some(u.base))
    ensures Good(o', if raised then Some(u) else None)
  {
    OthersKeepGood(o, mid, Some(u));
  }

  /** Presenting the token the process reads as newest, and keeping what comes back as unsaved. */
  lemma PostKeepsGood(o: Outside, mid: Outside, o': Outside, unsaved: Option<Unsaved>, presented: Token, a: Answer)
    requires Good(o, unsaved) && PresentedNewest(mid.uses) && IsNewest(presented, o.newest)
    requires OthersActed(Presenting(o, presented), mid)
    requires PostEnded(mid, o', presented, a)
    requires if unsaved.Some? then presented == unsaved.value.pair.refresh
                                   && o.secret.refresh == Some(unsaved.value.base)
             else o.secret.refresh == Some(presented)
    ensures a.Granted? ==>
              forall pair: Pair ::
                (pair.access == a.access
                 && pair.refresh == (if a.refresh.Some? then a.refresh.value else presented)) ==>
                Good(o', Some(Unsaved(if unsaved.Some? then unsaved.value.base else presented, pair)))
    ensures !a.Granted? ==> Good(o', unsaved)
  {}

  /** The refresh token a process would present: the stored one, unless it knows of a newer one
      that never reached the store. */
  function Presented(s: Secret, unsaved: Option<Unsaved>): Option<Token> {
    if unsaved.Some? && s.refresh == Some(unsaved.value.base) then Some(unsaved.value.pair.refresh) else s.refresh
  }

  /** The presentation itself, as the authorization server sees it. */
  function Presenting(o: Outside, token: Token): Outside
    requires token.lineage < |o.newest|
  {
    o.(uses := o.uses + [Use(token, o.newest[token.lineage])])
  }

  /** A process that dies loses an unsaved pair. That does no harm when there was none, or the
      write had landed after all or a new consent has replaced the grant, or the refresh had not
      rotated. */
  predicate NothingLost(s: Secret, unsaved: Option<Unsaved>) {
    || unsaved.None?
    || s.refresh != Some(unsaved.value.base)
    || unsaved.value.base == unsaved.value.pair.refresh
  }

  /** Exactly then its successor starts with the invariant, and exactly then the next refresh token
      it presents is the newest of its lineage. */
  lemma RestartIsSafeIff(o: Outside, unsaved: Option<Unsaved>)
    requires Good(o, unsaved)
    ensures Good(o, None) <==> NothingLost(o.secret, unsaved)
    ensures var p := Presented(o.secret, None);
            && (p.Some? ==> p.value.lineage < |o.newest|)
            && ((p.Some? ==> PresentedNewest(Presenting(o, p.value).uses)) <==> NothingLost(o.secret, unsaved))
  {
    var p := Presented(o.secret, None);
    if p.Some? {
      var uses := Presenting(o, p.value).uses;
      assert uses[|o.uses|] == Use(p.value, o.newest[p.value.lineage]);
      assert forall i :: 0 <= i < |o.uses| ==> uses[i] == o.uses[i];
    }
  }

  /** It does happen: a refresh rotates, its write does not apply, the process restarts, and its
      successor presents a token that is no longer the newest. */
  lemma RestartCanReplayAnOldToken(start: Outside, pair: Pair)
    requires start == Outside(Secret(true, Some(Token(0, 0)), None, 0.0), 1, [0], 0, [], [])
    requires pair.access == 0 && pair.refresh == Token(0, 1)
    ensures Good(start, None)
    ensures var asked := Presenting(start, Token(0, 0));
            var rotated := asked.(minted := 1, newest := [1]);
            && PostEnded(asked, rotated, Token(0, 0), Granted(0, 3600.0, Some(Token(0, 1))))
            && WriteEnded(rotated, rotated, pair, 1, true)
            && Good(rotated, Some(Unsaved(Token(0, 0), pair)))
            && Presented(rotated.secret, None) == Some(Token(0, 0))
            && !PresentedNewest(Presenting(rotated, Token(0, 0)).uses)
  {
    var uses := Presenting(Presenting(start, Token(0, 0)).(newest := [1]), Token(0, 0)).uses;
    assert [0][0 := 1] == [1];
    assert uses[1] == Use(Token(0, 0), 1);
  }

  /** One call on the store: a read with what it found, or a versioned write and whether it raised. */
  datatype StoreCall = Asked(found: Option<(Secret, nat)>) | Wrote(pair: Pair, expected: nat, raised: bool)

  /** Everything a retry may do: look, and write its pair at the version it has just seen if the store
      still holds the base. It succeeds if the write did not raise, or the grant has been replaced. */
  predicate IsRetry(calls: seq<StoreCall>, u: Unsaved, stored: bool) {
    && calls != [] && calls[0].Asked?
    && if calls[0].found.None? then |calls| == 1 && !stored
       else if calls[0].found.value.0.refresh != Some(u.base) then |calls| == 1 && stored
       else |calls| == 2 && calls[1] == Wrote(u.pair, calls[0].found.value.1, !stored)
  }

  predicate EndsInWrite(calls: seq<StoreCall>, access: nat, raised: bool) {
    calls != [] && var last := calls[|calls| - 1]; last.Wrote? && last.pair.access == access && last.raised == raised
  }

  // ----- the world outside the process ---------------------------------------------------------------------

  class World {
    var now: Outside
    var clock: real
    ghost var calls: seq<StoreCall>

    constructor (start: Outside, clock: real)
      ensures now == start && this.clock == clock && calls == []
    {
      now, this.clock, calls := start, clock, [];
    }

    method Clock() returns (t: real)
      modifies this`clock
      ensures t == clock >= old(clock)
    {
      var d: real := *;
      if d > 0.0 { clock := clock + d; }
      t := clock;
    }

    /** Any number of rewrites and consents by others. */
    method Others()
      modifies this`now
      ensures OthersActed(old(now), now)
    {
      var n: int := *;
      for i := 0 to if n < 0 then 0 else n
        invariant OthersActed(old(now), now)
      {
        var consents: bool := *;
        var expires: real := *;
        if consents {
          now := now.(secret := Secret(true, Some(Token(|now.newest|, 0)), Some(now.minted), expires),
                      newest := now.newest + [0], minted := now.minted + 1, version := now.version + 1);
        } else {
          now := now.(version := now.version + 1);
        }
      }
    }

    method Read() returns (r: Result<(Secret, nat), Error>)
      modifies this`now, this`calls
      ensures OthersActed(old(now), now)
      ensures r.Ok? ==> r.value == (now.secret, now.version)
      ensures r.Err? ==> r.error == StoreUnreadable
      ensures calls == old(calls) + [Asked(if r.Ok? then Some(r.value) else None)]
    {
      Others();
      var works: bool := *;
      r := if works then Ok((now.secret, now.version)) else Err(StoreUnreadable);
      calls := calls + [Asked(if r.Ok? then Some(r.value) else None)];
    }

    method Write(pair: Pair, expected: nat) returns (raised: bool, ghost mid: Outside)
      modifies this`now, this`calls
      ensures OthersActed(old(now), mid) && WriteEnded(mid, now, pair, expected, raised)
      ensures calls == old(calls) + [Wrote(pair, expected, raised)]
    {
      Others();
      mid := now;
      var applied: bool := *;
      applied := applied && now.version == expected;
      raised := *;
      raised := raised || !applied;
      calls := calls + [Wrote(pair, expected, raised)];
      if applied {
        now := now.(secret := With(now.secret, pair), version := now.version + 1,
                    replaced := now.replaced
                                + if now.secret.refresh.Some? then [(now.secret.refresh.value, pair.refresh)] else []);
      }
    }

    method Post(token: Token) returns (a: Answer, ghost mid: Outside)
      requires token.lineage < |now.newest|
      modifies this`now
      ensures OthersActed(Presenting(old(now), token), mid)
      ensures PostEnded(mid, now, token, a)
    {
      now := Presenting(now, token);
      Others();
      mid := now;
      var choice: int := *;
      var lifetime: real := *;
      a := if choice == 0 then InvalidGrant else Failed;
      if token.generation == now.newest[token.lineage] && choice > 0 {
        var rotates: bool := *;
        a := Granted(now.minted, lifetime, if rotates then Some(Token(token.lineage, token.generation + 1)) else None);
        now := now.(minted := now.minted + 1,
                    newest := if rotates then now.newest[token.lineage := token.generation + 1] else now.newest);
      }
    }
  }

  // ----- the grant --------------------------------------------------------------------------------------------

  /** A retry: with nothing to do, before its time, or tried at a moment, after which the pair is no
      longer owed to the store, having been written or overtaken by a new consent, or still is. */
  datatype FlushCourse = NothingToDo | TooSoon(at: real) | Tried(at: real, stored: bool)

  /** What a request for a token looked at: the store, for a retry; the clock, for a cached token; the
      store, with what was still unsaved then; and the clock again, for the stored token. */
  datatype Look = Look(retry: seq<StoreCall>, cache: Option<real>, stored: Option<Secret>, kept: Option<Unsaved>,
                       at: real)

  /** What the process takes the store to hold. */
  function Overlaid(stored: Secret, unsaved: Option<Unsaved>): Secret {
    if unsaved.Some? && stored.refresh == Some(unsaved.value.base) then With(stored, unsaved.value.pair) else stored
  }

  lemma OverlaidIsPresented(stored: Secret, unsaved: Option<Unsaved>)
    ensures Overlaid(stored, unsaved).refresh == Presented(stored, unsaved)
  {}

  class Grant {
    const world: World
    var token: Option<nat>
    var expires: real
    var rejected: Option<nat>
    var unsaved: Option<Unsaved>
    var nextFlush: real

    ghost predicate Valid()
      reads this, world
    {
      && Good(world.now, unsaved)
      && (token.Some? ==> token != rejected && token.value < world.now.minted)
      && (rejected.Some? ==> rejected.value < world.now.minted)
    }

    /** A hub process that starts on a store holding the newest token. */
    constructor (world: World)
      requires Good(world.now, None)
      ensures Valid() && this.world == world && unsaved.None? && token.None? && rejected.None?
    {
      this.world := world;
      token, expires, rejected, unsaved, nextFlush := None, 0.0, None, None, 0.0;
    }

    /** The upstream said 401. */
    method Invalidate()
      requires Valid()
      modifies this`token, this`rejected
      ensures Valid() && token.None? && rejected == old(token)
    {
      rejected := token;
      token := None;
    }

    /** Retries an unsaved pair, at most every 30 seconds. `course` says how far it got. */
    method Flush() returns (ghost course: FlushCourse)
      requires Valid()
      modifies this`unsaved, this`nextFlush, world
      ensures Valid() && world.now.minted >= old(world.now.minted) && world.now.uses == old(world.now.uses)
      ensures old(world.clock) <= world.clock
      ensures course == NothingToDo <==> old(unsaved).None?
      ensures course.TooSoon? ==> old(world.clock) <= course.at < old(nextFlush)
      ensures course.Tried? ==> old(nextFlush) <= course.at <= world.clock && nextFlush == course.at + 30.0
      ensures old(world.calls) <= world.calls
      ensures if course.Tried? then IsRetry(world.calls[|old(world.calls)|..], old(unsaved).value, course.stored)
              else world.calls == old(world.calls)
      ensures !course.Tried? ==> nextFlush == old(nextFlush)
      ensures unsaved == if course == NothingToDo || (course.Tried? && course.stored) then None else old(unsaved)
    {
      course := NothingToDo;
      if unsaved.None? { return; }
      var t := world.Clock();
      course := TooSoon(t);
      if t < nextFlush { return; }
      t := world.Clock();
      course := Tried(t, false);
      nextFlush := t + FLUSH_EVERY;
      ghost var before := world.now;
      var r := world.Read();
      OthersKeepGood(before, world.now, unsaved);
      if r.Err? { return; }
      var data, version := r.value.0, r.value.1;
      if data.refresh == Some(unsaved.value.base) {
        before := world.now;
        var raised;
        ghost var mid;
        raised, mid := world.Write(unsaved.value.pair, version);
        WriteKeepsGood(before, mid, world.now, unsaved.value, version, raised);
        if raised { return; }
      }
      course := Tried(t, true);
      unsaved := None;
    }

    /** A token from the cache, from the store, or from a refresh; never the one rejected last, and
        without a refresh exactly when one is at hand that has more than five minutes left. */
    method AccessToken() returns (r: Result<nat, Error>, ghost look: Look)
      requires Valid()
      modifies this, world
      ensures Valid()
      ensures r.Ok? ==> token == Some(r.value) && token != old(rejected)
      ensures look.cache.Some? <==> old(token).Some?
      ensures look.cache.Some? ==> old(world.clock) <= look.cache.value <= world.clock
      ensures look.cache.Some? && look.cache.value < old(expires) - 300.0 ==>
                r == Ok(old(token).value) && expires == old(expires) && world.now.uses == old(world.now.uses)
      ensures !(look.cache.Some? && look.cache.value < old(expires) - 300.0) ==>
                look.stored.Some? || (r == Err(StoreUnreadable) && world.now.uses == old(world.now.uses))
      ensures old(world.calls) + look.retry <= world.calls
      ensures old(unsaved).Some? && old(nextFlush) <= old(world.clock) ==>
                exists stored :: IsRetry(look.retry, old(unsaved).value, stored)
      ensures r.Ok? && world.now.uses != old(world.now.uses) ==>
                EndsInWrite(world.calls, r.value, unsaved.Some?)
      ensures look.stored.Some? ==>
                && !(look.cache.Some? && look.cache.value < old(expires) - 300.0)
                && (look.kept.None? || look.kept == old(unsaved))
                && old(world.clock) <= look.at <= world.clock
                && Answered(Overlaid(look.stored.value, look.kept), look.at, old(rejected), r, expires,
                            old(world.now.uses), world.now.uses)
    {
      look := Look([], None, None, None, world.clock);
      ghost var course := Flush();
      look := look.(retry := world.calls[|old(world.calls)|..]);
      if token.Some? {
        var t := world.Clock();
        look := look.(cache := Some(t));
        if t < expires - EARLY { return Ok(token.value), look; }
      }
      ghost var before := world.now;
      var read := world.Read();
      OthersKeepGood(before, world.now, unsaved);
      if read.Err? { return Err(read.error), look; }
      look := look.(stored := Some(read.value.0), kept := unsaved);
      ghost var at;
      r, at := FromStore(read.value.0, read.value.1);
      look := look.(at := at);
    }

    /** The answer behind a read that found `data`: its token if it is usable, and otherwise one refresh
        that presents its refresh token, if there is one to present. */
    static ghost predicate Answered(data: Secret, at: real, rejected: Option<nat>, r: Result<nat, Error>, expires: real,
                                    before: seq<Use>, uses: seq<Use>)
    {
      if data.access.Some? && data.access != rejected && at < data.expires - 300.0 then
        r == Ok(data.access.value) && expires == data.expires && uses == before
      else if data.refresh.None? then r == Err(Expired) && uses == before
      else if !data.complete then r == Err(Incomplete) && uses == before
      else uses == before + [Use(data.refresh.value, data.refresh.value.generation)]
    }

    /** An unsaved pair is newer than a store that still holds its base; otherwise it is obsolete. */
    method LayOver(stored: Secret) returns (data: Secret)
      requires Valid() && stored == world.now.secret
      modifies this`unsaved
      ensures Valid() && data == Overlaid(stored, old(unsaved)) && data.refresh == Presented(stored, old(unsaved))
      ensures unsaved == None || (unsaved == old(unsaved) && stored.refresh == Some(unsaved.value.base))
    {
      data := stored;
      if unsaved.Some? {
        if data.refresh == Some(unsaved.value.base) {
          data := With(data, unsaved.value.pair);
        } else {
          unsaved := None;
        }
      }
    }

    /** The half of `AccessToken` behind the read. */
    method FromStore(stored: Secret, version: nat) returns (r: Result<nat, Error>, ghost at: real)
      requires Valid() && stored == world.now.secret && version == world.now.version
      modifies this, world
      ensures Valid()
      ensures r.Ok? ==> token == Some(r.value) && token != old(rejected)
      ensures old(world.clock) <= at <= world.clock
      ensures Answered(Overlaid(stored, old(unsaved)), at, old(rejected), r, expires,
                       old(world.now.uses), world.now.uses)
      ensures r.Ok? && world.now.uses != old(world.now.uses) ==>
                EndsInWrite(world.calls, r.value, unsaved.Some?)
      ensures old(world.calls) <= world.calls
    {
      var data := LayOver(stored);
      var atHand;
      atHand, at := AtHand(data);
      if atHand { return Ok(data.access.value), at; }
      ghost var answer, answered;
      r, answer, answered := Refresh(data, version);
    }

    /** Takes over a stored token that is not the rejected one and has more than five minutes left. */
    method AtHand(data: Secret) returns (usable: bool, ghost at: real)
      requires Valid() && (data.access.Some? ==> data.access.value < world.now.minted)
      modifies this`token, this`expires, world`clock
      ensures Valid() && old(world.clock) <= at <= world.clock
      ensures usable <==> data.access.Some? && data.access != rejected && at < data.expires - 300.0
      ensures token == (if usable then data.access else old(token))
      ensures expires == if usable then data.expires else old(expires)
    {
      at, usable := world.clock, false;
      if data.access.Some? && data.access != rejected {
        var t := world.Clock();
        at := t;
        if t < data.expires - EARLY {
          token, expires, usable := data.access, data.expires, true;
        }
      }
    }

    /** A rotated pair is unsaved until its write has not raised. */
    method Keep(renewed: Pair, stored: Token, version: nat)
      requires Good(world.now, Some(Unsaved(stored, renewed))) && version <= world.now.version
      requires version == world.now.version ==> world.now.secret.refresh == Some(stored)
      modifies this`unsaved, this`nextFlush, world
      ensures old(world.clock) <= world.clock
      ensures world.calls == old(world.calls) + [Wrote(renewed, version, unsaved.Some?)]
      ensures Good(world.now, unsaved) && (unsaved.Some? ==> unsaved.value == Unsaved(stored, renewed))
      ensures unsaved.Some? ==> nextFlush == world.clock + 30.0
      ensures world.now.minted >= old(world.now.minted) && world.now.uses == old(world.now.uses)
    {
      unsaved := Some(Unsaved(stored, renewed));
      ghost var before := world.now;
      var raised;
      ghost var mid;
      raised, mid := world.Write(renewed, version);
      WriteKeepsGood(before, mid, world.now, unsaved.value, version, raised);
      if raised {
        var t := world.Clock();
        nextFlush := t + FLUSH_EVERY;
      } else {
        unsaved := None;
      }
    }

    /** `data` is what the store held at `version`, with an unsaved pair laid over it. */
    method Refresh(data: Secret, version: nat)
      returns (r: Result<nat, Error>, ghost answer: Answer, ghost answered: real)
      requires Valid() && version == world.now.version
      requires data.refresh.Some? ==> IsNewest(data.refresh.value, world.now.newest)
      requires data.refresh.Some? ==>
                 if unsaved.Some? then data.refresh == Some(unsaved.value.pair.refresh)
                                       && world.now.secret.refresh == Some(unsaved.value.base)
                 else world.now.secret.refresh == data.refresh
      modifies this, world
      ensures Valid()
      ensures old(world.clock) <= world.clock
      ensures r.Ok? ==> token == Some(r.value) && old(world.now.minted) <= r.value && rejected.None?
      ensures r.Ok? <==> answer.Granted?
      ensures r.Ok? ==> r.value == answer.access && expires == (answered + answer.lifetime).Floor as real
                        && old(world.clock) <= answered <= world.clock
      ensures r == Err(Expired) <==> data.refresh.None? || (data.complete && answer == InvalidGrant)
      ensures r.Err? ==> unsaved == old(unsaved) && token == old(token) && world.calls == old(world.calls)
      ensures r.Ok? ==>
                world.calls == old(world.calls)
                               + [Wrote(Pair(r.value, expires, answer.refresh.GetOr(data.refresh.value)), version,
                                        unsaved.Some?)]
      ensures data.refresh.None? ==> r == Err(Expired) && world.now == old(world.now)
      ensures data.refresh.Some? && !data.complete ==> r == Err(Incomplete) && world.now == old(world.now)
      ensures data.refresh.Some? && data.complete ==>
                world.now.uses == old(world.now.uses) + [Use(data.refresh.value, data.refresh.value.generation)]
    {
      answer, answered := Failed, world.clock;
      if data.refresh.None? { return Err(Expired), answer, answered; }
      if !data.complete { return Err(Incomplete), answer, answered; }
      var presented := data.refresh.value;
      var stored := if unsaved.Some? then unsaved.value.base else presented;
      ghost var before, mid := world.now, world.now;
      var given;
      given, mid := world.Post(presented);
      answer := given;
      PostKeepsGood(before, mid, world.now, unsaved, presented, given);
      match given {
        case InvalidGrant => return Err(Expired), answer, answered;
        case Failed => return Err(RefreshFailed), answer, answered;
        case Granted(_, _, _) =>
      }
      var t := world.Clock();
      answered := t;
      var renewed := Pair(given.access, (t + given.lifetime).Floor as real,
                          if given.refresh.Some? then given.refresh.value else presented);
      Keep(renewed, stored, version);
      token, expires, rejected := Some(renewed.access), renewed.expires, None;
      r := Ok(renewed.access);
    }
  }

  /** A hub over its whole life: requests, 401s and restarts in any order, with consents, rewrites
      and failing or half-failing writes between any two of its calls. All restarts are taken that
      lose nothing, which by `RestartIsSafeIff` are all that do no harm. */
  method AnyLife(world: World, steps: nat) returns (grant: Grant)
    requires Good(world.now, None)
    modifies world
    ensures grant.Valid() && grant.world == world
    ensures PresentedNewest(world.now.uses) && KeptLineage(world.now.replaced)
  {
    grant := new Grant(world);
    for i := 0 to steps
      invariant fresh(grant) && grant.world == world && grant.Valid()
    {
      var choice: int := *;
      if choice == 0 {
        grant.Invalidate();
      } else if choice == 1 && NothingLost(world.now.secret, grant.unsaved) {
        RestartIsSafeIff(world.now, grant.unsaved);
        grant := new Grant(world);
      } else {
        var r;
        ghost var look;
        r, look := grant.AccessToken();
      }
    }
  }
}
