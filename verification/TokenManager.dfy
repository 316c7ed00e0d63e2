/** Access tokens: a cache refreshed ahead of expiry and one shared request in flight. The calls
    of the asynchronous functions interleave at their awaits, so each stretch between two awaits
    is an event of its own; the token server's answers arrive in any order. */
module TokenManager {
  import opened Options

  const REFRESH_MARGIN_MS: real := 300000.0
  const DEFAULT_TTL_SEC: real := 600.0

  datatype Token = Token(value: string, expiresAt: real)

  /** The lifetime field of an answer: missing, a positive number, or anything else. */
  datatype Expiry = Absent | Valid(seconds: real) | Invalid

  datatype Answer = HttpFailed | NoToken | Issued(token: string, expiry: Expiry)

  datatype Outcome = Rejected | Resolved(token: Token)

  predicate IsExpiring(expiresAt: real, now: real) {
    now >= expiresAt - REFRESH_MARGIN_MS
  }

  function OutcomeOf(answer: Answer, now: real): Outcome {
    match answer
    case HttpFailed => Rejected
    case NoToken => Rejected
    case Issued(token, Absent) => Resolved(Token(token, now + DEFAULT_TTL_SEC * 1000.0))
    case Issued(token, Valid(seconds)) => Resolved(Token(token, now + seconds * 1000.0))
    case Issued(_, Invalid) => Rejected
  }

  // ----- the system as a state machine -----

  /** A request is sent, then its promise settles, then the call that sent it resumes. Its epoch
      is the number of revocations before it was sent. */
  datatype Phase = Sent | Settled(outcome: Outcome) | Finished(outcome: Outcome)

  datatype Request = Request(epoch: nat, phase: Phase)

  datatype Caller = FromCache(token: Token, time: real) | Waiting(request: nat)

  /** The two module fields, and around them all requests, revocations and callers so far;
      `writer` is the request whose answer is cached. */
  datatype State = State(cache: Option<Token>, inflight: Option<nat>,
                         requests: seq<Request>, revokes: nat, callers: seq<Caller>, writer: Option<nat>)

  datatype Event =
    | Get(force: bool, now: real)
    | Settle(request: nat, answer: Answer, now: real)
    | Finish(request: nat)
    | Revoke

  const START := State(None, None, [], 0, [], None)

  predicate IsSent(s: State, r: nat) {
    r < |s.requests| && s.requests[r].phase.Sent?
  }

  predicate IsSettled(s: State, r: nat) {
    r < |s.requests| && s.requests[r].phase.Settled?
  }

  function Marked(s: State, r: nat, phase: Phase): seq<Request>
    requires r < |s.requests|
  {
    s.requests[r := s.requests[r].(phase := phase)]
  }

  /** One event; one that cannot happen now changes nothing. */
  function After(s: State, e: Event): State {
    match e
    case Get(force, now) =>
      if !force && s.cache.Some? && !IsExpiring(s.cache.value.expiresAt, now) then
        s.(callers := s.callers + [FromCache(s.cache.value, now)])
      else if s.inflight.Some? then
        s.(callers := s.callers + [Waiting(s.inflight.value)])
      else
        s.(requests := s.requests + [Request(s.revokes, Sent)], inflight := Some(|s.requests|),
           callers := s.callers + [Waiting(|s.requests|)])
    case Settle(r, answer, now) =>
      if !IsSent(s, r) then s
      else
        var outcome := OutcomeOf(answer, now);
        var t := s.(requests := Marked(s, r, Settled(outcome)));
        if outcome.Resolved? then t.(cache := Some(outcome.token), writer := Some(r)) else t
    case Finish(r) =>
      if !IsSettled(s, r) then s
      else
        var t := s.(requests := Marked(s, r, Finished(s.requests[r].phase.outcome)));
        if s.inflight == Some(r) then t.(inflight := None) else t
    case Revoke => s.(cache := None, inflight := None, revokes := s.revokes + 1, writer := None)
  }

  function Run(s: State, events: seq<Event>): State {
    if events == [] then s else After(Run(s, events[..|events|-1]), events[|events|-1])
  }

  predicate Unfinished(s: State, r: nat) {
    r < |s.requests| && !s.requests[r].phase.Finished?
  }

  predicate ResolvedTo(s: State, r: nat, token: Token) {
    r < |s.requests| && !s.requests[r].phase.Sent? && s.requests[r].phase.outcome == Resolved(token)
  }

  /** The shared request is unfinished and of the current epoch, and every epoch has at most one
      unfinished request. */
  ghost predicate OnePerEpoch(s: State) {
    && (forall r: nat :: r < |s.requests| ==> s.requests[r].epoch <= s.revokes)
    && (s.inflight.Some? ==> Unfinished(s, s.inflight.value) && s.requests[s.inflight.value].epoch == s.revokes)
    && (forall r: nat :: Unfinished(s, r) && s.requests[r].epoch == s.revokes ==> s.inflight == Some(r))
    && (forall a: nat, b: nat :: Unfinished(s, a) && Unfinished(s, b) && s.requests[a].epoch == s.requests[b].epoch ==> a == b)
  }

  ghost predicate Sound(s: State) {
    && OnePerEpoch(s)
    && (s.cache.Some? <==> s.writer.Some?)
    && (s.cache.Some? ==> ResolvedTo(s, s.writer.value, s.cache.value))
    && (forall c: nat :: c < |s.callers| ==> Served(s, s.callers[c]))
  }

  /** A caller waits for a request that exists, or was given a token that the server issued and
      that had more than the margin left. */
  ghost predicate Served(s: State, c: Caller) {
    match c
    case Waiting(r) => r < |s.requests|
    case FromCache(token, time) => time < token.expiresAt - REFRESH_MARGIN_MS && exists r: nat :: ResolvedTo(s, r, token)
  }

  /** Settled outcomes and callers never change. */
  ghost predicate Extends(s: State, t: State) {
    && |s.requests| <= |t.requests| && s.callers <= t.callers
    && (forall r: nat :: r < |s.requests| ==> t.requests[r].epoch == s.requests[r].epoch)
    && (forall r: nat, token :: ResolvedTo(s, r, token) ==> ResolvedTo(t, r, token))
    && (forall r: nat :: r < |s.requests| && !s.requests[r].phase.Sent? ==>
          !t.requests[r].phase.Sent? && t.requests[r].phase.outcome == s.requests[r].phase.outcome)
  }

  lemma StepExtends(s: State, e: Event)
    ensures Extends(s, After(s, e))
  {
  }

  /** What an event does to the requests not yet finished. */
  lemma StepUnfinished(s: State, e: Event, r: nat)
    ensures var t := After(s, e);
            && (r < |s.requests| ==> r < |t.requests| && t.requests[r].epoch == s.requests[r].epoch)
            && (Unfinished(t, r) ==> Unfinished(s, r) || (r == |s.requests| && s.inflight.None? && t.inflight == Some(r)))
            && (Unfinished(s, r) && !Unfinished(t, r) ==> e == Finish(r))
  {
    hide OutcomeOf, IsExpiring;
  }

  lemma StepOnePerEpoch(s: State, e: Event)
    requires OnePerEpoch(s)
    ensures OnePerEpoch(After(s, e))
  {
    var t := After(s, e);
    forall r: nat | r < |t.requests|
      ensures t.requests[r].epoch <= t.revokes
      ensures Unfinished(t, r) && t.requests[r].epoch == t.revokes ==> t.inflight == Some(r)
    {
      StepUnfinished(s, e, r);
    }
    hide OutcomeOf, IsExpiring, Unfinished;
    if t.inflight.Some? && t.inflight == s.inflight {
      StepUnfinished(s, e, t.inflight.value);
    }
    forall a: nat, b: nat | Unfinished(t, a) && Unfinished(t, b) && t.requests[a].epoch == t.requests[b].epoch ensures a == b {
      StepUnfinished(s, e, a);
      StepUnfinished(s, e, b);
    }
  }

  lemma StepSound(s: State, e: Event)
    requires Sound(s)
    ensures Sound(After(s, e))
  {
    StepOnePerEpoch(s, e);
    WriterResolved(s, e);
    hide OutcomeOf, ResolvedTo, Served, OnePerEpoch;
    var t := After(s, e);
    forall c: nat | c < |t.callers| ensures Served(t, t.callers[c]) {
      CallerServed(s, e, c);
    }
  }

  lemma CallerServed(s: State, e: Event, c: nat)
    requires Sound(s) && c < |After(s, e).callers|
    ensures Served(After(s, e), After(s, e).callers[c])
  {
    hide OutcomeOf, ResolvedTo;
    var t := After(s, e);
    StepExtends(s, e);
    if c < |s.callers| {
      assert Served(s, s.callers[c]);
    } else if t.callers[c].FromCache? {
      assert ResolvedTo(t, s.writer.value, t.callers[c].token);
    }
  }

  lemma WriterResolved(s: State, e: Event)
    requires Sound(s)
    ensures var t := After(s, e);
            (t.cache.Some? <==> t.writer.Some?) && (t.cache.Some? ==> ResolvedTo(t, t.writer.value, t.cache.value))
  {
    hide OutcomeOf, OnePerEpoch, Served;
    StepExtends(s, e);
  }

  lemma {:induction false} RunSound(s: State, events: seq<Event>)
    requires Sound(s)
    ensures Sound(Run(s, events)) && Extends(s, Run(s, events))
  {
    if events != [] {
      hide Sound, After;
      var mid := Run(s, events[..|events|-1]);
      RunSound(s, events[..|events|-1]);
      StepSound(mid, events[|events|-1]);
      StepExtends(mid, events[|events|-1]);
    }
  }

  // ----- single flight -----

  function UnfinishedBefore(s: State, epoch: nat): set<nat> {
    set r: nat | r < |s.requests| && Unfinished(s, r) && s.requests[r].epoch < epoch
  }

  lemma {:induction false} AtMostOneEach(s: State, epoch: nat)
    requires OnePerEpoch(s)
    ensures |UnfinishedBefore(s, epoch)| <= epoch
  {
    hide Unfinished;
    if epoch == 0 {
      assert UnfinishedBefore(s, 0) == {};
    } else {
      AtMostOneEach(s, epoch - 1);
      var fewer, all := UnfinishedBefore(s, epoch - 1), UnfinishedBefore(s, epoch);
      if r: nat :| r in all && r !in fewer {
        assert all == fewer + {r};
      } else {
        assert all == fewer;
      }
    }
  }

  /** Over every interleaving, no two unfinished requests were sent between the same two
      revocations, so there are at most one more of them than revocations. */
  lemma SingleFlight(events: seq<Event>)
    ensures var s := Run(START, events);
            && (forall a: nat, b: nat :: Unfinished(s, a) && Unfinished(s, b) && s.requests[a].epoch == s.requests[b].epoch ==> a == b)
            && |set r: nat | r < |s.requests| && Unfinished(s, r)| <= 1 + s.revokes
  {
    var s := Run(START, events);
    RunSound(START, events);
    AtMostOneEach(s, s.revokes + 1);
    assert (set r: nat | r < |s.requests| && Unfinished(s, r)) == UnfinishedBefore(s, s.revokes + 1);
  }

  /** Only a revocation or its own completion ends the shared request: a late completion of an
      older one never clears a newer one. */
  lemma {:induction false} NewerRequestStays(s: State, events: seq<Event>)
    requires s.inflight.Some? && forall k :: 0 <= k < |events| ==> events[k] != Revoke && events[k] != Finish(s.inflight.value)
    ensures Run(s, events).inflight == s.inflight
  {
    if events != [] {
      var init := events[..|events|-1];
      assert forall k :: 0 <= k < |init| ==> init[k] == events[k];
      NewerRequestStays(s, init);
    }
  }

  /** The outcome a caller receives, once there is one. */
  function Received(s: State, c: Caller): Option<Outcome> {
    match c
    case FromCache(token, _) => Some(Resolved(token))
    case Waiting(r) => if r < |s.requests| && !s.requests[r].phase.Sent? then Some(s.requests[r].phase.outcome) else None
  }

  /** What a caller received it keeps, and everyone who joined the same request receives it too;
      a cached token was issued by the server and had more than the margin left when handed out. */
  lemma CallersShareOutcomes(before: seq<Event>, later: seq<Event>, a: nat, b: nat)
    requires a < |Run(START, before).callers| && b < |Run(START, before).callers|
    ensures var s, t := Run(START, before), Run(Run(START, before), later);
            && a < |t.callers| && b < |t.callers| && t.callers[b] == s.callers[b]
            && (Received(s, s.callers[a]).Some? ==> Received(t, t.callers[a]) == Received(s, s.callers[a]))
            && (s.callers[a].Waiting? && s.callers[a] == s.callers[b] ==> Received(t, t.callers[a]) == Received(t, t.callers[b]))
            && Served(s, s.callers[a])
  {
    hide After, Run;
    RunSound(START, before);
    RunSound(Run(START, before), later);
  }

  // ----- what a call is given -----

  /** A call is served from the cache exactly when it does not force a refresh and the cached token
      has more than five minutes left; else it waits for the shared request, or sends one if there is none. */
  lemma GetMeans(s: State, force: bool, now: real)
    ensures var t := After(s, Get(force, now));
            var cached := !force && s.cache.Some? && now + 300000.0 < s.cache.value.expiresAt;
            && t == s.(callers := t.callers, requests := t.requests, inflight := t.inflight)
            && |t.callers| == |s.callers| + 1 && t.callers[..|s.callers|] == s.callers
            && (match t.callers[|s.callers|]
                case FromCache(token, time) => cached && s.cache == Some(token) && time == now
                case Waiting(r) => !cached && t.inflight == Some(r))
            && (if cached || s.inflight.Some? then t.requests == s.requests && t.inflight == s.inflight
                else t.requests == s.requests + [Request(s.revokes, Sent)] && t.inflight == Some(|s.requests|))
  {
  }

  /** An answer that issues a token of some lifetime, ten minutes if it names none, serves the calls
      that do not force a refresh until five minutes before the token's end, and no later ones. */
  lemma ServedIffFresh(s: State, r: nat, token: string, expiry: Expiry, at: real, force: bool, now: real)
    requires IsSent(s, r) && !expiry.Invalid?
    ensures var lifetime := if expiry.Absent? then 600.0 else expiry.seconds;
            var t := After(After(s, Settle(r, Issued(token, expiry), at)), Get(force, now));
            var caller := t.callers[|t.callers|-1];
            && (caller.FromCache? <==> !force && now < at + 1000.0 * lifetime - 300000.0)
            && (caller.FromCache? ==> caller.token.value == token)
  {
    var settled := After(s, Settle(r, Issued(token, expiry), at));
    assert settled.cache.Some? && settled.cache.value.value == token;
    GetMeans(settled, force, now);
  }

  /** A failed answer, one without a token and one with an unusable lifetime reject every caller that
      joined the request, and leave the cache as it is. */
  lemma BadAnswerRejects(s: State, r: nat, answer: Answer, now: real, c: Caller)
    requires IsSent(s, r) && c == Waiting(r)
    ensures var t := After(s, Settle(r, answer, now));
            if answer.Issued? && !answer.expiry.Invalid? then t.cache.Some? && Received(t, c) == Some(Resolved(t.cache.value))
            else Received(t, c) == Some(Rejected) && t.cache == s.cache && t.writer == s.writer
  {
  }

  // ----- what a revocation guarantees -----

  /** Whatever is cached was requested after the given number of revocations. */
  predicate CachedSince(s: State, epoch: nat) {
    s.cache.Some? ==> s.writer.Some? && s.writer.value < |s.requests| && s.requests[s.writer.value].epoch >= epoch
  }

  ghost predicate QuietSince(s: State, epoch: nat) {
    forall r: nat :: IsSent(s, r) ==> s.requests[r].epoch >= epoch
  }

  lemma {:induction false} CachedSinceStays(s: State, epoch: nat, events: seq<Event>)
    requires epoch <= s.revokes && CachedSince(s, epoch) && QuietSince(s, epoch)
    ensures var t := Run(s, events); epoch <= t.revokes && CachedSince(t, epoch) && QuietSince(t, epoch)
  {
    if events != [] {
      hide Sound, OutcomeOf, IsExpiring;
      CachedSinceStays(s, epoch, events[..|events|-1]);
    }
  }

  /** A revocation sticks, in that no token requested before it is ever cached after it, exactly
      when no request is awaiting its answer at that moment. */
  lemma RevocationSticksIffQuiet(s: State)
    requires Sound(s)
    ensures (forall later: seq<Event> :: CachedSince(Run(After(s, Revoke), later), s.revokes + 1))
            <==> forall r: nat :: !IsSent(s, r)
  {
    var t := After(s, Revoke);
    if forall r: nat :: !IsSent(s, r) {
      forall r: nat ensures !IsSent(t, r) {
        assert !IsSent(s, r);
      }
      forall later: seq<Event> ensures CachedSince(Run(t, later), s.revokes + 1) {
        CachedSinceStays(t, s.revokes + 1, later);
      }
    }
    if r: nat :| IsSent(s, r) {
      var late := Settle(r, Issued("old", Absent), 0.0);
      assert Run(t, []) == t && [late][..0] == [];
      assert Run(t, [late]) == After(t, late);
      assert !CachedSince(Run(t, [late]), s.revokes + 1);
    }
  }

  /** From the start: a call sends a request, the token is revoked, and the late answer puts the
      token requested before the revocation back into the cache, where the next call is served it. */
  lemma RevokedTokenReturns(now: real)
    ensures var s := Run(START, [Get(false, now), Revoke, Settle(0, Issued("old", Absent), now)]);
            && s.cache == Some(Token("old", now + 600000.0)) && s.revokes == 1
            && s.writer == Some(0) && |s.requests| == 1 && s.requests[0].epoch == 0
            && After(s, Get(false, now)).callers == s.callers + [FromCache(s.cache.value, now)]
  {
    var get, settle := Get(false, now), Settle(0, Issued("old", Absent), now);
    assert [get, Revoke, settle][..2] == [get, Revoke] && [get, Revoke][..1] == [get] && [get][..0] == [];
    assert Run(START, []) == START;
    var sent := Run(START, [get]);
    assert sent == After(START, get);
    assert Run(START, [get, Revoke]) == After(sent, Revoke);
    assert Run(START, [get, Revoke, settle]) == After(After(sent, Revoke), settle);
  }

  // ----- the module's own fields -----

  datatype Reply = NotConfigured | Serve(token: string) | Await(request: nat)

  /** The module's cache and in-flight promise, named by the number of its request; `world` is the
      system around them. */
  class TokenCache {
    var cache: Option<Token>
    var inflight: Option<nat>
    ghost var world: State

    ghost predicate Valid()
      reads this
    {
      Sound(world) && cache == world.cache && inflight == world.inflight
    }

    constructor ()
      ensures Valid() && world == START
    {
      cache, inflight, world := None, None, START;
    }

    /** The part of a call before its first await; `number` names the request it may send. */
    method GetAccessToken(configured: bool, force: bool, now: real, number: nat) returns (r: Reply)
      requires Valid() && number == |world.requests|
      modifies this
      ensures Valid() && world == if configured then After(old(world), Get(force, now)) else old(world)
      ensures match r
              case NotConfigured => !configured
              case Serve(token) => configured && world.callers[|world.callers|-1].FromCache?
                                   && world.callers[|world.callers|-1].token.value == token
              case Await(p) => configured && world.callers[|world.callers|-1] == Waiting(p)
    {
      if !configured {
        return NotConfigured;
      }
      StepSound(world, Get(force, now));
      world := After(world, Get(force, now));
      if !force && cache.Some? && !IsExpiring(cache.value.expiresAt, now) {
        return Serve(cache.value.value);
      }
      if inflight.Some? {
        return Await(inflight.value);
      }
      inflight := Some(number);
      r := Await(number);
    }

    /** The request's answer has come: parse it and fill the cache, or reject. */
    method IssueToken(request: nat, answer: Answer, now: real) returns (r: Outcome)
      requires Valid() && IsSent(world, request)
      modifies this
      ensures Valid() && world == After(old(world), Settle(request, answer, now))
      ensures world.requests[request].phase == Settled(r)
    {
      StepSound(world, Settle(request, answer, now));
      world := After(world, Settle(request, answer, now));
      if !answer.Issued? || answer.expiry.Invalid? {
        return Rejected;
      }
      var ttl := if answer.expiry.Absent? then DEFAULT_TTL_SEC else answer.expiry.seconds;
      cache := Some(Token(answer.token, now + ttl * 1000.0));
      r := Resolved(cache.value);
    }

    /** The sender resumes: it clears the in-flight promise only if it is still its own. */
    method FinishCall(request: nat)
      requires Valid() && IsSettled(world, request)
      modifies this
      ensures Valid() && world == After(old(world), Finish(request))
    {
      StepSound(world, Finish(request));
      world := After(world, Finish(request));
      if inflight == Some(request) {
        inflight := None;
      }
    }

    /** The part of a revocation before its request to the server; the token to revoke, if any. */
    method RevokeToken(configured: bool) returns (cached: Option<Token>)
      requires Valid()
      modifies this
      ensures Valid() && world == if configured then After(old(world), Revoke) else old(world)
      ensures cached == if configured then old(cache) else None
    {
      if !configured {
        return None;
      }
      StepSound(world, Revoke);
      world := After(world, Revoke);
      cached := cache;
      cache, inflight := None, None;
    }
  }
}
