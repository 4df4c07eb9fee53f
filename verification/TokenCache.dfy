/** The cache of service account tokens. Times are in nanoseconds, as Go's durations are. */
module TokenCache {
  import opened Wrappers
  import Int64

  const SECOND: int := 1_000_000_000
  const MAX_TTL: int := 24 * 3600 * SECOND

  /** The object, usually a pod, that a token is bound to. */
  datatype Ref = Ref(kind: string, apiVersion: string, name: string, uid: string)

  datatype Request = Request(audiences: seq<string>, expirationSeconds: Option<int>, boundObject: Option<Ref>)

  /** A token request with its answer; the API server may choose another lifetime than was asked for. */
  datatype Token = Token(boundObject: Option<Ref>, expirationSeconds: Option<int>, expiration: int, secret: string)

  datatype Key = Key(name: string, namespace: string, audiences: seq<string>, seconds: int, ref: Ref)

  type Cache = map<Key, Token>

  function KeyFunc(name: string, namespace: string, r: Request): Key {
    Key(name, namespace, r.audiences,
        if r.expirationSeconds.Some? then r.expirationSeconds.value else 0,
        if r.boundObject.Some? then r.boundObject.value else Ref("", "", "", ""))
  }

  predicate Expired(t: Token, now: int) {
    now > t.expiration
  }

  /** Go's `time.Duration(n) * time.Second` for a negated n. */
  function MinusSeconds(n: int): int {
    Int64.Wrap(Int64.Wrap(-n) * SECOND)
  }

  /** 20% of the lifetime, in seconds. */
  function Fifth(seconds: int): int {
    Int64.Quotient(Int64.Wrap(seconds * 20), 100)
  }

  /** `jitter` is the random part, in whole seconds from 0 to 9. */
  predicate RequiresRefresh(t: Token, now: int, jitter: int) {
    && t.expirationSeconds.Some?
    && var issued := t.expiration + MinusSeconds(t.expirationSeconds.value);
       || now > issued + (MAX_TTL - jitter * SECOND)
       || now > t.expiration + Int64.Wrap(MinusSeconds(Fifth(t.expirationSeconds.value)) - jitter * SECOND)
  }

  /** What a call returns, and the clock reading that the answer rests on. */
  datatype Outcome =
    | Served(token: Token, at: int)
    | Fetched(token: Token, at: int)
    | Kept(token: Token, at: int)
    | Failed

  /** What a call meets: clock readings before and after the fetch, the jitter, and what the API server answers. */
  datatype Inputs = Inputs(now: int, jitter: int, fetched: Option<Token>, later: int)

  function Answer(cached: Option<Token>, i: Inputs): Outcome {
    if cached.Some? && !RequiresRefresh(cached.value, i.now, i.jitter) then Served(cached.value, i.now)
    else if i.fetched.Some? then Fetched(i.fetched.value, i.later)
    else if cached.None? || Expired(cached.value, i.later) then Failed
    else Kept(cached.value, i.later)
  }

  function Lookup(cache: Cache, k: Key): Option<Token> {
    if k in cache then Some(cache[k]) else None
  }

  function Stored(cache: Cache, k: Key, o: Outcome): Cache {
    if o.Fetched? then cache[k := o.token] else cache
  }

  predicate BoundTo(t: Token, uid: string) {
    t.boundObject.Some? && t.boundObject.value.uid == uid
  }

  class Manager {
    var cache: Cache

    method GetServiceAccountToken(namespace: string, name: string, r: Request, i: Inputs) returns (o: Outcome)
      modifies this
      ensures o == Answer(Lookup(old(cache), KeyFunc(name, namespace, r)), i)
      ensures cache == Stored(old(cache), KeyFunc(name, namespace, r), o)
      ensures var key := KeyFunc(name, namespace, r);
              if key in old(cache) && !RequiresRefresh(old(cache)[key], i.now, i.jitter)
              then o == Served(old(cache)[key], i.now) && cache == old(cache)
              else if i.fetched.Some?
              then o == Fetched(i.fetched.value, i.later) && cache == old(cache)[key := i.fetched.value]
              else && cache == old(cache)
                   && (if key in old(cache) && i.later <= old(cache)[key].expiration
                       then o == Kept(old(cache)[key], i.later) else o == Failed)
    {
      var key := KeyFunc(name, namespace, r);
      var ok := key in cache;
      if ok && !RequiresRefresh(cache[key], i.now, i.jitter) {
        return Served(cache[key], i.now);
      }
      if i.fetched.None? {
        if !ok {
          return Failed;
        }
        if Expired(cache[key], i.later) {
          return Failed;
        }
        return Kept(cache[key], i.later);
      }
      cache := cache[key := i.fetched.value];
      return Fetched(i.fetched.value, i.later);
    }

    /** Dereferencing the bound object of a token without one panics; the entries seen before are gone by then. */
    method DeleteServiceAccountToken(podUID: string) returns (panicked: bool)
      modifies this
      ensures panicked <==> exists k :: k in old(cache) && old(cache)[k].boundObject.None?
      ensures !panicked ==> forall k :: k in cache <==> k in old(cache) && old(cache)[k].boundObject.value.uid != podUID
      ensures forall k :: k in old(cache) && !BoundTo(old(cache)[k], podUID) ==> k in cache
      ensures forall k :: k in cache ==> k in old(cache) && cache[k] == old(cache)[k]
    {
      var todo := cache.Keys;
      while todo != {}
        invariant todo <= old(cache).Keys
        invariant forall k :: k in old(cache) && k !in todo ==> old(cache)[k].boundObject.Some?
        invariant forall k :: k in cache <==> k in old(cache) && (k in todo || !BoundTo(old(cache)[k], podUID))
        invariant forall k :: k in cache ==> cache[k] == old(cache)[k]
        decreases todo
      {
        var k :| k in todo;
        if cache[k].boundObject.None? {
          return true;
        }
        if cache[k].boundObject.value.uid == podUID {
          cache := cache - {k};
        }
        todo := todo - {k};
      }
      return false;
    }

    /** The clock is read once for every entry. */
    method Cleanup(clock: Key -> int)
      modifies this
      ensures forall k :: k in cache <==> k in old(cache) && clock(k) <= old(cache)[k].expiration
      ensures forall k :: k in cache ==> cache[k] == old(cache)[k]
    {
      var todo := cache.Keys;
      while todo != {}
        invariant todo <= old(cache).Keys
        invariant forall k :: k in cache <==> k in old(cache) && (k in todo || !Expired(old(cache)[k], clock(k)))
        invariant forall k :: k in cache ==> cache[k] == old(cache)[k]
        decreases todo
      {
        var k :| k in todo;
        if Expired(cache[k], clock(k)) {
          cache := cache - {k};
        }
        todo := todo - {k};
      }
    }
  }

  /**
   Two requests share a token exactly if they agree in everything they ask for; no lifetime counts as 0 and no object
   as an empty one.
   */
  lemma KeysDistinguishRequests(name: string, namespace: string, r: Request,
                                name': string, namespace': string, r': Request)
    ensures KeyFunc(name, namespace, r) == KeyFunc(name', namespace', r') <==>
            && name == name' && namespace == namespace' && r.audiences == r'.audiences
            && (match r.expirationSeconds case None => 0 case Some(n) => n) ==
               (match r'.expirationSeconds case None => 0 case Some(n) => n)
            && (match r.boundObject case None => Ref("", "", "", "") case Some(o) => o) ==
               (match r'.boundObject case None => Ref("", "", "", "") case Some(o) => o)
  {
  }

  // ---------- Freshness of one token ----------

  const MAX_SECONDS: int := 0x1_0000_0000

  predicate Reasonable(seconds: int) {
    0 <= seconds <= MAX_SECONDS
  }

  lemma NoOverflow(seconds: int)
    requires Reasonable(seconds)
    ensures MinusSeconds(seconds) == -seconds * SECOND
    ensures Fifth(seconds) == seconds * 20 / 100 && Reasonable(Fifth(seconds))
  {
  }

  /**
   Go's condition without machine arithmetic: at most 24 hours old and a fifth of the lifetime left, both less the
   jitter.
   */
  lemma RefreshExactly(t: Token, now: int, jitter: int)
    requires t.expirationSeconds.Some? && Reasonable(t.expirationSeconds.value) && 0 <= jitter <= 9
    ensures RequiresRefresh(t, now, jitter) <==>
            || now - (t.expiration - t.expirationSeconds.value * 1_000_000_000) >
               86_400_000_000_000 - jitter * 1_000_000_000
            || t.expiration - now < (t.expirationSeconds.value * 20 / 100 + jitter) * 1_000_000_000
  {
    NoOverflow(t.expirationSeconds.value);
    NoOverflow(Fifth(t.expirationSeconds.value));
  }

  /** A token served without a refresh has a fifth of its lifetime left and is at most 24 hours old. */
  lemma ServedIsFresh(t: Token, now: int, jitter: int)
    requires t.expirationSeconds.Some? && Reasonable(t.expirationSeconds.value) && 0 <= jitter <= 9
    requires !RequiresRefresh(t, now, jitter)
    ensures t.expiration - now >= (t.expirationSeconds.value * 20 / 100) * SECOND
    ensures now - (t.expiration - t.expirationSeconds.value * SECOND) <= MAX_TTL
    ensures !Expired(t, now)
  {
    RefreshExactly(t, now, jitter);
  }

  /** The check protects against expired tokens exactly if the token says how long it lives. */
  lemma NeverServedExpiredIff(t: Token)
    requires t.expirationSeconds.Some? ==> Reasonable(t.expirationSeconds.value)
    ensures (forall now, jitter :: 0 <= jitter <= 9 && !RequiresRefresh(t, now, jitter) ==> !Expired(t, now)) <==>
            t.expirationSeconds.Some?
  {
    if t.expirationSeconds.Some? {
      forall now, jitter | 0 <= jitter <= 9 && !RequiresRefresh(t, now, jitter) ensures !Expired(t, now) {
        ServedIsFresh(t, now, jitter);
      }
    } else {
      assert !RequiresRefresh(t, t.expiration + 1, 0) && Expired(t, t.expiration + 1);
    }
  }

  // ---------- Runs with concurrent callers ----------

  datatype Call = Call(key: Key, cached: Option<Token>)

  datatype State = State(cache: Cache, calls: map<int, Call>, returned: seq<Outcome>)

  /** The lock is held only while the cache is read or written, so calls overlap with each other and with the rest. */
  datatype Action =
    | Begin(call: int, key: Key)
    | Finish(call: int, inputs: Inputs)
    | DeletePod(uid: string)
    | CleanUp(clock: Key -> int)

  function Step(s: State, a: Action): State {
    match a
    case Begin(c, k) => s.(calls := s.calls[c := Call(k, Lookup(s.cache, k))])
    case Finish(c, i) =>
      if c !in s.calls then s
      else
        var o := Answer(s.calls[c].cached, i);
        State(Stored(s.cache, s.calls[c].key, o), s.calls - {c}, s.returned + [o])
    case DeletePod(uid) => s.(cache := map k | k in s.cache && !BoundTo(s.cache[k], uid) :: s.cache[k])
    case CleanUp(clock) => s.(cache := map k | k in s.cache && !Expired(s.cache[k], clock(k)) :: s.cache[k])
  }

  function Run(s: State, actions: seq<Action>): State {
    if actions == [] then s else Step(Run(s, actions[..|actions| - 1]), actions[|actions| - 1])
  }

  const START := State(map[], map[], [])

  /** A token with a sensible lifetime. */
  predicate Timed(t: Token) {
    t.expirationSeconds.Some? && Reasonable(t.expirationSeconds.value)
  }

  /** What the API server promises about the tokens it issues, and the random source about the jitter. */
  predicate Proper(a: Action) {
    a.Finish? ==>
      && 0 <= a.inputs.jitter <= 9
      && (a.inputs.fetched.Some? ==> Timed(a.inputs.fetched.value) && !Expired(a.inputs.fetched.value, a.inputs.later))
  }

  predicate Good(o: Outcome) {
    o.Failed? || !Expired(o.token, o.at)
  }

  predicate GoodService(o: Outcome) {
    o.Served? ==>
      && o.token.expirationSeconds.Some?
      && o.token.expiration - o.at >= (o.token.expirationSeconds.value * 20 / 100) * SECOND
      && o.at - (o.token.expiration - o.token.expirationSeconds.value * SECOND) <= MAX_TTL
  }

  ghost predicate Inv(s: State) {
    && (forall k :: k in s.cache ==> Timed(s.cache[k]))
    && (forall c :: c in s.calls && s.calls[c].cached.Some? ==> Timed(s.calls[c].cached.value))
    && (forall o :: o in s.returned ==> Good(o) && GoodService(o))
  }

  lemma AnswerIsGood(cached: Option<Token>, i: Inputs, c: int)
    requires Proper(Finish(c, i)) && (cached.Some? ==> Timed(cached.value))
    ensures var o := Answer(cached, i); Good(o) && GoodService(o) && (o.Fetched? ==> Timed(o.token))
  {
    if cached.Some? && !RequiresRefresh(cached.value, i.now, i.jitter) {
      ServedIsFresh(cached.value, i.now, i.jitter);
    }
  }

  lemma StepKeepsInv(s: State, a: Action)
    requires Inv(s) && Proper(a)
    ensures Inv(Step(s, a))
  {
    if a.Finish? && a.call in s.calls {
      AnswerIsGood(s.calls[a.call].cached, a.inputs, a.call);
    }
  }

  /** In every interleaving every token that is returned is unexpired when its caller last looked at the clock. */
  lemma {:induction false} ReturnedTokensAreFresh(actions: seq<Action>)
    requires forall a :: a in actions ==> Proper(a)
    ensures Inv(Run(START, actions))
    ensures forall o :: o in Run(START, actions).returned ==> Good(o) && GoodService(o)
  {
    if actions != [] {
      var n := |actions| - 1;
      assert actions[n] in actions;
      ReturnedTokensAreFresh(actions[..n]);
      StepKeepsInv(Run(START, actions[..n]), actions[n]);
    }
  }

  /**
   The deletion of a pod leaves no token of the pod behind, but a call that is under way can put one back:
   what comes afterwards keeps the cache free of the pod's tokens as long as no fetch returns another one.
   */
  lemma {:induction false} DeletedPodStaysOut(s: State, uid: string, actions: seq<Action>)
    requires forall a :: a in actions && a.Finish? && a.inputs.fetched.Some? ==> !BoundTo(a.inputs.fetched.value, uid)
    ensures forall k :: k in Run(Step(s, DeletePod(uid)), actions).cache ==>
            !BoundTo(Run(Step(s, DeletePod(uid)), actions).cache[k], uid)
  {
    if actions != [] {
      var n := |actions| - 1;
      assert actions[n] in actions;
      DeletedPodStaysOut(s, uid, actions[..n]);
    }
  }
}
