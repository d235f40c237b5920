/**
 The cache of an identity provider's signing keys: keys are fetched again when they
 are too old, and at once for an unknown key, but then not more often than a cooldown.
 */
module KeyCache {
  import opened Prelude

  datatype Settings = Settings(ttl: real, cooldown: real)

  datatype AuthError = ProviderFailed | NoKeys | NoKeyId | UnknownKey

  /** What the provider answers when it is asked: keys by identifier, or an error. */
  type Document = Option<map<string, string>>

  datatype Cache = Cache(keys: map<string, string>, fetchedAt: real, lastAttemptAt: real)

  const EMPTY := Cache(map[], 0.0, 0.0)

  /** One request for the keys: forced or not, at what time, and what a fetch would bring. */
  datatype Request = Request(force: bool, now: real, document: Document)
  {
    predicate Brings() {
      document.Some? && document.value != map[]
    }
  }

  predicate IsFresh(settings: Settings, cache: Cache, now: real) {
    cache.keys != map[] && now - cache.fetchedAt < settings.ttl
  }

  /** Whether the provider is asked: not for fresh keys, and a forced request not within the cooldown. */
  predicate Fetches(settings: Settings, cache: Cache, request: Request) {
    if request.force then request.now - cache.lastAttemptAt >= settings.cooldown
    else !IsFresh(settings, cache, request.now)
  }

  function AfterRequest(settings: Settings, cache: Cache, request: Request): Cache {
    if !Fetches(settings, cache, request) then cache
    else if request.Brings() then Cache(request.document.value, request.now, request.now)
    else cache.(lastAttemptAt := request.now)
  }

  function ResultOf(settings: Settings, cache: Cache, request: Request): Result<map<string, string>, AuthError> {
    if !Fetches(settings, cache, request) then Ok(cache.keys)
    else
      match request.document
      case None => Error(ProviderFailed)
      case Some(keys) => if keys == map[] then Error(NoKeys) else Ok(keys)
  }

  /** A token's key is looked up in the cached keys, and once more in keys asked for by force. */
  function Lookups(
    settings: Settings, cache: Cache, keyId: Option<string>, first: Request, second: Request)
    : (Result<string, AuthError>, seq<Request>)
  {
    if keyId.None? then (Error(NoKeyId), [])
    else
      match ResultOf(settings, cache, first)
      case Error(error) => (Error(error), [first])
      case Ok(cached) =>
        if keyId.value in cached then (Ok(cached[keyId.value]), [first])
        else
          match ResultOf(settings, AfterRequest(settings, cache, first), second)
          case Error(error) => (Error(error), [first, second])
          case Ok(refreshed) =>
            if keyId.value in refreshed then (Ok(refreshed[keyId.value]), [first, second])
            else (Error(UnknownKey), [first, second])
  }

  class OidcIdentityVerifier {
    const settings: Settings
    var keys: map<string, string>
    var fetchedAt: real
    var lastAttemptAt: real

    function Contents(): Cache
      reads this
    {
      Cache(keys, fetchedAt, lastAttemptAt)
    }

    constructor (settings: Settings)
      ensures this.settings == settings && Contents() == EMPTY
    {
      this.settings := settings;
      keys, fetchedAt, lastAttemptAt := map[], 0.0, 0.0;
    }

    /** `document` is what the provider would answer; it is asked exactly when `fetched`. */
    method Keys(force: bool, now: real, document: Document)
      returns (result: Result<map<string, string>, AuthError>, fetched: bool)
      modifies this
      ensures var request := Request(force, now, document);
        && result == ResultOf(settings, old(Contents()), request)
        && fetched == Fetches(settings, old(Contents()), request)
        && Contents() == AfterRequest(settings, old(Contents()), request)
    {
      var isFresh := keys != map[] && now - fetchedAt < settings.ttl;
      if isFresh && !force {
        return Ok(keys), false;
      }
      if force && now - lastAttemptAt < settings.cooldown {
        return Ok(keys), false;
      }
      lastAttemptAt := now;
      fetched := true;
      if document.None? {
        return Error(ProviderFailed), true;
      }
      if document.value == map[] {
        return Error(NoKeys), true;
      }
      keys := document.value;
      fetchedAt := now;
      result := Ok(keys);
    }

    method ResolveKey(keyId: Option<string>, now: real, document: Document, later: real, another: Document)
      returns (result: Result<string, AuthError>, ghost requests: seq<Request>)
      modifies this
      ensures (result, requests)
           == Lookups(settings, old(Contents()), keyId, Request(false, now, document), Request(true, later, another))
      ensures Contents() == AfterAll(settings, old(Contents()), requests)
    {
      requests := [];
      if keyId.None? {
        return Error(NoKeyId), requests;
      }
      var cached, _ := Keys(false, now, document);
      requests := [Request(false, now, document)];
      AfterOneAndTwo(settings, old(Contents()), Request(false, now, document), Request(true, later, another));
      if cached.Error? {
        return Error(cached.error), requests;
      }
      if keyId.value in cached.value {
        return Ok(cached.value[keyId.value]), requests;
      }
      var refreshed, _ := Keys(true, later, another);
      requests := requests + [Request(true, later, another)];
      assert requests == [Request(false, now, document), Request(true, later, another)];
      if refreshed.Error? {
        return Error(refreshed.error), requests;
      }
      result := if keyId.value in refreshed.value then Ok(refreshed.value[keyId.value]) else Error(UnknownKey);
    }
  }

  // ---- runs -----------------------------------------------------------------------------------

  function AfterAll(settings: Settings, cache: Cache, requests: seq<Request>): Cache {
    if requests == [] then cache
    else AfterRequest(settings, AfterAll(settings, cache, Init(requests)), Last(requests))
  }

  lemma AfterOneAndTwo(settings: Settings, cache: Cache, first: Request, second: Request)
    ensures AfterAll(settings, cache, [first]) == AfterRequest(settings, cache, first)
    ensures AfterAll(settings, cache, [first] + [second])
         == AfterRequest(settings, AfterRequest(settings, cache, first), second)
  {
    assert Init([first]) == [] && Init([first] + [second]) == [first];
  }

  /** The `n`-th request of a run from an empty cache asked the provider. */
  predicate IsAttempt(settings: Settings, requests: seq<Request>, n: nat)
    requires n < |requests|
  {
    Fetches(settings, AfterAll(settings, EMPTY, requests[..n]), requests[n])
  }

  ghost predicate NeverGoesBack(requests: seq<Request>) {
    forall i, j :: 0 <= i <= j < |requests| ==> requests[i].now <= requests[j].now
  }

  lemma StepOfRun(settings: Settings, requests: seq<Request>, n: nat)
    requires n < |requests|
    ensures AfterAll(settings, EMPTY, requests[..n + 1])
         == AfterRequest(settings, AfterAll(settings, EMPTY, requests[..n]), requests[n])
  {
    assert Init(requests[..n + 1]) == requests[..n];
  }

  /** What a successful fetch leaves in the cache for good. */
  lemma {:induction false} SuccessIsRemembered(settings: Settings, requests: seq<Request>, i: nat, n: nat)
    requires NeverGoesBack(requests) && i < n <= |requests|
    requires IsAttempt(settings, requests, i)
    ensures var cache := AfterAll(settings, EMPTY, requests[..n]);
      && requests[i].now <= cache.lastAttemptAt
      && (requests[i].Brings() ==> cache.keys != map[] && requests[i].now <= cache.fetchedAt)
  {
    StepOfRun(settings, requests, n - 1);
    if n > i + 1 {
      SuccessIsRemembered(settings, requests, i, n - 1);
      assert requests[i].now <= requests[n - 1].now;
    }
  }

  /**
   Over any run, an attempt that brought keys is followed by the next one not before
   the cooldown or the lifetime of the keys has passed, whichever is shorter.
   */
  lemma AttemptsAreSpaced(settings: Settings, requests: seq<Request>, i: nat, j: nat)
    requires NeverGoesBack(requests) && i < j < |requests|
    requires IsAttempt(settings, requests, i) && IsAttempt(settings, requests, j) && requests[i].Brings()
    ensures requests[j].now - requests[i].now
         >= if settings.ttl < settings.cooldown then settings.ttl else settings.cooldown
  {
    SuccessIsRemembered(settings, requests, i, j);
  }

  /** None of the requests strictly between the two asked the provider. */
  ghost predicate NoneBetween(settings: Settings, requests: seq<Request>, i: nat, j: nat)
    requires j <= |requests|
  {
    forall k :: i < k < j ==> !IsAttempt(settings, requests, k)
  }

  lemma {:induction false} CacheIsKept(settings: Settings, requests: seq<Request>, i: nat, j: nat)
    requires i < j <= |requests| && NoneBetween(settings, requests, i, j)
    ensures AfterAll(settings, EMPTY, requests[..j]) == AfterAll(settings, EMPTY, requests[..i + 1])
  {
    if j > i + 1 {
      CacheIsKept(settings, requests, i, j - 1);
      StepOfRun(settings, requests, j - 1);
      assert !IsAttempt(settings, requests, j - 1);
    }
  }

  /**
   When the cooldown is not kept. A request that comes within the cooldown after the
   last attempt, whatever became of that one and whatever was turned away since,
   asks the provider if and only if it is not forced and the attempt left no keys
   that are still fresh.
   */
  lemma AttemptsWithinTheCooldown(settings: Settings, requests: seq<Request>, i: nat, j: nat)
    requires i < j < |requests| && IsAttempt(settings, requests, i) && NoneBetween(settings, requests, i, j)
    requires requests[j].now - requests[i].now < settings.cooldown
    ensures IsAttempt(settings, requests, j) <==>
            && !requests[j].force
            && !IsFresh(settings, AfterAll(settings, EMPTY, requests[..i + 1]), requests[j].now)
  {
    CacheIsKept(settings, requests, i, j);
    StepOfRun(settings, requests, i);
    hide AfterAll;
  }

  /** While the provider fails, every ordinary request asks it, however soon after the last. */
  lemma {:induction false} AFailingProviderIsAskedEveryTime(settings: Settings, requests: seq<Request>, n: nat)
    requires n < |requests| && forall i :: 0 <= i < |requests| ==> !requests[i].force && !requests[i].Brings()
    ensures IsAttempt(settings, requests, n) && AfterAll(settings, EMPTY, requests[..n]).keys == map[]
  {
    if n > 0 {
      AFailingProviderIsAskedEveryTime(settings, requests, n - 1);
      StepOfRun(settings, requests, n - 1);
    }
  }

  /** Resolving one key asks the provider twice only if the cooldown passes in between. */
  lemma OneLookupAsksOnce(
    settings: Settings, cache: Cache, keyId: Option<string>, first: Request, second: Request)
    requires !first.force && second.force
    requires |Lookups(settings, cache, keyId, first, second).1| == 2
    requires Fetches(settings, cache, first) && Fetches(settings, AfterRequest(settings, cache, first), second)
    ensures first.Brings() && second.now - first.now >= settings.cooldown
  {
  }

  // ---- what is answered ------------------------------------------------------------------------

  /** The `i`-th request is the last before the `n`-th that asked the provider. */
  ghost predicate IsLastAttempt(settings: Settings, requests: seq<Request>, n: nat, i: nat)
    requires n <= |requests|
  {
    i < n && IsAttempt(settings, requests, i) && forall k :: i < k < n ==> !IsAttempt(settings, requests, k)
  }

  /** The `n`-th request asked the provider and was given keys. */
  predicate Succeeded(settings: Settings, requests: seq<Request>, n: nat)
    requires n < |requests|
  {
    && IsAttempt(settings, requests, n)
    && requests[n].document.Some? && requests[n].document.value != map[]
  }

  ghost predicate IsLastSuccess(settings: Settings, requests: seq<Request>, n: nat, i: nat)
    requires n <= |requests|
  {
    i < n && Succeeded(settings, requests, i) && forall k :: i < k < n ==> !Succeeded(settings, requests, k)
  }

  lemma StepLeaves(settings: Settings, requests: seq<Request>, n: nat)
    requires n < |requests|
    ensures var before, after := AfterAll(settings, EMPTY, requests[..n]), AfterAll(settings, EMPTY, requests[..n + 1]);
      && (if Succeeded(settings, requests, n) then
            after.keys == requests[n].document.value && after.fetchedAt == requests[n].now
          else after.keys == before.keys && after.fetchedAt == before.fetchedAt)
      && after.lastAttemptAt == if IsAttempt(settings, requests, n) then requests[n].now else before.lastAttemptAt
  {
    StepOfRun(settings, requests, n);
    hide AfterAll;
  }

  lemma SuccessesOfOneMore(settings: Settings, requests: seq<Request>, n: nat, i: nat)
    requires n < |requests|
    ensures Succeeded(settings, requests, n) ==> IsLastSuccess(settings, requests, n + 1, n)
    ensures !Succeeded(settings, requests, n) && IsLastSuccess(settings, requests, n, i) ==>
              IsLastSuccess(settings, requests, n + 1, i)
  {
    hide Succeeded;
  }

  lemma AttemptsOfOneMore(settings: Settings, requests: seq<Request>, n: nat, i: nat)
    requires n < |requests|
    ensures IsAttempt(settings, requests, n) ==> IsLastAttempt(settings, requests, n + 1, n)
    ensures !IsAttempt(settings, requests, n) && IsLastAttempt(settings, requests, n, i) ==>
              IsLastAttempt(settings, requests, n + 1, i)
  {
    hide IsAttempt;
  }

  /** None of the first `n` requests was given keys. */
  ghost predicate NoSuccess(settings: Settings, requests: seq<Request>, n: nat)
    requires n <= |requests|
  {
    forall k :: 0 <= k < n ==> !Succeeded(settings, requests, k)
  }

  ghost predicate NoAttempt(settings: Settings, requests: seq<Request>, n: nat)
    requires n <= |requests|
  {
    forall k :: 0 <= k < n ==> !IsAttempt(settings, requests, k)
  }

  /** The cache holds all keys of the last successful fetch and no others, with its time. */
  lemma {:induction false} KeysAreOfTheLastFetch(settings: Settings, requests: seq<Request>, n: nat)
    returns (i: nat)
    requires n <= |requests|
    ensures var cache := AfterAll(settings, EMPTY, requests[..n]);
      if NoSuccess(settings, requests, n) then cache.keys == map[]
      else
        && IsLastSuccess(settings, requests, n, i)
        && cache.keys == requests[i].document.value && cache.fetchedAt == requests[i].now
  {
    i := 0;
    if n > 0 {
      StepLeaves(settings, requests, n - 1);
      hide AfterAll, Succeeded, IsLastSuccess;
      var earlier := KeysAreOfTheLastFetch(settings, requests, n - 1);
      SuccessesOfOneMore(settings, requests, n - 1, earlier);
      i := if Succeeded(settings, requests, n - 1) then n - 1 else earlier;
    }
  }

  lemma {:induction false} TimeIsOfTheLastAttempt(settings: Settings, requests: seq<Request>, n: nat)
    returns (i: nat)
    requires n <= |requests|
    ensures var cache := AfterAll(settings, EMPTY, requests[..n]);
      if NoAttempt(settings, requests, n) then cache.lastAttemptAt == 0.0
      else IsLastAttempt(settings, requests, n, i) && cache.lastAttemptAt == requests[i].now
  {
    i := 0;
    if n > 0 {
      StepLeaves(settings, requests, n - 1);
      hide AfterAll, IsAttempt, IsLastAttempt, Succeeded;
      var earlier := TimeIsOfTheLastAttempt(settings, requests, n - 1);
      AttemptsOfOneMore(settings, requests, n - 1, earlier);
      i := if IsAttempt(settings, requests, n - 1) then n - 1 else earlier;
    }
  }

  lemma LastIsOne(settings: Settings, requests: seq<Request>, n: nat, i: nat, j: nat)
    requires n <= |requests|
    ensures IsLastSuccess(settings, requests, n, i) && IsLastSuccess(settings, requests, n, j) ==> i == j
    ensures IsLastAttempt(settings, requests, n, i) && IsLastAttempt(settings, requests, n, j) ==> i == j
    ensures IsLastSuccess(settings, requests, n, i) ==> !NoSuccess(settings, requests, n)
    ensures IsLastAttempt(settings, requests, n, i) ==> !NoAttempt(settings, requests, n)
  {
    hide Succeeded, IsAttempt;
  }

  lemma AsksWhen(settings: Settings, requests: seq<Request>, n: nat)
    requires n < |requests|
    ensures var cache, request := AfterAll(settings, EMPTY, requests[..n]), requests[n];
      && (!request.force ==>
            (IsAttempt(settings, requests, n) <==> cache.keys == map[] || request.now - cache.fetchedAt >= settings.ttl))
      && (request.force ==>
            (IsAttempt(settings, requests, n) <==> request.now - cache.lastAttemptAt >= settings.cooldown))
  {
    hide AfterAll;
  }

  /**
   When the provider is asked, over any run from an empty cache: an ordinary request asks
   it unless the last fetch that brought keys is younger than the lifetime; a forced one
   unless the last attempt, whatever became of it, is within the cooldown. A forced
   request before any attempt is measured from the start of the clock.
   */
  lemma WhenTheProviderIsAsked(settings: Settings, requests: seq<Request>, n: nat)
    requires n < |requests|
    ensures !requests[n].force && NoSuccess(settings, requests, n) ==> IsAttempt(settings, requests, n)
    ensures forall i: nat :: !requests[n].force && IsLastSuccess(settings, requests, n, i) ==>
                               (IsAttempt(settings, requests, n) <==>
                                requests[n].now - requests[i].now >= settings.ttl)
    ensures forall i: nat :: requests[n].force && IsLastAttempt(settings, requests, n, i) ==>
                               (IsAttempt(settings, requests, n) <==>
                                requests[n].now - requests[i].now >= settings.cooldown)
    ensures requests[n].force && NoAttempt(settings, requests, n) ==>
              (IsAttempt(settings, requests, n) <==> requests[n].now >= settings.cooldown)
  {
    var i := KeysAreOfTheLastFetch(settings, requests, n);
    var asked := TimeIsOfTheLastAttempt(settings, requests, n);
    AsksWhen(settings, requests, n);
    SuccessBringsKeys(settings, requests, n, i);
    hide AfterAll, IsAttempt, IsLastSuccess, IsLastAttempt, NoSuccess, NoAttempt;
    forall k: nat
      ensures IsLastSuccess(settings, requests, n, k) ==> k == i && !NoSuccess(settings, requests, n)
      ensures IsLastAttempt(settings, requests, n, k) ==> k == asked && !NoAttempt(settings, requests, n)
    {
      LastIsOne(settings, requests, n, k, i);
      LastIsOne(settings, requests, n, k, asked);
    }
  }

  lemma SuccessBringsKeys(settings: Settings, requests: seq<Request>, n: nat, i: nat)
    requires n <= |requests|
    ensures IsLastSuccess(settings, requests, n, i) ==>
              i < n && requests[i].document.Some? && requests[i].document.value != map[]
  {
  }

  /**
   What a request is answered with: all keys of the last fetch that brought any, and no
   others; that fetch is the request's own, or, if it is not forced, younger than the
   lifetime. Without any such fetch only a forced request is answered, and with nothing.
   It fails exactly when it asks in vain.
   */
  lemma WhatARequestAnswers(settings: Settings, requests: seq<Request>, n: nat) returns (i: nat)
    requires n < |requests|
    ensures var result := ResultOf(settings, AfterAll(settings, EMPTY, requests[..n]), requests[n]);
      && (result.Ok? && !NoSuccess(settings, requests, n + 1) ==>
            && IsLastSuccess(settings, requests, n + 1, i) && result.value == requests[i].document.value
            && (!requests[n].force ==> i == n || requests[n].now - requests[i].now < settings.ttl))
      && (result.Ok? && NoSuccess(settings, requests, n + 1) ==> requests[n].force && result.value == map[])
      && (result.Error? <==> IsAttempt(settings, requests, n) && !Succeeded(settings, requests, n))
      && (result.Error? ==> result.error == if requests[n].document.None? then ProviderFailed else NoKeys)
  {
    i := KeysAreOfTheLastFetch(settings, requests, n + 1);
    StepLeaves(settings, requests, n);
    AsksWhen(settings, requests, n);
    hide AfterAll, IsLastSuccess, NoSuccess;
    if Succeeded(settings, requests, n) {
      SuccessesOfOneMore(settings, requests, n, n);
      LastIsOne(settings, requests, n + 1, i, n);
    } else if !IsAttempt(settings, requests, n) && !NoSuccess(settings, requests, n + 1) {
      SuccessBringsKeys(settings, requests, n + 1, i);
    }
  }

  /**
   What looking up a key gives: nothing without an identifier; the key under it in the
   cache as it is left; that it is unknown only if the cache as it is left has no such key
   and keys were asked for by force; and otherwise the failure of the last request.
   */
  lemma WhatALookupGives(settings: Settings, cache: Cache, keyId: Option<string>, first: Request, second: Request)
    ensures var (result, requests) := Lookups(settings, cache, keyId, first, second);
      var left := AfterAll(settings, cache, requests);
      match result
      case Ok(key) => keyId.Some? && keyId.value in left.keys && left.keys[keyId.value] == key
      case Error(NoKeyId) => keyId.None? && requests == []
      case Error(UnknownKey) => keyId.Some? && keyId.value !in left.keys && requests == [first, second]
      case Error(error) =>
        && keyId.Some? && requests != [] && requests == [first, second][..|requests|]
        && !Last(requests).Brings()
        && error == if Last(requests).document.None? then ProviderFailed else NoKeys
  {
    AfterOneAndTwo(settings, cache, first, second);
    assert [first] + [second] == [first, second] && [first, second][..1] == [first];
    assert [first, second][..2] == [first, second];
    hide AfterAll;
  }
}
