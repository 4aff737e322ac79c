/**
  * The shared dialer: one lazily dialled connection, reused by every local connection until it closes
  * or is invalidated. Connections are numbered in the order of the dials that made them.
  */
module Dialer {
  import opened Core

  datatype DialError = DialFailed | OpenFailed(connection: nat)

  /** The outcome of asking for a connection. */
  function Got(cache: Option<nat>, closed: set<nat>, dials: nat, answers: bool): Result<nat, DialError> {
    if cache.Some? && cache.value !in closed then Ok(cache.value)
    else if answers then Ok(dials)
    else Err(DialFailed)
  }

  /** The outcome of asking for a stream: a second connection is dialled when the first cannot carry it. */
  function Opened(
    cache: Option<nat>, closed: set<nat>, dials: nat, answers: bool, redials: bool, opens: nat -> bool)
    : Result<nat, DialError>
  {
    var first := Got(cache, closed, dials, answers);
    if first.Err? || opens(first.value) then first
    else
      var second := if first.value == dials then dials + 1 else dials;
      if !redials then Err(DialFailed)
      else if opens(second) then Ok(second)
      else Err(OpenFailed(first.value))
  }

  class SharedDialer {
    var cache: Option<nat>
    var dials: nat
    var closed: set<nat>
    ghost var discarded: set<nat>

    /** Every connection ever dialled is either the cached one or was discarded. */
    ghost predicate Valid() reads this {
      && (forall c :: c in discarded ==> c < dials)
      && (cache.Some? ==> cache.value < dials && cache.value !in discarded)
      && dials == |discarded| + (if cache.Some? then 1 else 0)
      && (forall c :: c in closed ==> c < dials)
    }

    constructor ()
      ensures Valid() && cache.None? && dials == 0 && closed == {}
    {
      cache, dials, closed, discarded := None, 0, {}, {};
    }

    /** The cached connection if it is open, otherwise a new one; `answers` says whether a dial succeeds. */
    method GetConnection(answers: bool) returns (r: Result<nat, DialError>)
      requires Valid()
      modifies this
      ensures Valid() && closed == old(closed)
      ensures r == Got(old(cache), closed, old(dials), answers)
      ensures cache == (if r.Ok? then Some(r.value) else None) && (r.Ok? ==> r.value !in closed)
      ensures dials == old(dials) + if r == Ok(old(dials)) then 1 else 0
      ensures discarded ==
        if old(cache).Some? && old(cache).value in closed then old(discarded) + {old(cache).value} else old(discarded)
    {
      if cache.Some? {
        if cache.value !in closed {
          return Ok(cache.value);
        }
        discarded := discarded + {cache.value};
        cache := None;
      }
      if !answers {
        return Err(DialFailed);
      }
      cache := Some(dials);
      dials := dials + 1;
      return Ok(cache.value);
    }

    method Invalidate()
      requires Valid()
      modifies this`cache, this`discarded
      ensures Valid() && cache.None?
      ensures discarded == old(discarded) + if old(cache).Some? then {old(cache).value} else {}
    {
      if cache.Some? {
        discarded := discarded + {cache.value};
      }
      cache := None;
    }

    /** A connection closes on its own. */
    method Close(connection: nat)
      requires Valid()
      modifies this`closed
      ensures Valid() && closed == old(closed) + if connection < dials then {connection} else {}
    {
      if connection < dials {
        closed := closed + {connection};
      }
    }

    /**
      * Opens a stream, redialling once if that fails; the error of the first attempt is the one reported.
      * `opens` says whether a connection can carry a new stream.
      */
    method OpenWithReconnect(answers: bool, redials: bool, opens: nat -> bool) returns (r: Result<nat, DialError>)
      requires Valid()
      modifies this
      ensures Valid() && closed == old(closed)
      ensures r == Opened(old(cache), closed, old(dials), answers, redials, opens)
      ensures var cachedOpen := old(cache).Some? && old(cache).value !in closed;
              var first := if cachedOpen then old(cache).value else old(dials);
              var second := if cachedOpen then old(dials) else old(dials) + 1;
              && (r == Ok(first) <==> (cachedOpen || answers) && opens(first))
              && (r == Ok(second) <==> (cachedOpen || answers) && !opens(first) && redials && opens(second))
              && (r == Err(DialFailed) <==> !(cachedOpen || answers) || (!opens(first) && !redials))
              && (r == Err(OpenFailed(first)) <==> (cachedOpen || answers) && !opens(first) && redials && !opens(second))
      ensures dials <= old(dials) + 2
      ensures r.Ok? ==> cache == Some(r.value) && opens(r.value) && r.value !in closed
      ensures r.Err? && r.error.OpenFailed? ==>
        !opens(r.error.connection) && r.error.connection in discarded &&
        cache.Some? && cache.value != r.error.connection && !opens(cache.value)
      ensures old(cache).Some? && old(cache).value !in closed && opens(old(cache).value) ==>
        r == Ok(old(cache).value) && dials == old(dials)
    {
      var first := GetConnection(answers);
      if first.Err? {
        return first;
      }
      if opens(first.value) {
        return first;
      }
      Invalidate();
      var second := GetConnection(redials);
      if second.Err? {
        return second;
      }
      return if opens(second.value) then second else Err(OpenFailed(first.value));
    }
  }

  // ---------------------------------------------------------------- whole runs

  datatype Call = Get(answers: bool) | Invalidates | Closes(connection: nat)

  /** Nothing between calls `i` and `j` closes the connection or empties the cache. */
  ghost predicate Undisturbed(calls: seq<Call>, i: nat, j: nat, connection: nat) {
    forall k :: i < k < j && k < |calls| ==> calls[k] != Invalidates && calls[k] != Closes(connection)
  }

  /** Connection `c`, returned by call `i`, is still the one to return if and only if nothing disturbed it. */
  ghost predicate Kept(calls: seq<Call>, i: nat, j: nat, c: nat, cache: Option<nat>, closed: set<nat>) {
    Undisturbed(calls, i, j, c) <==> cache == Some(c) && c !in closed
  }

  /** A connection returned before call `i` can be returned again. */
  ghost predicate Reusable(calls: seq<Call>, results: seq<Option<nat>>, i: nat)
    requires i <= |results|
  {
    exists j :: 0 <= j < i && results[j].Some? && Undisturbed(calls, j, i, results[j].value)
  }

  /** The cache is full after `n` calls: the last of them but for closes was a successful one. */
  predicate CachedAfter(calls: seq<Call>, results: seq<Option<nat>>, n: nat)
    requires n <= |calls| && n <= |results|
  {
    n > 0 && if calls[n - 1].Closes? then CachedAfter(calls, results, n - 1) else results[n - 1].Some?
  }

  /** Call `i` throws a connection away: it empties a full cache, or finds the cached connection closed. */
  ghost predicate Discards(calls: seq<Call>, results: seq<Option<nat>>, i: nat)
    requires i < |calls| && i <= |results|
  {
    CachedAfter(calls, results, i) &&
    (calls[i].Invalidates? || (calls[i].Get? && !Reusable(calls, results, i)))
  }

  /** The number of connections the first `n` calls throw away. */
  ghost function DiscardedIn(calls: seq<Call>, results: seq<Option<nat>>, n: nat): nat
    requires n <= |calls| && n <= |results|
  {
    if n == 0 then 0 else DiscardedIn(calls, results, n - 1) + if Discards(calls, results, n - 1) then 1 else 0
  }

  lemma {:induction false} DiscardedBefore(calls: seq<Call>, results: seq<Option<nat>>, more: Option<nat>, n: nat)
    requires n <= |calls| && n <= |results|
    ensures DiscardedIn(calls, results + [more], n) == DiscardedIn(calls, results, n)
  {
    if n > 0 {
      DiscardedBefore(calls, results, more, n - 1);
      CachedBefore(calls, results, more, n - 1);
      ReusedBefore(calls, results, more);
    }
  }

  /** Any prefix of the results will do for the cache. */
  lemma {:induction false} CachedBefore(calls: seq<Call>, results: seq<Option<nat>>, more: Option<nat>, n: nat)
    requires n <= |calls| && n <= |results|
    ensures CachedAfter(calls, results + [more], n) == CachedAfter(calls, results, n)
  {
    if n > 0 {
      CachedBefore(calls, results, more, n - 1);
    }
  }

  lemma {:induction false} UndisturbedStep(calls: seq<Call>, i: nat, n: nat, c: nat)
    requires i < n < |calls|
    ensures Undisturbed(calls, i, n + 1, c)
       <==> Undisturbed(calls, i, n, c) && calls[n] != Invalidates && calls[n] != Closes(c)
  {
    if Undisturbed(calls, i, n, c) && calls[n] != Invalidates && calls[n] != Closes(c) {
      forall k | i < k < n + 1 && k < |calls| ensures calls[k] != Invalidates && calls[k] != Closes(c) {
        if k < n {
          assert calls[k] != Invalidates;
        }
      }
    }
  }

  /** Some earlier connection can be used again if and only if the cached one is open. */
  lemma {:induction false} ReusesCache(
    calls: seq<Call>, results: seq<Option<nat>>, cache: Option<nat>, closed: set<nat>, dials: nat)
    requires forall i :: 0 <= i < |results| && results[i].Some? ==>
      Kept(calls, i, |results|, results[i].value, cache, closed)
    requires cache.Some? ==> cache.value < dials
    requires forall c: nat :: c < dials ==> Some(c) in results
    ensures Reusable(calls, results, |results|) <==> cache.Some? && cache.value !in closed
  {
    if cache.Some? && cache.value !in closed {
      assert Some(cache.value) in results;
      var j :| 0 <= j < |results| && results[j] == Some(cache.value);
      assert Kept(calls, j, |results|, results[j].value, cache, closed);
    }
  }

  /** What was reusable before a call does not depend on the results from that call on. */
  lemma {:induction false} ReusedBefore(calls: seq<Call>, results: seq<Option<nat>>, more: Option<nat>)
    ensures forall i :: 0 <= i <= |results| ==> Reusable(calls, results + [more], i) == Reusable(calls, results, i)
  {
    forall i | 0 <= i <= |results| ensures Reusable(calls, results + [more], i) == Reusable(calls, results, i) {
      if Reusable(calls, results, i) {
        var j :| 0 <= j < i && results[j].Some? && Undisturbed(calls, j, i, results[j].value);
        assert (results + [more])[j] == results[j];
      }
      if Reusable(calls, results + [more], i) {
        var j :| 0 <= j < i && (results + [more])[j].Some? && Undisturbed(calls, j, i, (results + [more])[j].value);
        assert (results + [more])[j] == results[j];
      }
    }
  }

  /** What the results of the calls so far say about the cache, the closed connections and the dials. */
  ghost predicate Tracks(calls: seq<Call>, results: seq<Option<nat>>, cache: Option<nat>, closed: set<nat>, dials: nat) {
    && |results| <= |calls|
    && cache.Some? == CachedAfter(calls, results, |results|)
    && (forall c: nat :: c < dials ==> Some(c) in results)
    && (forall i :: 0 <= i < |results| ==> Fits(calls, results, i, dials))
    && (forall i :: 0 <= i < |results| && results[i].Some? ==>
          Kept(calls, i, |results|, results[i].value, cache, closed))
    && (forall i, j :: 0 <= i < j < |results| && results[i].Some? && results[j].Some? ==>
          (results[i] == results[j] <==> Undisturbed(calls, i, j, results[i].value)))
  }

  /** The result fits the call: who succeeds, and with a connection that was dialled. */
  ghost predicate Fits(calls: seq<Call>, results: seq<Option<nat>>, i: nat, dials: nat)
    requires i < |results| && |results| <= |calls|
  {
    && (results[i].Some? ==> calls[i].Get? && results[i].value < dials)
    && (calls[i] == Get(true) ==> results[i].Some?)
    && (calls[i] == Get(false) ==> (results[i].Some? <==> Reusable(calls, results, i)))
  }

  /** What one call does. */
  ghost predicate Effect(
    call: Call, cache: Option<nat>, closed: set<nat>, dials: nat,
    result: Option<nat>, cache': Option<nat>, closed': set<nat>, dials': nat)
  {
    match call
    case Get(answers) =>
      && closed' == closed
      && if cache.Some? && cache.value !in closed then result == cache && cache' == cache && dials' == dials
         else if answers then result == Some(dials) && cache' == Some(dials) && dials' == dials + 1
         else result == None && cache' == None && dials' == dials
    case Invalidates => result == None && cache' == None && closed' == closed && dials' == dials
    case Closes(c) =>
      && result == None && cache' == cache && dials' == dials
      && closed' == closed + if c < dials then {c} else {}
  }

  lemma {:induction false} NothingDiscarded(calls: seq<Call>)
    ensures DiscardedIn(calls, [], 0) == 0
  {
  }

  lemma {:induction false} NothingTracked(calls: seq<Call>)
    ensures Tracks(calls, [], None, {}, 0)
  {
  }

  /** A call keeps the tracking of the connections returned so far. */
  lemma {:induction false} KeptOn(
    calls: seq<Call>, results: seq<Option<nat>>, cache: Option<nat>, closed: set<nat>, dials: nat,
    result: Option<nat>, cache': Option<nat>, closed': set<nat>, dials': nat, i: nat)
    requires Tracks(calls, results, cache, closed, dials) && |results| < |calls|
    requires forall c :: c in closed ==> c < dials
    requires Effect(calls[|results|], cache, closed, dials, result, cache', closed', dials')
    requires i < |results| && results[i].Some?
    ensures Kept(calls, i, |results| + 1, results[i].value, cache', closed')
    ensures result.Some? ==> (results[i] == result <==> Undisturbed(calls, i, |results|, results[i].value))
  {
    assert Fits(calls, results, i, dials) && Kept(calls, i, |results|, results[i].value, cache, closed);
    UndisturbedStep(calls, i, |results|, results[i].value);
  }

  /** What a call returns is what it leaves in the cache. */
  lemma {:induction false} NewlyKept(
    calls: seq<Call>, n: nat, cache: Option<nat>, closed: set<nat>, dials: nat,
    result: Option<nat>, cache': Option<nat>, closed': set<nat>, dials': nat)
    requires n < |calls| && forall c :: c in closed ==> c < dials
    requires Effect(calls[n], cache, closed, dials, result, cache', closed', dials')
    ensures result.Some? ==> Kept(calls, n, n + 1, result.value, cache', closed')
  {
  }

  /** A call keeps the tracking. */
  lemma {:induction false} TracksOn(
    calls: seq<Call>, results: seq<Option<nat>>, cache: Option<nat>, closed: set<nat>, dials: nat,
    result: Option<nat>, cache': Option<nat>, closed': set<nat>, dials': nat)
    requires Tracks(calls, results, cache, closed, dials) && |results| < |calls|
    requires (forall c :: c in closed ==> c < dials) && (cache.Some? ==> cache.value < dials)
    requires Effect(calls[|results|], cache, closed, dials, result, cache', closed', dials')
    ensures Tracks(calls, results + [result], cache', closed', dials')
  {
    hide Kept, Undisturbed, Reusable;
    var n, more := |results|, results + [result];
    CachedBefore(calls, results, result, n);
    ReusedBefore(calls, results, result);
    ReusesCache(calls, results, cache, closed, dials);
    NewlyKept(calls, n, cache, closed, dials, result, cache', closed', dials');
    forall i | 0 <= i < n && results[i].Some?
      ensures Kept(calls, i, n + 1, results[i].value, cache', closed')
      ensures result.Some? ==> (results[i] == result <==> Undisturbed(calls, i, n, results[i].value))
    {
      KeptOn(calls, results, cache, closed, dials, result, cache', closed', dials', i);
    }
    forall i | 0 <= i < |more| ensures Fits(calls, more, i, dials') {
      if i < n {
        assert Fits(calls, results, i, dials);
      }
    }
    forall c: nat | c < dials' ensures Some(c) in more {
      if c == dials {
        assert more[n] == Some(c);
      } else {
        assert Some(c) in results;
      }
    }
  }

  /** One more call discards a connection exactly when the cache was full and it empties or replaces it. */
  lemma {:induction false} DiscardedOn(
    calls: seq<Call>, results: seq<Option<nat>>, cache: Option<nat>, closed: set<nat>, dials: nat, result: Option<nat>)
    requires Tracks(calls, results, cache, closed, dials) && |results| < |calls|
    requires cache.Some? ==> cache.value < dials
    ensures var call := calls[|results|];
            var thrown := cache.Some? && (call.Invalidates? || (call.Get? && cache.value in closed));
            (DiscardedIn(calls, results + [result], |results| + 1)
             == DiscardedIn(calls, results, |results|) + if thrown then 1 else 0)
  {
    var n := |results|;
    DiscardedBefore(calls, results, result, n);
    CachedBefore(calls, results, result, n);
    ReusedBefore(calls, results, result);
    ReusesCache(calls, results, cache, closed, dials);
  }

  lemma {:induction false} Tracked(
    calls: seq<Call>, results: seq<Option<nat>>, cache: Option<nat>, closed: set<nat>, dials: nat)
    requires Tracks(calls, results, cache, closed, dials) && |results| == |calls|
    ensures cache.Some? == CachedAfter(calls, results, |calls|)
    ensures forall c: nat :: c < dials ==> Some(c) in results
    ensures forall i :: 0 <= i < |calls| ==> Fits(calls, results, i, dials)
    ensures forall i, j :: 0 <= i < j < |calls| && results[i].Some? && results[j].Some? ==>
      (results[i] == results[j] <==> Undisturbed(calls, i, j, results[i].value))
  {
  }

  /**
    * Any interleaving of calls, invalidations and closes: each successful dial made the cached connection
    * or one that was discarded, every dialled connection was returned by some call, a call succeeds without
    * a dial if and only if a connection can be used again, and two successful calls return the same
    * connection if and only if nothing between them closed it or emptied the cache.
    */
  method RunDialer(calls: seq<Call>) returns (results: seq<Option<nat>>, dials: nat, discarded: nat, cached: bool)
    ensures |results| == |calls|
    ensures forall c: nat :: c < dials ==> Some(c) in results
    ensures forall i :: 0 <= i < |calls| ==> Fits(calls, results, i, dials)
    ensures cached == CachedAfter(calls, results, |calls|) && discarded == DiscardedIn(calls, results, |calls|)
    ensures dials == discarded + if cached then 1 else 0
    ensures forall i, j :: 0 <= i < j < |calls| && results[i].Some? && results[j].Some? ==>
      (results[i] == results[j] <==> Undisturbed(calls, i, j, results[i].value))
  {
    hide Tracks, DiscardedIn, CachedAfter;
    var dialer := new SharedDialer();
    results := [];
    discarded := 0;
    NothingTracked(calls);
    NothingDiscarded(calls);
    while |results| < |calls|
      invariant fresh(dialer) && dialer.Valid() && |results| <= |calls|
      invariant discarded == |dialer.discarded| == DiscardedIn(calls, results, |results|)
      invariant Tracks(calls, results, dialer.cache, dialer.closed, dialer.dials)
    {
      ghost var cache, closed, before := dialer.cache, dialer.closed, dialer.dials;
      var call := calls[|results|];
      var result := None;
      var had := dialer.cache;
      match call {
        case Get(answers) =>
          var r := dialer.GetConnection(answers);
          if r.Ok? {
            result := Some(r.value);
          }
          if had.Some? && had.value in dialer.closed {
            discarded := discarded + 1;
          }
        case Invalidates =>
          dialer.Invalidate();
          if had.Some? {
            discarded := discarded + 1;
          }
        case Closes(connection) =>
          dialer.Close(connection);
      }
      DiscardedOn(calls, results, cache, closed, before, result);
      TracksOn(calls, results, cache, closed, before, result, dialer.cache, dialer.closed, dialer.dials);
      results := results + [result];
    }
    dials, cached := dialer.dials, dialer.cache.Some?;
    Tracked(calls, results, dialer.cache, dialer.closed, dials);
  }
}
