/** The bookkeeping of EtcdServiceRegistry.cs with the etcd client cut
    away: the connection string, the per-prefix revision table, the cache
    of watched key/values and the fan-out of change events to listeners.
    A watch response arrives as a value; listener calls are recorded in
    order in `notifications`.  Where the source enumerates a dictionary its
    order is unspecified, so the model picks the next key
    nondeterministically. */
module EtcdRegistry {
  import opened Common
  import opened RegistryTypes
  import TypeExtension

  /** Lease time to live, in seconds. */
  const LeaseTtl := 60
  /** Operation timeout, in seconds. */
  const TimeOut := 5

  // ---------------------------------------------------------------------
  // Connection string

  /** `s.Split(',')`. */
  function Split(s: string): (pieces: seq<string>)
    ensures |pieces| >= 1
    ensures forall k :: 0 <= k < |pieces| ==> ',' !in pieces[k]
  {
    if s == [] then [""]
    else
      var rest := Split(s[1..]);
      if s[0] == ',' then [""] + rest
      else [[s[0]] + rest[0]] + rest[1..]
  }

  /** `string.Join(",", pieces)`. */
  function Join(pieces: seq<string>): string
  {
    if |pieces| == 0 then ""
    else if |pieces| == 1 then pieces[0]
    else pieces[0] + "," + Join(pieces[1..])
  }

  /** Splitting at the commas loses nothing: joining the pieces gives the
      string back. */
  lemma {:induction false} JoinSplit(s: string)
    ensures Join(Split(s)) == s
  {
    if s != [] {
      JoinSplit(s[1..]);
      var rest := Split(s[1..]);
      if s[0] != ',' {
        if |rest| > 1 {
          assert Join(rest) == rest[0] + "," + Join(rest[1..]);
        }
      }
    }
  }

  /** Joining comma-free pieces and splitting again gives the pieces back. */
  lemma {:induction false} SplitJoin(pieces: seq<string>)
    requires |pieces| >= 1
    requires forall k :: 0 <= k < |pieces| ==> ',' !in pieces[k]
    ensures Split(Join(pieces)) == pieces
    decreases |pieces|
  {
    if |pieces| == 1 {
      SplitNoComma(pieces[0]);
    } else {
      SplitJoin(pieces[1..]);
      SplitAfterPiece(pieces[0], Join(pieces[1..]));
    }
  }

  lemma {:induction false} SplitNoComma(s: string)
    requires ',' !in s
    ensures Split(s) == [s]
  {
    if s != [] {
      SplitNoComma(s[1..]);
      assert [s[0]] + s[1..] == s;
    }
  }

  lemma {:induction false} SplitAfterPiece(p: string, t: string)
    requires ',' !in p
    ensures Split(p + "," + t) == [p] + Split(t)
  {
    if p == [] {
      assert p + "," + t == [','] + t;
      assert (p + "," + t)[1..] == t;
    } else {
      assert (p + "," + t)[1..] == p[1..] + "," + t;
      SplitAfterPiece(p[1..], t);
      assert [p[0]] + p[1..] == p;
    }
  }

  function HttpScheme(isSecure: bool): string
  {
    if isSecure then "https" else "http"
  }

  /** BuildConnectionString as written: the per-endpoint text built when
      the string holds commas is overwritten, so the scheme is put in front
      of the whole string only. */
  function BuildConnectionString(config: RegistryConfig): (r: string)
    requires config.connectionString.Some?
    ensures StartsWith(r, HttpScheme(config.isSecure) + "://")
    ensures r[|HttpScheme(config.isSecure) + "://"|..] == config.connectionString.value
  {
    var connectionString := config.connectionString.value;
    var httpScheme := HttpScheme(config.isSecure);
    httpScheme + "://" + connectionString
  }

  /** Each endpoint with the scheme in front. */
  function WithScheme(pieces: seq<string>, scheme: string): (r: seq<string>)
    ensures |r| == |pieces|
    ensures forall k :: 0 <= k < |r| ==> r[k] == scheme + "://" + pieces[k]
  {
    if pieces == [] then [] else [scheme + "://" + pieces[0]] + WithScheme(pieces[1..], scheme)
  }

  /** The StringBuilder loop: every endpoint with the scheme and a comma. */
  function Appended(pieces: seq<string>, scheme: string): string
  {
    if pieces == [] then "" else scheme + "://" + pieces[0] + "," + Appended(pieces[1..], scheme)
  }

  /** `s.TrimEnd(',')`. */
  function TrimEnd(s: string): (r: string)
    ensures |r| <= |s| && r == s[..|r|]
  {
    if s != [] && s[|s| - 1] == ',' then TrimEnd(s[..|s| - 1]) else s
  }

  lemma {:induction false} AppendedIsJoinPlusComma(pieces: seq<string>, scheme: string)
    requires |pieces| >= 1
    ensures Appended(pieces, scheme) == Join(WithScheme(pieces, scheme)) + ","
    decreases |pieces|
  {
    if |pieces| > 1 {
      AppendedIsJoinPlusComma(pieces[1..], scheme);
      assert WithScheme(pieces, scheme)[1..] == WithScheme(pieces[1..], scheme);
    }
  }

  lemma {:induction false} JoinLastChar(pieces: seq<string>)
    requires |pieces| >= 1
    ensures |Join(pieces)| >= |pieces[|pieces| - 1]|
    ensures Join(pieces)[|Join(pieces)| - |pieces[|pieces| - 1]|..] == pieces[|pieces| - 1]
    decreases |pieces|
  {
    if |pieces| > 1 {
      JoinLastChar(pieces[1..]);
      var last := pieces[|pieces| - 1];
      var tail := Join(pieces[1..]);
      assert pieces[1..][|pieces[1..]| - 1] == last;
      assert Join(pieces) == pieces[0] + "," + tail;
      assert Join(pieces)[|Join(pieces)| - |last|..] == tail[|tail| - |last|..];
    }
  }

  lemma TrimOneComma(s: string)
    requires s != [] && s[|s| - 1] != ','
    ensures TrimEnd(s + ",") == s
  {
    assert (s + ",")[..|s + ","| - 1] == s;
  }

  /** BuildConnectionString as evidently intended (the result of the
      StringBuilder branch is kept): every comma-separated endpoint gets the
      scheme. */
  function CorrectedConnectionString(config: RegistryConfig): (r: string)
    requires config.connectionString.Some?
    ensures Split(r) == WithScheme(Split(config.connectionString.value), HttpScheme(config.isSecure))
  {
    var connectionString := config.connectionString.value;
    var httpScheme := HttpScheme(config.isSecure);
    var pieces := Split(connectionString);
    var prefixed := WithScheme(pieces, httpScheme);
    assert forall k :: 0 <= k < |prefixed| ==> ',' !in prefixed[k] by {
      forall k | 0 <= k < |prefixed|
        ensures ',' !in prefixed[k]
      {
        assert prefixed[k] == httpScheme + "://" + pieces[k];
        assert ',' !in httpScheme + "://";
      }
    }
    SplitJoin(prefixed);
    if ',' in connectionString then
      AppendedIsJoinPlusComma(pieces, httpScheme);
      JoinLastChar(prefixed);
      var joined := Join(prefixed);
      var last := prefixed[|prefixed| - 1];
      assert |last| >= 1 && joined[|joined| - 1] == last[|last| - 1] by {
        assert last == httpScheme + "://" + pieces[|pieces| - 1];
        assert joined[|joined| - |last|..][|last| - 1] == joined[|joined| - 1];
      }
      assert last[|last| - 1] != ',' by {
        assert last[|last| - 1] in last;
      }
      TrimOneComma(joined);
      TrimEnd(Appended(pieces, httpScheme))
    else
      SplitNoComma(connectionString);
      httpScheme + "://" + connectionString
  }

  /** The discrepancy: with two endpoints a and b the source builds
      "http://a,b", whose second endpoint has no scheme, where the intended
      string is "http://a,http://b" (with a = "10.0.0.1:2379" and
      b = "10.0.0.2:2379", say). */
  lemma ConnectionStringLosesSecondScheme(a: string, b: string, isSecure: bool)
    requires ',' !in a && ',' !in b
    ensures var config := RegistryConfig(Some(a + "," + b), isSecure, None);
      && Split(BuildConnectionString(config)) == [HttpScheme(isSecure) + "://" + a, b]
      && Split(CorrectedConnectionString(config)) == [HttpScheme(isSecure) + "://" + a, HttpScheme(isSecure) + "://" + b]
      && b != HttpScheme(isSecure) + "://" + b
  {
    var scheme := HttpScheme(isSecure);
    assert ',' !in scheme + "://" + a;
    assert scheme + "://" + (a + "," + b) == (scheme + "://" + a) + "," + b;
    SplitAfterPiece(scheme + "://" + a, b);
    SplitNoComma(b);
    SplitAfterPiece(a, b);
    assert |b| < |scheme + "://" + b|;
  }

  // ---------------------------------------------------------------------
  // Lease check

  /** CheckTtl's decision: a lease with at most TimeOut seconds left is
      about to expire. */
  function TtlHealthy(ttl: int): (healthy: bool)
    ensures healthy <==> ttl > TimeOut
    ensures ttl >= LeaseTtl ==> healthy
  {
    if ttl <= TimeOut then false else true
  }

  // ---------------------------------------------------------------------
  // Revisions

  datatype UpdateResult = UpdateResult(updated: bool, location: int)

  /** UpdateIfGreater(ref location, newValue): stores newValue only when it
      is strictly greater, and says whether it did. */
  function UpdateIfGreater(location: int, newValue: int): (r: UpdateResult)
    ensures r.updated <==> newValue > location
    ensures r.location >= location && r.location >= newValue
    ensures r.location == location || r.location == newValue
  {
    if newValue <= location then UpdateResult(false, location)
    else UpdateResult(true, newValue)
  }

  /** Two updates of one location commute, and repeating one changes
      nothing: the location ends at the maximum of what was offered. */
  lemma UpdateIfGreaterCommutes(location: int, a: int, b: int)
    ensures UpdateIfGreater(UpdateIfGreater(location, a).location, b).location
         == UpdateIfGreater(UpdateIfGreater(location, b).location, a).location
    ensures UpdateIfGreater(UpdateIfGreater(location, a).location, a) == UpdateResult(false, UpdateIfGreater(location, a).location)
  {
  }

  /** UpdateRevision's effect: an exact entry for the prefix is raised to
      the maximum; otherwise some stored key that is a prefix of it is;
      otherwise the prefix is inserted with the revision. */
  ghost predicate RevisionUpdated(before: map<string, int>, after: map<string, int>, prefix: string, revision: int)
  {
    && (prefix in before ==>
      after == before[prefix := UpdateIfGreater(before[prefix], revision).location])
    && (prefix !in before && (exists k :: k in before && StartsWith(prefix, k)) ==>
      exists k :: k in before && StartsWith(prefix, k)
        && after == before[k := UpdateIfGreater(before[k], revision).location])
    && (prefix !in before && (forall k :: k in before ==> !StartsWith(prefix, k)) ==>
      after == before[prefix := revision])
  }

  /** Some stored key that is a prefix of `key` holds at least `revision`. */
  ghost predicate RevisionCovered(revisions: map<string, int>, key: string, revision: int)
  {
    exists k :: k in revisions && StartsWith(key, k) && revisions[k] >= revision
  }

  /** Stored keys are never dropped and their revisions never decrease. */
  ghost predicate RevisionsGrow(before: map<string, int>, after: map<string, int>)
  {
    forall k :: k in before ==> k in after && after[k] >= before[k]
  }

  /** The keys of the first n events are all covered. */
  ghost predicate EventsCovered(revisions: map<string, int>, events: seq<WatchEvent>, n: nat, revision: int)
    requires n <= |events|
  {
    forall j :: 0 <= j < n ==> RevisionCovered(revisions, events[j].kv.key, revision)
  }

  lemma GrowsTransitively(a: map<string, int>, b: map<string, int>, c: map<string, int>)
    requires RevisionsGrow(a, b) && RevisionsGrow(b, c)
    ensures RevisionsGrow(a, c)
  {
  }

  lemma CoveredStaysCovered(before: map<string, int>, after: map<string, int>, key: string, revision: int)
    requires RevisionsGrow(before, after) && RevisionCovered(before, key, revision)
    ensures RevisionCovered(after, key, revision)
  {
    var k :| k in before && StartsWith(key, k) && before[k] >= revision;
    assert k in after && after[k] >= revision;
  }

  // ---------------------------------------------------------------------
  // Watch cache

  datatype WatchEventKind = Put | DeleteKey

  /** One etcd watch event: the key/value after it and, for a delete, the
      key/value before it (already converted to ServiceContent). */
  datatype WatchEvent = WatchEvent(kind: WatchEventKind, kv: ServiceContent, prevKv: ServiceContent)

  datatype CacheStepResult = CacheStepResult(cache: map<string, ServiceContent>, dispatched: Option<EventData>)

  /** One event against the cache: a Put of a new key or of a new version
      stores it and announces one Change; a Put of the cached version does
      nothing; a Delete drops the key and announces one Delete carrying the
      previous key/value. */
  function CacheStep(cache: map<string, ServiceContent>, e: WatchEvent): CacheStepResult
  {
    var key := e.kv.key;
    match e.kind
    case Put =>
      if key !in cache || cache[key].version != e.kv.version then
        CacheStepResult(cache[key := e.kv], Some(EventData(Change, [e.kv])))
      else
        CacheStepResult(cache, None)
    case DeleteKey =>
      CacheStepResult(cache - {key}, Some(EventData(Delete, [e.prevKv])))
  }

  /** The three outcomes of CacheStep, stated on their own. */
  lemma CacheStepCases(cache: map<string, ServiceContent>, e: WatchEvent)
    ensures e.kind == Put && (e.kv.key !in cache || cache[e.kv.key].version != e.kv.version) ==>
      CacheStep(cache, e) == CacheStepResult(cache[e.kv.key := e.kv], Some(EventData(Change, [e.kv])))
    ensures e.kind == Put && e.kv.key in cache && cache[e.kv.key].version == e.kv.version ==>
      CacheStep(cache, e) == CacheStepResult(cache, None)
    ensures e.kind == DeleteKey ==>
      CacheStep(cache, e) == CacheStepResult(cache - {e.kv.key}, Some(EventData(Delete, [e.prevKv])))
  {
  }

  /** The cache after a sequence of events. */
  function WatchCache(cache: map<string, ServiceContent>, events: seq<WatchEvent>): map<string, ServiceContent>
  {
    if events == [] then cache
    else CacheStep(WatchCache(cache, events[..|events| - 1]), events[|events| - 1]).cache
  }

  /** The OnEvent calls one cache step causes. */
  function Announce(listeners: seq<Listener>, d: Option<EventData>): seq<Notification>
  {
    if d.Some? then Dispatch(listeners, d.value.eventType, d.value.values) else []
  }

  /** The OnEvent calls a sequence of events causes, in order. */
  function WatchNotifications(listeners: seq<Listener>, cache: map<string, ServiceContent>, events: seq<WatchEvent>): seq<Notification>
  {
    if events == [] then []
    else
      var init := events[..|events| - 1];
      WatchNotifications(listeners, cache, init) + Announce(listeners, CacheStep(WatchCache(cache, init), events[|events| - 1]).dispatched)
  }

  lemma WatchStep(listeners: seq<Listener>, cache: map<string, ServiceContent>, events: seq<WatchEvent>, i: nat)
    requires i < |events|
    ensures var step := CacheStep(WatchCache(cache, events[..i]), events[i]);
      && WatchCache(cache, events[..i + 1]) == step.cache
      && WatchNotifications(listeners, cache, events[..i + 1])
         == WatchNotifications(listeners, cache, events[..i]) + Announce(listeners, step.dispatched)
  {
    assert events[..i + 1][..i] == events[..i];
  }

  /** Every cached entry is stored under its own key. */
  ghost predicate KeyedByOwnKey(cache: map<string, ServiceContent>)
  {
    forall k :: k in cache ==> cache[k].key == k
  }

  lemma {:induction false} WatchCacheKeepsKeys(cache: map<string, ServiceContent>, events: seq<WatchEvent>)
    requires KeyedByOwnKey(cache)
    ensures KeyedByOwnKey(WatchCache(cache, events))
    decreases |events|
  {
    if events != [] {
      WatchCacheKeepsKeys(cache, events[..|events| - 1]);
    }
  }

  /** Repeating a Put is silent: the second one neither changes the cache
      nor announces anything. */
  lemma RepeatedPutIsSilent(cache: map<string, ServiceContent>, e: WatchEvent)
    requires e.kind == Put
    ensures var once := CacheStep(cache, e).cache;
      CacheStep(once, e) == CacheStepResult(once, None)
  {
  }

  // ---------------------------------------------------------------------
  // Event fan-out

  /** Does the key start with one of the prefixes? */
  predicate MatchesAny(key: string, prefixes: seq<string>)
  {
    exists m :: 0 <= m < |prefixes| && StartsWith(key, prefixes[m])
  }

  /** The values a listener with these prefixes receives: the matching
      ones, in input order, each once. */
  function Selected(values: seq<ServiceContent>, prefixes: seq<string>): (s: seq<ServiceContent>)
    ensures |s| <= |values|
  {
    if values == [] then []
    else
      var init := values[..|values| - 1];
      var last := values[|values| - 1];
      Selected(init, prefixes) + (if MatchesAny(last.key, prefixes) then [last] else [])
  }

  lemma {:induction false} SelectedMeaning(values: seq<ServiceContent>, prefixes: seq<string>)
    ensures forall v :: v in Selected(values, prefixes) <==> v in values && MatchesAny(v.key, prefixes)
    ensures multiset(Selected(values, prefixes)) <= multiset(values)
    decreases |values|
  {
    if values != [] {
      var init := values[..|values| - 1];
      var last := values[|values| - 1];
      assert values == init + [last];
      SelectedMeaning(init, prefixes);
    }
  }

  /** What one listener receives for one event, if anything. */
  function ListenerCall(l: Listener, eventType: EventType, values: seq<ServiceContent>): seq<Notification>
  {
    if TypeExtension.IsNullOrEmptyArray(l.prefixes) then []
    else
      var valueList := Selected(values, l.prefixes.value);
      if |valueList| > 0 then [Notification(l, EventData(eventType, valueList))] else []
  }

  /** The calls DispatchEvent makes, listener by listener. */
  function Dispatch(listeners: seq<Listener>, eventType: EventType, values: seq<ServiceContent>): seq<Notification>
  {
    if listeners == [] then []
    else Dispatch(listeners[..|listeners| - 1], eventType, values) + ListenerCall(listeners[|listeners| - 1], eventType, values)
  }

  /** Dispatching to one more listener appends that listener's call. */
  lemma DispatchStep(listeners: seq<Listener>, eventType: EventType, values: seq<ServiceContent>, i: nat)
    requires i < |listeners|
    ensures Dispatch(listeners[..i + 1], eventType, values)
      == Dispatch(listeners[..i], eventType, values) + ListenerCall(listeners[i], eventType, values)
  {
    assert listeners[..i + 1][..i] == listeners[..i];
  }

  /** Each call goes to a listener with prefixes, carries a non-empty list
      of values that all match its prefixes, and listeners are called in
      registration order, at most once each. */
  lemma {:induction false} DispatchMeaning(listeners: seq<Listener>, eventType: EventType, values: seq<ServiceContent>)
    ensures var calls := Dispatch(listeners, eventType, values);
      && |calls| <= |listeners|
      && forall c :: c in calls ==>
        && c.listener in listeners && c.data.eventType == eventType
        && c.listener.prefixes.Some? && |c.listener.prefixes.value| > 0
        && |c.data.values| > 0
        && c.data.values == Selected(values, c.listener.prefixes.value)
    decreases |listeners|
  {
    if listeners != [] {
      var init := listeners[..|listeners| - 1];
      DispatchMeaning(init, eventType, values);
      assert forall l :: l in init ==> l in listeners;
    }
  }

  // ---------------------------------------------------------------------
  // The registry

  class EtcdServiceRegistry {
    const config: RegistryConfig
    var listeners: seq<Listener>
    var allContents: map<string, ServiceContent>
    var revisions: map<string, int>
    /** The OnEvent calls made on listeners, in order. */
    var notifications: seq<Notification>

    constructor (config: RegistryConfig)
      ensures this.config == config
      ensures listeners == [] && allContents == map[] && revisions == map[] && notifications == []
    {
      this.config := config;
      listeners := [];
      allContents := map[];
      revisions := map[];
      notifications := [];
    }

    /** Adds a listener by swapping in a copy of the list; null is
        ignored. */
    method AddListener(listener: Option<Listener>)
      modifies this
      ensures listener.None? ==> listeners == old(listeners)
      ensures listener.Some? ==> listeners == old(listeners) + [listener.value]
      ensures allContents == old(allContents) && revisions == old(revisions) && notifications == old(notifications)
    {
      if listener.Some? {
        var tmpListeners := listeners;
        tmpListeners := tmpListeners + [listener.value];
        listeners := tmpListeners;
      }
    }

    /** The revision recorded for a prefix: its own entry, else the entry
        of some stored key that is a prefix of it, else 0. */
    method GetRevision(prefix: string) returns (r: int)
      ensures prefix in revisions ==> r == revisions[prefix]
      ensures prefix !in revisions && (exists k :: k in revisions && StartsWith(prefix, k)) ==>
        exists k :: k in revisions && StartsWith(prefix, k) && r == revisions[k]
      ensures prefix !in revisions && (forall k :: k in revisions ==> !StartsWith(prefix, k)) ==> r == 0
    {
      if prefix in revisions {
        return revisions[prefix];
      }
      var remaining := revisions.Keys;
      while remaining != {}
        invariant remaining <= revisions.Keys
        invariant forall k :: k in revisions && k !in remaining ==> !StartsWith(prefix, k)
        decreases |remaining|
      {
        var key :| key in remaining;
        if StartsWith(prefix, key) {
          return revisions[key];
        }
        remaining := remaining - {key};
      }
      r := 0;
    }

    /** Records revision `revision` for `prefix`: an exact entry is raised
        to the maximum; otherwise some stored key that is a prefix of it is;
        otherwise the prefix is inserted with that revision. */
    method UpdateRevision(prefix: string, revision: int)
      modifies this
      ensures RevisionUpdated(old(revisions), revisions, prefix, revision)
      ensures RevisionsGrow(old(revisions), revisions) && RevisionCovered(revisions, prefix, revision)
      ensures listeners == old(listeners) && allContents == old(allContents) && notifications == old(notifications)
    {
      if prefix in revisions {
        var tmpRevision := UpdateIfGreater(revisions[prefix], revision).location;
        revisions := revisions[prefix := tmpRevision];
        assert StartsWith(prefix, prefix);
        return;
      }
      var remaining := revisions.Keys;
      var found := false;
      while remaining != {} && !found
        invariant remaining <= old(revisions).Keys
        invariant !found ==> revisions == old(revisions)
        invariant !found ==> forall k :: k in old(revisions) && k !in remaining ==> !StartsWith(prefix, k)
        invariant found ==> exists k :: (k in old(revisions) && StartsWith(prefix, k)
          && revisions == old(revisions)[k := UpdateIfGreater(old(revisions)[k], revision).location])
        invariant listeners == old(listeners) && allContents == old(allContents) && notifications == old(notifications)
        decreases |remaining|, !found
      {
        var key :| key in remaining;
        if StartsWith(prefix, key) {
          var tmpRevision := UpdateIfGreater(revisions[key], revision).location;
          revisions := revisions[key := tmpRevision];
          found := true;
        } else {
          remaining := remaining - {key};
        }
      }
      if !found {
        revisions := revisions[prefix := revision];
        assert StartsWith(prefix, prefix);
      }
    }

    /** Calls every listener that has prefixes with the values matching
        them, skipping listeners with no match; a listener that raises does
        not stop the others. */
    method DispatchEvent(eventType: EventType, values: seq<ServiceContent>)
      modifies this
      ensures notifications == old(notifications) + Dispatch(listeners, eventType, values)
      ensures listeners == old(listeners) && allContents == old(allContents) && revisions == old(revisions)
    {
      var tmpListeners := listeners;
      var i := 0;
      while i < |tmpListeners|
        invariant 0 <= i <= |tmpListeners| && tmpListeners == listeners
        invariant notifications == old(notifications) + Dispatch(tmpListeners[..i], eventType, values)
        invariant listeners == old(listeners) && allContents == old(allContents) && revisions == old(revisions)
      {
        var call := NotifyListener(tmpListeners[i], eventType, values);
        DispatchStep(tmpListeners, eventType, values, i);
        AppendAssociates(old(notifications), Dispatch(tmpListeners[..i], eventType, values), call);
        notifications := notifications + call;
        i := i + 1;
      }
      assert tmpListeners[..i] == listeners;
    }

    /** The body of DispatchEvent's loop for one listener: the call it
        receives, if any. */
    static method NotifyListener(etcdListener: Listener, eventType: EventType, values: seq<ServiceContent>) returns (call: seq<Notification>)
      ensures call == ListenerCall(etcdListener, eventType, values)
    {
      call := [];
      var prefixs := etcdListener.prefixes;
      if !TypeExtension.IsNullOrEmptyArray(prefixs) {
        var valueList := SelectValues(values, prefixs.value);
        if |valueList| > 0 {
          call := [Notification(etcdListener, EventData(eventType, valueList))];
        }
      }
    }

    /** The nested loops of DispatchEvent for one listener. */
    static method SelectValues(values: seq<ServiceContent>, prefixs: seq<string>) returns (valueList: seq<ServiceContent>)
      ensures valueList == Selected(values, prefixs)
    {
      valueList := [];
      var j := 0;
      while j < |values|
        invariant 0 <= j <= |values|
        invariant valueList == Selected(values[..j], prefixs)
      {
        var etcdValue := values[j];
        var k := 0;
        var matched := false;
        while k < |prefixs| && !matched
          invariant 0 <= k <= |prefixs|
          invariant matched ==> MatchesAny(etcdValue.key, prefixs)
          invariant !matched ==> forall m :: 0 <= m < k ==> !StartsWith(etcdValue.key, prefixs[m])
        {
          if StartsWith(etcdValue.key, prefixs[k]) {
            matched := true;
          }
          k := k + 1;
        }
        assert values[..j + 1][..j] == values[..j];
        if matched {
          valueList := valueList + [etcdValue];
        }
        j := j + 1;
      }
      assert values[..j] == values;
    }

    /** A watch response: every event's revision is recorded first, then
        the events are applied to the cache in order, each change being
        announced to the listeners. */
    method WatchCallback(events: seq<WatchEvent>, headerRevision: int)
      modifies this
      ensures RevisionsGrow(old(revisions), revisions)
      ensures EventsCovered(revisions, events, |events|, headerRevision)
      ensures allContents == WatchCache(old(allContents), events)
      ensures notifications == old(notifications) + WatchNotifications(listeners, old(allContents), events)
      ensures listeners == old(listeners)
    {
      RecordRevisions(events, headerRevision);
      ApplyWatchEvents(events);
    }

    /** WatchCallback's first loop: the header revision is recorded for
        every event's key. */
    method RecordRevisions(events: seq<WatchEvent>, headerRevision: int)
      modifies this
      ensures RevisionsGrow(old(revisions), revisions)
      ensures EventsCovered(revisions, events, |events|, headerRevision)
      ensures listeners == old(listeners) && allContents == old(allContents) && notifications == old(notifications)
    {
      var i := 0;
      while i < |events|
        invariant 0 <= i <= |events|
        invariant RevisionsGrow(old(revisions), revisions)
        invariant EventsCovered(revisions, events, i, headerRevision)
        invariant listeners == old(listeners) && allContents == old(allContents) && notifications == old(notifications)
      {
        ghost var before := revisions;
        UpdateRevision(events[i].kv.key, headerRevision);
        GrowsTransitively(old(revisions), before, revisions);
        forall j | 0 <= j < i
          ensures RevisionCovered(revisions, events[j].kv.key, headerRevision)
        {
          CoveredStaysCovered(before, revisions, events[j].kv.key, headerRevision);
        }
        i := i + 1;
      }
    }

    /** WatchCallback's second loop: the events against the cache, in
        order, each change being announced. */
    method ApplyWatchEvents(events: seq<WatchEvent>)
      modifies this
      ensures allContents == WatchCache(old(allContents), events)
      ensures notifications == old(notifications) + WatchNotifications(listeners, old(allContents), events)
      ensures listeners == old(listeners) && revisions == old(revisions)
    {
      ghost var cache0 := allContents;
      ghost var notes0 := notifications;
      var i := 0;
      while i < |events|
        invariant 0 <= i <= |events|
        invariant revisions == old(revisions) && listeners == old(listeners)
        invariant allContents == WatchCache(cache0, events[..i])
        invariant notifications == notes0 + WatchNotifications(listeners, cache0, events[..i])
      {
        WatchStep(listeners, cache0, events, i);
        AppendAssociates(notes0, WatchNotifications(listeners, cache0, events[..i]),
          Announce(listeners, CacheStep(allContents, events[i]).dispatched));
        ApplyWatchEvent(events[i]);
        i := i + 1;
      }
      assert events[..i] == events;
    }

    /** The body of WatchCallback's second loop: one event against the
        cache, and its announcement. */
    method ApplyWatchEvent(e: WatchEvent)
      modifies this
      ensures allContents == CacheStep(old(allContents), e).cache
      ensures notifications == old(notifications) + Announce(listeners, CacheStep(old(allContents), e).dispatched)
      ensures listeners == old(listeners) && revisions == old(revisions)
    {
      var key := e.kv.key;
      var tmpDic := allContents;
      match e.kind {
        case Put =>
          var etcdValue := e.kv;
          if key !in tmpDic || tmpDic[key].version != etcdValue.version {
            tmpDic := tmpDic[key := etcdValue];
            allContents := tmpDic;
            DispatchEvent(Change, [etcdValue]);
          }
        case DeleteKey =>
          tmpDic := tmpDic - {key};
          allContents := tmpDic;
          DispatchEvent(Delete, [e.prevKv]);
      }
    }
  }

  /** When no other stored key is a prefix of `prefix`, reading the revision
      back after recording it gives at least that revision. */
  method RevisionReadBack(registry: EtcdServiceRegistry, prefix: string, revision: int) returns (r: int)
    requires forall k, k' :: k in registry.revisions && k' in registry.revisions && StartsWith(prefix, k) && StartsWith(prefix, k') ==> k == k'
    modifies registry
    ensures r >= revision
  {
    registry.UpdateRevision(prefix, revision);
    r := registry.GetRevision(prefix);
  }
}
