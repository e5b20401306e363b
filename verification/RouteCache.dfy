/**
 The route cache: crossings keyed by the key prefix that leads to them, probed by
 the prefix lengths seen so far, longest first.
 */
module RouteCache {
  import opened Bytes

  const ROUTE_CACHE_CAPACITY: nat := 16384
  const ROUTE_PREFIX_MAX: nat := 96

  type Guid = nat

  datatype Route = Route(parent: Guid, parentDepth: nat, parentVersion: nat, child: Guid, childDepth: nat)

  type Routes = map<Bytes, Route>

  // ---------- longest match ----------

  /** Length of the longest prefix of `key`, of at most `n` bytes, that has a route. */
  function LongestLen(routes: Routes, key: Bytes, n: nat): (r: Option<nat>)
    requires n <= |key|
    ensures r.Some? ==> r.value <= n && key[..r.value] in routes
  {
    if key[..n] in routes then Some(n)
    else if n == 0 then None
    else LongestLen(routes, key, n - 1)
  }

  /** It is the longest: no longer prefix has a route, and none at all when there is no result. */
  lemma {:induction false} LongestIsMaximal(routes: Routes, key: Bytes, n: nat, m: nat)
    requires m <= n <= |key| && key[..m] in routes
    ensures LongestLen(routes, key, n).Some? && m <= LongestLen(routes, key, n).value
    decreases n
  {
    if key[..n] !in routes { LongestIsMaximal(routes, key, n - 1, m); }
  }

  /** Without its longest match, a key matches the next longest. */
  lemma {:induction false} NextLongest(routes: Routes, key: Bytes, n: nat)
    requires n <= |key| && LongestLen(routes, key, n).Some?
    ensures var m := LongestLen(routes, key, n).value;
            LongestLen(routes - {key[..m]}, key, n) == if m == 0 then None else LongestLen(routes, key, m - 1)
    decreases n
  {
    var m := LongestLen(routes, key, n).value;
    if key[..n] in routes {
      if m > 0 { OtherLengths(routes, key, m - 1, key[..m]); }
    } else {
      assert |key[..n]| == n && |key[..m]| == m;
      NextLongest(routes, key, n - 1);
    }
  }

  lemma {:induction false} OtherLengths(routes: Routes, key: Bytes, n: nat, gone: Bytes)
    requires n <= |key| && |gone| > n
    ensures LongestLen(routes - {gone}, key, n) == LongestLen(routes, key, n)
    decreases n
  {
    assert |key[..n]| == n;
    if n > 0 && key[..n] !in routes { OtherLengths(routes, key, n - 1, gone); }
  }

  /** Nothing between two probed lengths. */
  lemma {:induction false} SkipLengths(routes: Routes, key: Bytes, n: nat, m: nat)
    requires m <= n <= |key| && forall l :: m < l <= n ==> key[..l] !in routes
    ensures LongestLen(routes, key, n) == LongestLen(routes, key, m)
    decreases n
  {
    if m < n { SkipLengths(routes, key, n - 1, m); }
  }

  lemma {:induction false} NoMatch(routes: Routes, key: Bytes, n: nat)
    requires n <= |key| && forall l :: 0 <= l <= n ==> key[..l] !in routes
    ensures LongestLen(routes, key, n) == None
    decreases n
  {
    if n > 0 { NoMatch(routes, key, n - 1); }
  }

  // ---------- invariants ----------

  predicate Descending(lengths: seq<nat>) { forall i, j :: 0 <= i < j < |lengths| ==> lengths[i] > lengths[j] }

  predicate NoDup(order: seq<Bytes>) { forall i, j :: 0 <= i < j < |order| ==> order[i] != order[j] }

  /** `order` lists the keys of the map, each once. */
  ghost predicate Lists(order: seq<Bytes>, routes: Routes) { NoDup(order) && forall p :: p in order <==> p in routes }

  /** The cached route for this prefix of the key is the given one. */
  predicate Serves(routes: Routes, key: Bytes, route: Route) {
    && route.childDepth <= |key| && key[..route.childDepth] in routes
    && routes[key[..route.childDepth]] == route
  }

  predicate RoutesOk(routes: Routes) {
    forall p :: p in routes ==> routes[p].childDepth == |p| && |p| <= ROUTE_PREFIX_MAX
  }

  predicate Covers(lengths: seq<nat>, routes: Routes) { forall p :: p in routes ==> |p| in lengths }

  lemma ListsCount(order: seq<Bytes>, routes: Routes)
    requires Lists(order, routes)
    ensures |order| == |routes|
  {
    NoDupCount(order);
    assert Elems(order) == routes.Keys;
  }

  function Elems(order: seq<Bytes>): (r: set<Bytes>)
    ensures forall p :: p in r <==> p in order
  {
    if order == [] then {}
    else
      assert order == order[..|order| - 1] + [order[|order| - 1]];
      Elems(order[..|order| - 1]) + {order[|order| - 1]}
  }

  lemma {:induction false} NoDupCount(order: seq<Bytes>)
    requires NoDup(order)
    ensures |Elems(order)| == |order|
    decreases |order|
  {
    if order != [] {
      var front, last := order[..|order| - 1], order[|order| - 1];
      NoDupCount(front);
      assert last !in front;
    }
  }

  predicate Dominates(route: Route, parent: Guid, parentDepth: nat, child: Guid) {
    route.parent == parent && route.parentDepth == parentDepth && route.child == child
  }

  // ---------- prefix lengths ----------

  /** Binary search in a descending sequence, inserting what is missing. */
  method RememberPrefixLen(lengths: seq<nat>, len: nat) returns (r: seq<nat>)
    requires Descending(lengths)
    ensures Descending(r)
    ensures forall l :: l in r <==> l in lengths || l == len
  {
    var lo, hi := 0, |lengths|;
    while lo < hi
      invariant 0 <= lo <= hi <= |lengths|
      invariant forall i :: 0 <= i < lo ==> lengths[i] > len
      invariant forall i :: hi <= i < |lengths| ==> lengths[i] < len
    {
      var mid := (lo + hi) / 2;
      if lengths[mid] == len { return lengths; }
      if lengths[mid] > len { lo := mid + 1; } else { hi := mid; }
    }
    LengthIn(lengths, len, lo);
    r := lengths[..lo] + [len] + lengths[lo..];
  }

  lemma LengthIn(lengths: seq<nat>, len: nat, at: nat)
    requires Descending(lengths) && at <= |lengths|
    requires forall i :: 0 <= i < at ==> lengths[i] > len
    requires forall i :: at <= i < |lengths| ==> lengths[i] < len
    ensures var r := lengths[..at] + [len] + lengths[at..];
            Descending(r) && forall l :: l in r <==> l in lengths || l == len
  {
    var front, back := lengths[..at], lengths[at..];
    var r := front + [len] + back;
    assert lengths == front + back;
    forall i, j | 0 <= i < j < |r| ensures r[i] > r[j] {
      var x, y := if i < at then i else i - 1, if j < at then j else j - 1;
      if i != at { assert r[i] == lengths[x]; }
      if j != at { assert r[j] == lengths[y]; }
    }
  }

  class RouteCache {
    var routes: Routes
    var order: seq<Bytes>
    var lengths: seq<nat>
    var replaceCursor: nat

    ghost predicate Valid()
      reads this
    {
      && Lists(order, routes) && |order| <= ROUTE_CACHE_CAPACITY
      && RoutesOk(routes) && Descending(lengths) && Covers(lengths, routes)
    }

    constructor ()
      ensures Valid() && routes == map[]
    {
      routes, order, lengths, replaceCursor := map[], [], [], 0;
    }

    /** Probes the known lengths from the longest: the longest cached prefix, or none. */
    method Lookup(key: Bytes) returns (hit: Option<Route>)
      requires Valid()
      ensures match LongestLen(routes, key, |key|)
              case None => hit == None
              case Some(n) => hit == Some(routes[key[..n]])
    {
      for i := 0 to |lengths|
        invariant forall j :: 0 <= j < i ==> lengths[j] > |key| || key[..lengths[j]] !in routes
      {
        var len := lengths[i];
        if len <= |key| && key[..len] in routes {
          HitIsLongest(routes, lengths, key, i);
          return Some(routes[key[..len]]);
        }
      }
      KnownLengths(routes, lengths, key);
      NoMatch(routes, key, |key|);
      hit := None;
    }

    /** Drops a stale route if it is still the one the caller saw. */
    method Invalidate(key: Bytes, route: Route)
      requires Valid()
      modifies this
      ensures Valid() && replaceCursor == old(replaceCursor)
      ensures if Serves(old(routes), key, route)
              then routes == old(routes) - {key[..route.childDepth]}
              else routes == old(routes) && order == old(order) && lengths == old(lengths)
    {
      if route.childDepth > |key| { return; }
      var prefix := key[..route.childDepth];
      if prefix !in routes || routes[prefix] != route { return; }
      routes := routes - {prefix};
      order := Retain(order, routes);
      lengths := RebuildPrefixLengths(routes);
    }

    /** After a miss on the parent version: only that version changes. */
    method RefreshParentVersion(key: Bytes, route: Route, version: nat)
      requires Valid()
      modifies this`routes
      ensures Valid() && routes.Keys == old(routes).Keys
      ensures forall p :: p in routes ==>
        (var hit := route.childDepth <= |key| && p == key[..route.childDepth] && old(routes)[p] == route;
         routes[p] == if hit then old(routes)[p].(parentVersion := version) else old(routes)[p])
    {
      if route.childDepth > |key| { return; }
      var prefix := key[..route.childDepth];
      if prefix in routes && routes[prefix] == route {
        routes := routes[prefix := route.(parentVersion := version)];
      }
    }

    method HasDominatingPrefix(prefix: Bytes, parent: Guid, parentDepth: nat, child: Guid) returns (r: bool)
      requires Valid()
      ensures r <==>
        exists l :: && 0 <= l < |prefix| && prefix[..l] in routes
                    && Dominates(routes[prefix[..l]], parent, parentDepth, child)
    {
      for i := 0 to |lengths|
        invariant forall j :: 0 <= j < i && lengths[j] < |prefix| && prefix[..lengths[j]] in routes ==>
          !Dominates(routes[prefix[..lengths[j]]], parent, parentDepth, child)
      {
        var len := lengths[i];
        if len < |prefix| && prefix[..len] in routes && Dominates(routes[prefix[..len]], parent, parentDepth, child) {
          return true;
        }
      }
      assert forall l :: 0 <= l < |prefix| && prefix[..l] in routes ==> |prefix[..l]| in lengths;
      r := false;
    }

    /** Drops the longer routes that the new one makes redundant. */
    method PruneDominatedPrefixes(prefix: Bytes, parent: Guid, parentDepth: nat, child: Guid)
      requires Valid()
      modifies this`routes, this`order, this`lengths
      ensures Valid() && |order| <= |old(order)|
      ensures (forall p :: p in old(routes) ==> p in routes) ==> order == old(order)
      ensures forall p ::
        p in routes <==> p in old(routes) && !Redundant(old(routes), p, prefix, parent, parentDepth, child)
      ensures forall p :: p in routes ==> routes[p] == old(routes)[p]
    {
      var redundant := set p | p in routes && Redundant(routes, p, prefix, parent, parentDepth, child);
      var kept := routes - redundant;
      order := Retain(order, kept);
      routes := kept;
      if redundant != {} { lengths := RebuildPrefixLengths(routes); }
    }

    /** Records a crossing. A known prefix is overwritten in place; one that a shorter route already
        serves is not added; a full cache gives up the route under the cursor. */
    method Learn(key: Bytes, parent: Guid, parentDepth: nat, parentVersion: nat, child: Guid, childDepth: nat)
      requires Valid()
      modifies this
      ensures Valid()
      ensures |old(order)| == |old(routes)| <= 16384
      ensures childDepth > |key| || childDepth > 96 ==> routes == old(routes) && replaceCursor == old(replaceCursor)
      ensures childDepth <= |key| && childDepth <= 96 ==>
        Learned(old(routes), routes, key[..childDepth], Route(parent, parentDepth, parentVersion, child, childDepth))
      ensures childDepth <= |key| && childDepth <= 96 ==>
        var entry := Route(parent, parentDepth, parentVersion, child, childDepth);
        if Evicts(old(routes), key[..childDepth], entry) then
          && replaceCursor == old(replaceCursor) + 1
          && routes == (old(routes) - {old(order)[old(replaceCursor) % 16384]})[key[..childDepth] := entry]
        else replaceCursor == old(replaceCursor)
      ensures childDepth <= |key| && childDepth <= 96 && key[..childDepth] !in old(routes) ==>
        forall p :: p in routes && key[..childDepth] < p && key[..childDepth] in routes ==>
          routes[p].parent != parent || routes[p].parentDepth != parentDepth || routes[p].child != child
    {
      hide Lists, RoutesOk, Covers, Descending, Learned, Evicts;
      ListsCount(order, routes);
      if childDepth > |key| || childDepth > ROUTE_PREFIX_MAX { return; }
      var prefix := key[..childDepth];
      var entry := Route(parent, parentDepth, parentVersion, child, childDepth);
      if prefix in routes {
        Overwrite(order, lengths, routes, prefix, entry);
        LearnedKnown(routes, prefix, entry);
        routes := routes[prefix := entry];
        return;
      }
      var served := HasDominatingPrefix(prefix, parent, parentDepth, child);
      if served {
        LearnedServed(routes, prefix, entry);
        return;
      }
      Add(prefix, entry);
    }

    /** A route that is neither known nor served: redundant longer ones make room first. */
    method Add(prefix: Bytes, entry: Route)
      requires Valid() && prefix !in routes && entry.childDepth == |prefix| <= ROUTE_PREFIX_MAX
      requires Unserved(routes, prefix, entry)
      modifies this
      ensures Valid() && |old(order)| == |old(routes)| <= 16384 && Learned(old(routes), routes, prefix, entry)
      ensures if Evicts(old(routes), prefix, entry) then
                && replaceCursor == old(replaceCursor) + 1
                && routes == (old(routes) - {old(order)[old(replaceCursor) % 16384]})[prefix := entry]
              else replaceCursor == old(replaceCursor)
      ensures prefix in routes && forall p :: p in routes && prefix < p ==>
        routes[p].parent != entry.parent || routes[p].parentDepth != entry.parentDepth || routes[p].child != entry.child
    {
      hide Lists, RoutesOk, Covers, Descending, Learned, LostOnly;
      ghost var before := routes;
      ListsCount(order, routes);
      PruneDominatedPrefixes(prefix, entry.parent, entry.parentDepth, entry.child);
      ListsCount(order, routes);
      ghost var pruned := routes;
      if p :| p in before && p !in routes {
        PrunedLess(before, routes, p);
        assert Redundant(before, p, prefix, entry.parent, entry.parentDepth, entry.child);
      } else {
        PrunedNone(before, routes);
      }
      ghost var evicted := Insert(prefix, entry);
      AddedIsLearned(before, pruned, routes, prefix, entry, evicted);
    }

    /** Adds a new prefix, in place of the route under the cursor when the cache is full. */
    method Insert(prefix: Bytes, entry: Route) returns (ghost evicted: Bytes)
      requires Valid() && prefix !in routes && entry.childDepth == |prefix| <= ROUTE_PREFIX_MAX
      modifies this
      ensures Valid()
      ensures |old(order)| == |old(routes)| <= 16384
      ensures |old(routes)| < 16384 ==>
        && routes == old(routes)[prefix := entry] && order == old(order) + [prefix]
        && replaceCursor == old(replaceCursor)
      ensures |old(routes)| == 16384 ==>
        && evicted == old(order)[old(replaceCursor) % 16384] && routes == (old(routes) - {evicted})[prefix := entry]
        && order == old(order)[old(replaceCursor) % 16384 := prefix] && replaceCursor == old(replaceCursor) + 1
    {
      hide Lists, RoutesOk, Covers, Descending;
      evicted := prefix;
      var lens := RememberPrefixLen(lengths, |prefix|);
      ListsCount(order, routes);
      if |routes| < ROUTE_CACHE_CAPACITY {
        AddRoute(order, lengths, lens, routes, prefix, entry);
        order, routes, lengths := order + [prefix], routes[prefix := entry], lens;
        return;
      }
      var idx := replaceCursor % ROUTE_CACHE_CAPACITY;
      replaceCursor := replaceCursor + 1;
      ReplaceRoute(order, lengths, lens, routes, idx, prefix, entry);
      var victim := order[idx];
      evicted := victim;
      order, routes, lengths := order[idx := prefix], (routes - {victim})[prefix := entry], lens;
    }
  }

  // ---------- steps ----------

  /** A longer prefix of the same crossing. */
  predicate Redundant(routes: Routes, p: Bytes, prefix: Bytes, parent: Guid, parentDepth: nat, child: Guid)
    requires p in routes
  {
    |p| > |prefix| && StartsWith(p, prefix) && Dominates(routes[p], parent, parentDepth, child)
  }

  /** Served already by a shorter route: nothing changes. Otherwise the route is in; known prefixes
      are untouched, redundant longer ones are gone, and a full cache gives up at most one other route. */
  ghost predicate Learned(before: Routes, after: Routes, prefix: Bytes, entry: Route) {
    if prefix in before then after == before[prefix := entry]
    else if exists l :: 0 <= l < |prefix| && prefix[..l] in before
                     && Dominates(before[prefix[..l]], entry.parent, entry.parentDepth, entry.child)
      then after == before
    else
      && prefix in after && after[prefix] == entry
      && (forall p :: p in after && p != prefix ==>
            && p in before && after[p] == before[p]
            && !Redundant(before, p, prefix, entry.parent, entry.parentDepth, entry.child))
      && (exists evicted :: LostOnly(before, after, prefix, entry, evicted))
      && (|before| < ROUTE_CACHE_CAPACITY ==> LostOnly(before, after, prefix, entry, prefix))
  }

  /** The cache is full, the route is new, and none of the others makes room for it. */
  ghost predicate Evicts(routes: Routes, prefix: Bytes, entry: Route) {
    && |routes| == 16384 && prefix !in routes && Unserved(routes, prefix, entry)
    && (forall p :: p in routes ==> !Redundant(routes, p, prefix, entry.parent, entry.parentDepth, entry.child))
  }

  /** No shorter route serves the same crossing. */
  ghost predicate Unserved(routes: Routes, prefix: Bytes, entry: Route) {
    forall l :: 0 <= l < |prefix| && prefix[..l] in routes ==>
      !Dominates(routes[prefix[..l]], entry.parent, entry.parentDepth, entry.child)
  }

  lemma LearnedKnown(routes: Routes, prefix: Bytes, entry: Route)
    requires prefix in routes
    ensures Learned(routes, routes[prefix := entry], prefix, entry) && !Evicts(routes, prefix, entry)
  {
  }

  lemma LearnedServed(routes: Routes, prefix: Bytes, entry: Route)
    requires prefix !in routes && !Unserved(routes, prefix, entry)
    ensures Learned(routes, routes, prefix, entry) && !Evicts(routes, prefix, entry)
  {
  }

  lemma AddedIsLearned(before: Routes, pruned: Routes, after: Routes, prefix: Bytes, entry: Route, evicted: Bytes)
    requires prefix !in before && Unserved(before, prefix, entry) && |pruned| <= |before|
    requires forall p ::
      p in pruned <==> p in before && !Redundant(before, p, prefix, entry.parent, entry.parentDepth, entry.child)
    requires forall p :: p in pruned ==> pruned[p] == before[p]
    requires after == (if |pruned| < 16384 then pruned else pruned - {evicted})[prefix := entry]
    ensures Learned(before, after, prefix, entry)
  {
    assert LostOnly(before, after, prefix, entry, evicted);
  }

  lemma PrunedLess(before: Routes, after: Routes, p: Bytes)
    requires forall q :: q in after ==> q in before
    requires p in before && p !in after
    ensures |after| < |before|
  {
    var rest := before.Keys - {p};
    assert rest == after.Keys + (rest - after.Keys);
  }

  lemma PrunedNone(before: Routes, after: Routes)
    requires forall q :: q in after ==> q in before && after[q] == before[q]
    requires forall q :: q in before ==> q in after
    ensures after == before
  {
  }

  ghost predicate LostOnly(before: Routes, after: Routes, prefix: Bytes, entry: Route, evicted: Bytes) {
    forall p :: p in before && p != evicted ==>
      p in after || Redundant(before, p, prefix, entry.parent, entry.parentDepth, entry.child)
  }

  lemma KnownLengths(routes: Routes, lengths: seq<nat>, key: Bytes)
    requires Covers(lengths, routes)
    ensures forall l :: 0 <= l <= |key| && key[..l] in routes ==> l in lengths
  {
    forall l | 0 <= l <= |key| && key[..l] in routes ensures l in lengths { assert |key[..l]| == l; }
  }

  lemma HitIsLongest(routes: Routes, lengths: seq<nat>, key: Bytes, i: nat)
    requires i < |lengths| && Descending(lengths) && Covers(lengths, routes)
    requires lengths[i] <= |key| && key[..lengths[i]] in routes
    requires forall j :: 0 <= j < i ==> lengths[j] > |key| || key[..lengths[j]] !in routes
    ensures LongestLen(routes, key, |key|) == Some(lengths[i])
  {
    KnownLengths(routes, lengths, key);
    SkipLengths(routes, key, |key|, lengths[i]);
  }

  method Retain(order: seq<Bytes>, kept: Routes) returns (r: seq<Bytes>)
    requires NoDup(order) && forall p :: p in kept ==> p in order
    ensures Lists(r, kept) && |r| <= |order|
    ensures (forall p :: p in order ==> p in kept) ==> r == order
  {
    r := [];
    for i := 0 to |order|
      invariant |r| <= i && NoDup(r)
      invariant (forall p :: p in order ==> p in kept) ==> r == order[..i]
      invariant forall p :: p in r <==> p in kept && p in order[..i]
    {
      assert order[i] !in order[..i];
      assert order[..i + 1] == order[..i] + [order[i]];
      if order[i] in kept { r := r + [order[i]]; }
    }
    assert order[..|order|] == order;
  }

  /** The lengths of all prefixes, longest first, each once. */
  method RebuildPrefixLengths(routes: Routes) returns (lengths: seq<nat>)
    ensures Descending(lengths) && Covers(lengths, routes)
    ensures forall l :: l in lengths ==> exists p :: p in routes && |p| == l
  {
    lengths := [];
    var todo := routes.Keys;
    while todo != {}
      invariant todo <= routes.Keys && Descending(lengths)
      invariant forall p :: p in routes && p !in todo ==> |p| in lengths
      invariant forall l :: l in lengths ==> exists p :: p in routes && |p| == l
      decreases |todo|
    {
      var p :| p in todo;
      todo := todo - {p};
      lengths := RememberPrefixLen(lengths, |p|);
    }
  }

  lemma Overwrite(order: seq<Bytes>, lengths: seq<nat>, routes: Routes, prefix: Bytes, entry: Route)
    requires Lists(order, routes) && RoutesOk(routes) && Covers(lengths, routes)
    requires prefix in routes && entry.childDepth == |prefix|
    ensures Lists(order, routes[prefix := entry]) && RoutesOk(routes[prefix := entry])
    ensures Covers(lengths, routes[prefix := entry])
  {
  }

  lemma AddRoute(order: seq<Bytes>, lengths: seq<nat>, lens: seq<nat>, routes: Routes, prefix: Bytes, entry: Route)
    requires Lists(order, routes) && RoutesOk(routes) && Covers(lengths, routes)
    requires prefix !in routes && entry.childDepth == |prefix| <= ROUTE_PREFIX_MAX
    requires forall l :: l in lens <==> l in lengths || l == |prefix|
    ensures Lists(order + [prefix], routes[prefix := entry]) && RoutesOk(routes[prefix := entry])
    ensures Covers(lens, routes[prefix := entry])
  {
    assert forall p :: p in order + [prefix] <==> p in order || p == prefix;
  }

  lemma ReplaceRoute(order: seq<Bytes>, lengths: seq<nat>, lens: seq<nat>, routes: Routes, idx: nat, prefix: Bytes,
                     entry: Route)
    requires Lists(order, routes) && RoutesOk(routes) && Covers(lengths, routes)
    requires prefix !in routes && entry.childDepth == |prefix| <= ROUTE_PREFIX_MAX && idx < |order|
    requires forall l :: l in lens <==> l in lengths || l == |prefix|
    ensures var after := (routes - {order[idx]})[prefix := entry];
            Lists(order[idx := prefix], after) && RoutesOk(after) && Covers(lens, after)
  {
    var order', after := order[idx := prefix], (routes - {order[idx]})[prefix := entry];
    forall p ensures p in order' <==> p in after {
      if p in order' {
        var i :| 0 <= i < |order'| && order'[i] == p;
        if i != idx { assert order[i] == p && p in order; }
      }
      if p in after && p != prefix {
        assert p in order;
        var i :| 0 <= i < |order| && order[i] == p;
        assert order'[i] == p;
      }
      if p == prefix { assert order'[idx] == prefix; }
    }
    forall i, j | 0 <= i < j < |order'| ensures order'[i] != order'[j] {
      assert order[i] in order && order[j] in order;
    }
  }
}
