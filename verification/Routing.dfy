/** Selection of a location by path and of a server by host name: loops that
    keep the best match so far. */
module Routing {
  import opened Octets

  // What two candidates are compared by: the kind of match, then its length.
  datatype Key = Key(rank: nat, length: nat)

  const NOTHING: Key := Key(0, 0)

  predicate Below(a: Key, b: Key) { a.rank < b.rank || (a.rank == b.rank && a.length < b.length) }

  /** The earliest of the candidates with the greatest key, if any is above
      matching nothing. */
  predicate IsBest(keys: seq<Key>, best: Option<nat>) {
    match best
    case None => forall j :: 0 <= j < |keys| ==> !Below(NOTHING, keys[j])
    case Some(i) =>
      && i < |keys| && Below(NOTHING, keys[i])
      && (forall j :: 0 <= j < |keys| ==> !Below(keys[i], keys[j]))
      && (forall j :: 0 <= j < i ==> Below(keys[j], keys[i]))
  }

  function KeyOf(keys: seq<Key>, best: Option<nat>): Key
    requires IsBest(keys, best)
  {
    if best.Some? then keys[best.value] else NOTHING
  }

  // The loops' step: a later candidate wins only if it is strictly better.
  lemma NextBest(keys: seq<Key>, best: Option<nat>, key: Key)
    requires IsBest(keys, best)
    ensures IsBest(keys + [key], if Below(KeyOf(keys, best), key) then Some(|keys|) else best)
  {
    var more := keys + [key];
    assert forall j :: 0 <= j < |keys| ==> more[j] == keys[j];
    assert forall j :: 0 <= j < |keys| ==> !Below(KeyOf(keys, best), keys[j]);
  }

  // ----- locations

  datatype Route = Route(path: Bytes, exact: bool)

  datatype UriMatch = UriMatch(path: Bytes, exact: bool)

  // Location::MatchUriPath
  function MatchUriPath(path: Bytes, route: Route): UriMatch {
    if path == route.path then UriMatch(route.path, route.exact)
    else if !route.exact && StartsWith(path, route.path) then UriMatch(route.path, false)
    else UriMatch([], false)
  }

  function UriKey(m: UriMatch): Key { Key(if m.exact then 1 else 0, |m.path|) }

  function RouteKeys(path: Bytes, routes: seq<Route>): seq<Key> {
    seq(|routes|, i requires 0 <= i < |routes| => UriKey(MatchUriPath(path, routes[i])))
  }

  method ChooseLocation(path: Bytes, routes: seq<Route>) returns (best: Option<nat>)
    ensures IsBest(RouteKeys(path, routes), best)
  {
    best := None;
    var bestMatch := UriMatch([], false);
    for i := 0 to |routes|
      invariant IsBest(RouteKeys(path, routes[..i]), best)
      invariant KeyOf(RouteKeys(path, routes[..i]), best) == UriKey(bestMatch)
    {
      var m := MatchUriPath(path, routes[i]);
      assert RouteKeys(path, routes[..i + 1]) == RouteKeys(path, routes[..i]) + [UriKey(m)];
      NextBest(RouteKeys(path, routes[..i]), best, UriKey(m));
      if (|m.path| > |bestMatch.path| && m.exact == bestMatch.exact) || (m.exact && !bestMatch.exact) {
        bestMatch := m;
        best := Some(i);
      }
    }
    assert routes[..|routes|] == routes;
  }

  /** What a location key says: an exact route that is the path itself, or else
      the longest route the path starts with. */
  lemma LocationChosen(path: Bytes, routes: seq<Route>, best: Option<nat>)
    requires IsBest(RouteKeys(path, routes), best)
    ensures best.Some? ==>
              var r := routes[best.value];
              && StartsWith(path, r.path)
              && (r.exact ==> path == r.path)
              && ((exists j :: 0 <= j < |routes| && routes[j] == Route(path, true)) ==> r == Route(path, true))
              && (!r.exact ==> forall j :: 0 <= j < |routes| && !routes[j].exact && StartsWith(path, routes[j].path)
                                 ==> |routes[j].path| <= |r.path|)
    ensures best.None? ==> forall j :: 0 <= j < |routes| ==>
              && routes[j] != Route(path, true)
              && (StartsWith(path, routes[j].path) && !routes[j].exact ==> routes[j].path == [])
  {
    var keys := RouteKeys(path, routes);
    assert forall j :: 0 <= j < |routes| ==> keys[j] == UriKey(MatchUriPath(path, routes[j]));
    if best.Some? {
      LocationMatches(path, routes[best.value]);
      forall j | 0 <= j < |routes| ensures !Below(keys[best.value], UriKey(MatchUriPath(path, routes[j]))) {
      }
    } else {
      forall j | 0 <= j < |routes| ensures !Below(NOTHING, UriKey(MatchUriPath(path, routes[j]))) {
        assert keys[j] == UriKey(MatchUriPath(path, routes[j]));
      }
    }
  }

  lemma LocationMatches(path: Bytes, r: Route)
    requires Below(NOTHING, UriKey(MatchUriPath(path, r)))
    ensures StartsWith(path, r.path) && (r.exact ==> path == r.path)
    ensures MatchUriPath(path, r) == UriMatch(r.path, r.exact)
  {
    assert path[..|path|] == path;
  }

  /** Permuting the locations changes neither the matched path nor how it
      matched. */
  lemma LocationOfPermutation(path: Bytes, a: seq<Route>, b: seq<Route>, i: Option<nat>, j: Option<nat>)
    requires multiset(a) == multiset(b)
    requires IsBest(RouteKeys(path, a), i) && IsBest(RouteKeys(path, b), j)
    ensures i.Some? <==> j.Some?
    ensures i.Some? ==> a[i.value] == b[j.value]
  {
    NoRouteAbove(path, a, b, i, j);
    NoRouteAbove(path, b, a, j, i);
    if i.Some? && j.Some? {
      LocationMatches(path, a[i.value]);
      LocationMatches(path, b[j.value]);
      assert a[i.value].path == path[..|a[i.value].path|] && b[j.value].path == path[..|b[j.value].path|];
    }
  }

  lemma NoRouteAbove(path: Bytes, a: seq<Route>, b: seq<Route>, i: Option<nat>, j: Option<nat>)
    requires multiset(a) == multiset(b)
    requires IsBest(RouteKeys(path, a), i) && IsBest(RouteKeys(path, b), j)
    ensures !Below(KeyOf(RouteKeys(path, b), j), KeyOf(RouteKeys(path, a), i))
  {
    if i.Some? {
      assert a[i.value] in multiset(a);
      assert a[i.value] in b;
      var k :| 0 <= k < |b| && b[k] == a[i.value];
      assert RouteKeys(path, b)[k] == RouteKeys(path, a)[i.value];
    }
  }

  // ----- servers

  datatype MatchType = NoMatch | SuffixMatch | PrefixMatch | ExactMatch

  datatype NameMatch = NameMatch(kind: MatchType, name: Bytes)

  const NO_NAME: NameMatch := NameMatch(NoMatch, [])

  // "*.x" matches the end of a host, "x.*" the beginning of one.
  function WildcardMatch(host: Bytes, name: Bytes): MatchType {
    if name == [] || |host| < |name| then NoMatch
    else if name[0] == '*' && host[|host| - (|name| - 1)..] == name[1..] then PrefixMatch
    else if name[|name| - 1] == '*' && |name| > 2 && host[..|name| - 1] == name[..|name| - 1] then SuffixMatch
    else NoMatch
  }

  /** The host's own name if it is listed, else the last listed wildcard that
      covers it. */
  predicate IsNameMatch(host: Bytes, names: seq<Bytes>, m: NameMatch) {
    if host in names then m == NameMatch(ExactMatch, host)
    else if m.kind == NoMatch then
      m == NO_NAME && forall i :: 0 <= i < |names| ==> WildcardMatch(host, names[i]) == NoMatch
    else exists k :: 0 <= k < |names| && names[k] == m.name && WildcardMatch(host, names[k]) == m.kind
                     && forall i :: k < i < |names| ==> WildcardMatch(host, names[i]) == NoMatch
  }

  method MatchHostName(host: Bytes, names: seq<Bytes>) returns (best: NameMatch)
    ensures IsNameMatch(host, names, best)
  {
    best := NO_NAME;
    for i := 0 to |names|
      invariant host !in names[..i] && IsNameMatch(host, names[..i], best)
    {
      var name := names[i];
      if host == name {
        return NameMatch(ExactMatch, name);
      }
      assert names[..i + 1] == names[..i] + [name];
      ghost var last := i;
      if name != [] && name[0] == '*' && |host| >= |name| && host[|host| - (|name| - 1)..] == name[1..] {
        best := NameMatch(PrefixMatch, name);
        assert names[..i + 1][last] == name;
      } else if name != [] && name[|name| - 1] == '*' && |host| >= |name| && |name| > 2
                && host[..|name| - 1] == name[..|name| - 1] {
        best := NameMatch(SuffixMatch, name);
        assert names[..i + 1][last] == name;
      } else {
        NoLaterMatch(host, names[..i], name, best);
      }
    }
    assert names[..|names|] == names;
  }

  lemma NoLaterMatch(host: Bytes, names: seq<Bytes>, name: Bytes, m: NameMatch)
    requires host !in names && IsNameMatch(host, names, m) && host != name && WildcardMatch(host, name) == NoMatch
    ensures IsNameMatch(host, names + [name], m)
  {
    var more := names + [name];
    assert host !in more;
    assert forall i :: 0 <= i < |names| ==> more[i] == names[i];
    if m.kind != NoMatch {
      var k :| 0 <= k < |names| && names[k] == m.name && WildcardMatch(host, names[k]) == m.kind
               && forall i :: k < i < |names| ==> WildcardMatch(host, names[i]) == NoMatch;
      assert more[k] == m.name;
    }
  }

  function Rank(k: MatchType): nat {
    match k
    case NoMatch => 0
    case SuffixMatch => 1
    case PrefixMatch => 2
    case ExactMatch => 3
  }

  function NameKey(m: NameMatch): Key { Key(Rank(m.kind), |m.name|) }

  function NameKeys(ms: seq<NameMatch>): seq<Key> { seq(|ms|, i requires 0 <= i < |ms| => NameKey(ms[i])) }

  predicate AreMatches(host: Bytes, servers: seq<seq<Bytes>>, ms: seq<NameMatch>) {
    |ms| == |servers| && forall i :: 0 <= i < |servers| ==> IsNameMatch(host, servers[i], ms[i])
  }

  /** The earliest server whose match is best, or the first if none matches.
      `servers` are the name lists of the servers on one socket. */
  method ChooseServer(host: Bytes, servers: seq<seq<Bytes>>) returns (chosen: nat, ghost ms: seq<NameMatch>)
    requires servers != []
    ensures chosen < |servers| && AreMatches(host, servers, ms)
    ensures IsBest(NameKeys(ms), Some(chosen)) || (IsBest(NameKeys(ms), None) && chosen == 0)
  {
    var bestMatch := NO_NAME;
    var best: Option<nat> := None;
    ms := [];
    for i := 0 to |servers|
      invariant AreMatches(host, servers[..i], ms)
      invariant IsBest(NameKeys(ms), best) && KeyOf(NameKeys(ms), best) == NameKey(bestMatch)
      invariant best.None? <==> bestMatch.kind == NoMatch
    {
      var m := MatchHostName(host, servers[i]);
      NextBest(NameKeys(ms), best, NameKey(m));
      assert NameKeys(ms + [m]) == NameKeys(ms) + [NameKey(m)];
      ms := ms + [m];
      if (|m.name| > |bestMatch.name| && m.kind == bestMatch.kind) || Rank(m.kind) > Rank(bestMatch.kind) {
        NoMatchHasNoName(host, servers[i], m);
        bestMatch := m;
        best := Some(i);
      }
    }
    assert servers[..|servers|] == servers;
    chosen := if bestMatch.kind == NoMatch then 0 else best.value;
  }

  lemma NoMatchHasNoName(host: Bytes, names: seq<Bytes>, m: NameMatch)
    requires IsNameMatch(host, names, m)
    ensures m.kind == NoMatch ==> m.name == []
  {
  }

  /** A match of a given kind and length has only one name. */
  lemma NameOfKey(host: Bytes, names: seq<Bytes>, m: NameMatch, others: seq<Bytes>, n: NameMatch)
    requires IsNameMatch(host, names, m) && IsNameMatch(host, others, n) && NameKey(m) == NameKey(n)
    ensures m == n
  {
    NameOfMatch(host, names, m);
    NameOfMatch(host, others, n);
    hide IsNameMatch;
    assert m.kind == n.kind;
    if m.kind == PrefixMatch {
      SameTail(m.name, n.name);
    } else if m.kind == SuffixMatch {
      SameFront(m.name, n.name);
    }
  }

  lemma SameTail(a: Bytes, b: Bytes)
    requires a != [] && b != [] && a[0] == b[0] && a[1..] == b[1..]
    ensures a == b
  {
    assert a == [a[0]] + a[1..] && b == [b[0]] + b[1..];
  }

  lemma SameFront(a: Bytes, b: Bytes)
    requires a != [] && |a| == |b| && a[|a| - 1] == b[|b| - 1] && a[..|a| - 1] == b[..|b| - 1]
    ensures a == b
  {
    assert a == a[..|a| - 1] + [a[|a| - 1]] && b == b[..|b| - 1] + [b[|b| - 1]];
  }

  lemma NameOfMatch(host: Bytes, names: seq<Bytes>, m: NameMatch)
    requires IsNameMatch(host, names, m)
    ensures match m.kind
            case NoMatch => m.name == []
            case ExactMatch => m.name == host
            case PrefixMatch =>
              m.name != [] && m.name[0] == '*' && |m.name| <= |host| && host[|host| - (|m.name| - 1)..] == m.name[1..]
            case SuffixMatch =>
              && m.name != [] && m.name[|m.name| - 1] == '*' && |m.name| <= |host|
              && host[..|m.name| - 1] == m.name[..|m.name| - 1]
  {
  }

  /** Permuting the servers on a socket changes neither the kind nor the name of
      the winning match. */
  lemma ServerOfPermutation(host: Bytes, a: seq<seq<Bytes>>, b: seq<seq<Bytes>>,
                            ma: seq<NameMatch>, mb: seq<NameMatch>, i: nat, j: nat)
    requires AreMatches(host, a, ma) && AreMatches(host, b, mb) && multiset(a) == multiset(b)
    requires IsBest(NameKeys(ma), Some(i)) && IsBest(NameKeys(mb), Some(j))
    ensures ma[i] == mb[j]
  {
    NoServerAbove(host, a, b, ma, mb, i, j);
    NoServerAbove(host, b, a, mb, ma, j, i);
    NameOfKey(host, a[i], ma[i], b[j], mb[j]);
  }

  lemma NoServerAbove(host: Bytes, a: seq<seq<Bytes>>, b: seq<seq<Bytes>>,
                      ma: seq<NameMatch>, mb: seq<NameMatch>, i: nat, j: nat)
    requires AreMatches(host, a, ma) && AreMatches(host, b, mb) && multiset(a) == multiset(b)
    requires IsBest(NameKeys(ma), Some(i)) && IsBest(NameKeys(mb), Some(j))
    ensures !Below(NameKey(mb[j]), NameKey(ma[i]))
  {
    assert a[i] in multiset(a);
    assert a[i] in b;
    var k :| 0 <= k < |b| && b[k] == a[i];
    SameNamesSameMatch(host, a[i], ma[i], mb[k]);
    assert NameKeys(mb)[k] == NameKeys(ma)[i];
  }

  lemma SameNamesSameMatch(host: Bytes, names: seq<Bytes>, m: NameMatch, n: NameMatch)
    requires IsNameMatch(host, names, m) && IsNameMatch(host, names, n)
    ensures m == n
  {
    if host !in names && m.kind != NoMatch && n.kind != NoMatch {
      var k :| 0 <= k < |names| && names[k] == m.name && WildcardMatch(host, names[k]) == m.kind
               && forall i :: k < i < |names| ==> WildcardMatch(host, names[i]) == NoMatch;
      var l :| 0 <= l < |names| && names[l] == n.name && WildcardMatch(host, names[l]) == n.kind
               && forall i :: l < i < |names| ==> WildcardMatch(host, names[i]) == NoMatch;
      assert k == l;
    }
  }
}
