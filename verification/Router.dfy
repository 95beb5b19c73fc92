/**
The reverse proxy's routing table (crates/gaterust-proxy/src/router.rs) and the rule it stands
for: among the routes of the exact host the longest matching path prefix, and only if none
matches, the same among the routes of the wildcard that covers the host.
*/
module Routers {
  import opened Options
  import opened Domains
  import opened Paths

  datatype RouteConfig = RouteConfig(name: string, host: string, pathPrefix: string, upstream: string, certificateId: Option<string>)

  datatype Route = Route(name: string, upstream: string, tls: bool)

  datatype RouteEntry = RouteEntry(pathPrefix: string, route: Route)

  function EntryOf(c: RouteConfig): RouteEntry {
    RouteEntry(c.pathPrefix, Route(c.name, c.upstream, c.certificateId.Some?))
  }

  predicate PathMatches(path: string, prefix: string) {
    || path == prefix
    || (&& prefix <= path
        && (|| (prefix != [] && prefix[|prefix| - 1] == '/')
            || (|prefix| < |path| && path[|prefix|] == '/')))
  }

  predicate EndsWithSlash(prefix: string) {
    prefix != "" && prefix[|prefix| - 1] == '/'
  }

  /** Prefixes match whole segments: a path matches exactly if its segments begin with those of the
      prefix, and, where the prefix ends with a slash, go on after them. */
  lemma PathMatchesExactly(path: string, prefix: string)
    ensures PathMatches(path, prefix) <==>
              if EndsWithSlash(prefix) then
                var stem := Segments(prefix[..|prefix| - 1]); stem <= Segments(path) && |stem| < |Segments(path)|
              else Segments(prefix) <= Segments(path)
  {
    if EndsWithSlash(prefix) {
      var stem := prefix[..|prefix| - 1];
      assert prefix == stem + "/";
      SegmentsBegin(path, stem);
      if stem + "/" <= path {
        SegmentsGrow(path, stem);
      }
    } else {
      SegmentsBegin(path, prefix);
      assert prefix + "/" <= path <==> prefix <= path && |prefix| < |path| && path[|prefix|] == '/';
    }
  }

  function FindPath(entries: seq<RouteEntry>, path: string): Option<Route> {
    if entries == [] then None
    else if PathMatches(path, entries[0].pathPrefix) then Some(entries[0].route)
    else FindPath(entries[1..], path)
  }

  /** The first wildcard of the list that covers the host. */
  function FindWildcard(wildcard: seq<(string, seq<RouteEntry>)>, host: string): Option<seq<RouteEntry>> {
    if wildcard == [] then None
    else if WildcardMatches(host, wildcard[0].0) then Some(wildcard[0].1)
    else FindWildcard(wildcard[1..], host)
  }

  // ---- The rule ----

  /** No two routes have both the same host and the same path prefix. */
  predicate KeysUnique(routes: seq<RouteConfig>) {
    forall i, j | 0 <= i < j < |routes| :: routes[i].host != routes[j].host || routes[i].pathPrefix != routes[j].pathPrefix
  }

  predicate ForExactHost(c: RouteConfig, host: string) {
    StripStar(c.host).None? && c.host == host
  }

  predicate ForWildcard(c: RouteConfig, host: string) {
    StripStar(c.host).Some? && WildcardMatches(host, StripStar(c.host).value)
  }

  predicate LongestOf(routes: seq<RouteConfig>, path: string, c: RouteConfig) {
    && PathMatches(path, c.pathPrefix)
    && forall other <- routes | other.host == c.host && PathMatches(path, other.pathPrefix) :: |other.pathPrefix| <= |c.pathPrefix|
  }

  predicate NoExactMatch(routes: seq<RouteConfig>, host: string, path: string) {
    forall other <- routes :: !(ForExactHost(other, host) && PathMatches(path, other.pathPrefix))
  }

  predicate Chosen(routes: seq<RouteConfig>, host: string, path: string, c: RouteConfig) {
    && c in routes
    && LongestOf(routes, path, c)
    && (|| ForExactHost(c, host)
        || (ForWildcard(c, host) && NoExactMatch(routes, host, path)))
  }

  /** The answer the rule gives: a route it chooses, or nothing if it chooses none. */
  ghost predicate Answers(routes: seq<RouteConfig>, host: string, path: string, answer: Option<Route>) {
    match answer
    case Some(route) => exists c :: Chosen(routes, host, path, c) && IsRouteOf(route, c)
    case None => forall c :: !Chosen(routes, host, path, c)
  }

  /** The route has the name and the upstream configured, and TLS exactly if a certificate is. */
  predicate IsRouteOf(route: Route, c: RouteConfig) {
    route.name == c.name && route.upstream == c.upstream && (route.tls <==> c.certificateId.Some?)
  }

  // ---- The table ----

  function Entries(routes: seq<RouteConfig>, host: string): seq<RouteEntry> {
    if routes == [] then []
    else
      var last := routes[|routes| - 1];
      Entries(routes[..|routes| - 1], host) + if last.host == host then [EntryOf(last)] else []
  }

  predicate LongestFirst(entries: seq<RouteEntry>) {
    forall i, j | 0 <= i < j < |entries| :: |entries[j].pathPrefix| <= |entries[i].pathPrefix|
  }

  /** The entries of one host, sorted in any way that puts longer prefixes first. */
  predicate Lists(entries: seq<RouteEntry>, routes: seq<RouteConfig>, host: string) {
    multiset(entries) == multiset(Entries(routes, host)) && LongestFirst(entries)
  }

  predicate Placed(host: string, exact: map<string, seq<RouteEntry>>, wildcard: seq<(string, seq<RouteEntry>)>) {
    match StripStar(host)
    case None => host in exact
    case Some(suffix) => exists pair <- wildcard :: pair.0 == suffix
  }

  predicate AllListed(exact: map<string, seq<RouteEntry>>, wildcard: seq<(string, seq<RouteEntry>)>, routes: seq<RouteConfig>) {
    && (forall host <- exact :: StripStar(host).None? && Lists(exact[host], routes, host))
    && (forall pair <- wildcard :: Lists(pair.1, routes, "*." + pair.0))
  }

  predicate IsTable(exact: map<string, seq<RouteEntry>>, wildcard: seq<(string, seq<RouteEntry>)>, routes: seq<RouteConfig>) {
    && AllListed(exact, wildcard, routes)
    && forall c <- routes :: Placed(c.host, exact, wildcard)
  }

  function Find(exact: map<string, seq<RouteEntry>>, wildcard: seq<(string, seq<RouteEntry>)>, host: string, path: string): Option<Route> {
    var direct := if host in exact then FindPath(exact[host], path) else None;
    if direct.Some? then direct
    else
      var entries := FindWildcard(wildcard, host);
      if entries.Some? then FindPath(entries.value, path) else None
  }

  // ---- The table follows the rule ----

  lemma {:induction false} EntriesMembers(routes: seq<RouteConfig>, host: string)
    ensures forall e :: e in Entries(routes, host) <==> exists c :: c in routes && c.host == host && EntryOf(c) == e
  {
    if routes != [] {
      var init, last := routes[..|routes| - 1], routes[|routes| - 1];
      EntriesMembers(init, host);
      assert routes == init + [last];
    }
  }

  lemma ListsMembers(entries: seq<RouteEntry>, routes: seq<RouteConfig>, host: string)
    requires Lists(entries, routes, host)
    ensures forall e :: e in entries <==> exists c :: c in routes && c.host == host && EntryOf(c) == e
  {
    EntriesMembers(routes, host);
    forall e ensures e in entries <==> e in Entries(routes, host) {
      assert e in entries <==> e in multiset(entries);
      assert e in Entries(routes, host) <==> e in multiset(Entries(routes, host));
    }
  }

  /** The first match of a sorted list is a longest one. */
  lemma {:induction false} FindPathLongest(entries: seq<RouteEntry>, path: string)
    requires LongestFirst(entries)
    ensures match FindPath(entries, path)
            case None => forall e <- entries :: !PathMatches(path, e.pathPrefix)
            case Some(route) =>
              exists e <- entries ::
                && e.route == route && PathMatches(path, e.pathPrefix)
                && forall other <- entries | PathMatches(path, other.pathPrefix) :: |other.pathPrefix| <= |e.pathPrefix|
  {
    if entries != [] && !PathMatches(path, entries[0].pathPrefix) {
      FindPathLongest(entries[1..], path);
    }
  }

  /** Searching the list of a host finds its longest matching route, or none matches. */
  lemma FindPathChooses(entries: seq<RouteEntry>, routes: seq<RouteConfig>, host: string, path: string)
    requires Lists(entries, routes, host)
    ensures match FindPath(entries, path)
            case None => forall c <- routes | c.host == host :: !PathMatches(path, c.pathPrefix)
            case Some(route) => exists c <- routes :: c.host == host && LongestOf(routes, path, c) && EntryOf(c).route == route
  {
    ListsMembers(entries, routes, host);
    FindPathLongest(entries, path);
    match FindPath(entries, path)
    case None =>
      forall c | c in routes && c.host == host ensures !PathMatches(path, c.pathPrefix) {
        assert EntryOf(c) in entries;
      }
    case Some(route) =>
      var e :| e in entries && e.route == route && PathMatches(path, e.pathPrefix)
        && forall other <- entries | PathMatches(path, other.pathPrefix) :: |other.pathPrefix| <= |e.pathPrefix|;
      var c :| c in routes && c.host == host && EntryOf(c) == e;
      forall other | other in routes && other.host == c.host && PathMatches(path, other.pathPrefix)
        ensures |other.pathPrefix| <= |c.pathPrefix|
      {
        assert EntryOf(other) in entries;
      }
  }

  lemma {:induction false} FindWildcardFinds(wildcard: seq<(string, seq<RouteEntry>)>, host: string)
    ensures match FindWildcard(wildcard, host)
            case None => forall pair <- wildcard :: !WildcardMatches(host, pair.0)
            case Some(entries) => exists pair <- wildcard :: WildcardMatches(host, pair.0) && pair.1 == entries
  {
    if wildcard != [] && !WildcardMatches(host, wildcard[0].0) {
      FindWildcardFinds(wildcard[1..], host);
    }
  }

  /** Two wildcard hosts that cover one host are the same. */
  lemma SameWildcard(host: string, a: string, b: string)
    requires StripStar(a).Some? && WildcardMatches(host, StripStar(a).value)
    requires StripStar(b).Some? && WildcardMatches(host, StripStar(b).value)
    ensures a == b
  {
    OnlyOneSuffixMatches(host, StripStar(a).value);
    OnlyOneSuffixMatches(host, StripStar(b).value);
    StripStarInjective(a, b);
  }

  /** `find` is the rule: what it returns is chosen, and if it returns nothing, nothing is. */
  lemma FindFollowsRule(exact: map<string, seq<RouteEntry>>, wildcard: seq<(string, seq<RouteEntry>)>, routes: seq<RouteConfig>,
                        host: string, path: string)
    requires IsTable(exact, wildcard, routes)
    ensures Answers(routes, host, path, Find(exact, wildcard, host, path))
  {
    if host in exact {
      FindPathChooses(exact[host], routes, host, path);
    }
    var direct := if host in exact then FindPath(exact[host], path) else None;
    if direct.Some? {
      var c :| c in routes && c.host == host && LongestOf(routes, path, c) && EntryOf(c).route == direct.value;
      assert Chosen(routes, host, path, c);
    } else {
      assert NoExactMatch(routes, host, path);
      WildcardFollowsRule(exact, wildcard, routes, host, path);
    }
  }

  lemma WildcardFollowsRule(exact: map<string, seq<RouteEntry>>, wildcard: seq<(string, seq<RouteEntry>)>, routes: seq<RouteConfig>,
                            host: string, path: string)
    requires IsTable(exact, wildcard, routes) && NoExactMatch(routes, host, path)
    ensures var entries := FindWildcard(wildcard, host);
            Answers(routes, host, path, if entries.Some? then FindPath(entries.value, path) else None)
  {
    FindWildcardFinds(wildcard, host);
    match FindWildcard(wildcard, host)
    case None =>
      forall c ensures !Chosen(routes, host, path, c) {
        if c in routes && StripStar(c.host).Some? {
          assert Placed(c.host, exact, wildcard);
          var pair :| pair in wildcard && pair.0 == StripStar(c.host).value;
          assert !ForWildcard(c, host);
        }
      }
    case Some(entries) =>
      var pair :| pair in wildcard && WildcardMatches(host, pair.0) && pair.1 == entries;
      StarFollowsRule(entries, routes, pair.0, host, path);
  }

  /** The list of the wildcard that covers the host follows the rule, when the exact host has nothing. */
  lemma StarFollowsRule(entries: seq<RouteEntry>, routes: seq<RouteConfig>, suffix: string, host: string, path: string)
    requires WildcardMatches(host, suffix) && Lists(entries, routes, "*." + suffix) && NoExactMatch(routes, host, path)
    ensures Answers(routes, host, path, FindPath(entries, path))
  {
    var star := "*." + suffix;
    assert StripStar(star) == Some(suffix);
    FindPathChooses(entries, routes, star, path);
    match FindPath(entries, path)
    case Some(route) =>
      var c :| c in routes && c.host == star && LongestOf(routes, path, c) && EntryOf(c).route == route;
      assert Chosen(routes, host, path, c);
    case None =>
      forall c ensures !Chosen(routes, host, path, c) {
        if ForWildcard(c, host) {
          SameWildcard(host, c.host, star);
        }
      }
  }

  /** On validated routes the rule leaves no choice, so neither the order of the routes nor the
      order of the maps can matter. */
  lemma ChoiceIsUnique(routes: seq<RouteConfig>, host: string, path: string, a: RouteConfig, b: RouteConfig)
    requires KeysUnique(routes) && Chosen(routes, host, path, a) && Chosen(routes, host, path, b)
    ensures a == b
  {
    if ForWildcard(a, host) && ForWildcard(b, host) {
      SameWildcard(host, a.host, b.host);
    }
    assert a.host == b.host;
    assert |a.pathPrefix| == |b.pathPrefix|;
    assert a.pathPrefix == path[..|a.pathPrefix|] == b.pathPrefix;
    var i :| 0 <= i < |routes| && routes[i] == a;
    var j :| 0 <= j < |routes| && routes[j] == b;
    assert !(i < j) && !(j < i);
  }

  /** Any two tables of the same validated routes, however ordered, answer alike. */
  lemma OrderIrrelevant(exact: map<string, seq<RouteEntry>>, wildcard: seq<(string, seq<RouteEntry>)>,
                        exact': map<string, seq<RouteEntry>>, wildcard': seq<(string, seq<RouteEntry>)>,
                        routes: seq<RouteConfig>, routes': seq<RouteConfig>, host: string, path: string)
    requires IsTable(exact, wildcard, routes) && IsTable(exact', wildcard', routes')
    requires KeysUnique(routes) && multiset(routes) == multiset(routes')
    ensures Find(exact, wildcard, host, path) == Find(exact', wildcard', host, path)
  {
    FindFollowsRule(exact, wildcard, routes, host, path);
    FindFollowsRule(exact', wildcard', routes', host, path);
    SameAnswer(routes, routes', host, path, Find(exact, wildcard, host, path), Find(exact', wildcard', host, path));
  }

  /** The rule gives one answer to each request, whatever the order of the routes. */
  lemma SameAnswer(routes: seq<RouteConfig>, routes': seq<RouteConfig>, host: string, path: string,
                   one: Option<Route>, two: Option<Route>)
    requires KeysUnique(routes) && multiset(routes) == multiset(routes')
    requires Answers(routes, host, path, one) && Answers(routes', host, path, two)
    ensures one == two
  {
    forall c ensures c in routes <==> c in routes' {
      assert c in multiset(routes) <==> c in multiset(routes');
    }
    if one.Some? {
      var a :| Chosen(routes, host, path, a) && IsRouteOf(one.value, a);
      RuleIgnoresOrder(routes, routes', host, path, a);
    }
    if two.Some? {
      var b :| Chosen(routes', host, path, b) && IsRouteOf(two.value, b);
      RuleIgnoresOrder(routes, routes', host, path, b);
    }
    if one.Some? && two.Some? {
      var a :| Chosen(routes, host, path, a) && IsRouteOf(one.value, a);
      var b :| Chosen(routes', host, path, b) && IsRouteOf(two.value, b);
      ChoiceIsUnique(routes, host, path, a, b);
    }
  }

  lemma RuleIgnoresOrder(routes: seq<RouteConfig>, routes': seq<RouteConfig>, host: string, path: string, c: RouteConfig)
    requires forall r :: r in routes <==> r in routes'
    ensures Chosen(routes, host, path, c) <==> Chosen(routes', host, path, c)
  {
  }

  // ---- Building the table ----

  predicate Descending<T>(items: seq<T>, size: T -> nat) {
    forall i, j | 0 <= i < j < |items| :: size(items[j]) <= size(items[i])
  }

  method Insert<T>(sorted: seq<T>, item: T, size: T -> nat) returns (result: seq<T>)
    requires Descending(sorted, size)
    ensures Descending(result, size) && multiset(result) == multiset(sorted) + multiset{item}
  {
    var k := 0;
    while k < |sorted| && size(item) <= size(sorted[k])
      invariant 0 <= k <= |sorted|
      invariant forall a | 0 <= a < k :: size(item) <= size(sorted[a])
    {
      k := k + 1;
    }
    result := sorted[..k] + [item] + sorted[k..];
    InsertedDescending(sorted, item, size, k);
    InsertedItems(sorted, item, k);
  }

  lemma InsertedItems<T>(sorted: seq<T>, item: T, k: nat)
    requires k <= |sorted|
    ensures multiset(sorted[..k] + [item] + sorted[k..]) == multiset(sorted) + multiset{item}
  {
    assert sorted == sorted[..k] + sorted[k..];
  }

  lemma InsertedDescending<T>(sorted: seq<T>, item: T, size: T -> nat, k: nat)
    requires Descending(sorted, size) && k <= |sorted|
    requires forall a | 0 <= a < k :: size(item) <= size(sorted[a])
    requires k < |sorted| ==> size(sorted[k]) <= size(item)
    ensures Descending(sorted[..k] + [item] + sorted[k..], size)
  {
    var result := sorted[..k] + [item] + sorted[k..];
    forall i, j | 0 <= i < j < |result| ensures size(result[j]) <= size(result[i]) {
      assert i < k ==> result[i] == sorted[i];
      assert j > k ==> result[j] == sorted[j - 1];
      assert i > k ==> result[i] == sorted[i - 1];
      assert j < k ==> result[j] == sorted[j];
    }
  }

  /** Any order that puts larger items first; the source's sort is not stable either. */
  method SortDescending<T>(items: seq<T>, size: T -> nat) returns (sorted: seq<T>)
    ensures multiset(sorted) == multiset(items) && Descending(sorted, size)
  {
    sorted := [];
    for i := 0 to |items|
      invariant multiset(sorted) == multiset(items[..i]) && Descending(sorted, size)
    {
      assert items[..i + 1] == items[..i] + [items[i]];
      sorted := Insert(sorted, items[i], size);
    }
    assert items[..|items|] == items;
  }

  lemma {:induction false} EntriesEmpty(routes: seq<RouteConfig>, host: string)
    requires forall c <- routes :: c.host != host
    ensures Entries(routes, host) == []
  {
    if routes != [] {
      EntriesEmpty(routes[..|routes| - 1], host);
    }
  }

  /** Adding one route extends the list of its host and no other. */
  lemma EntriesStep(routes: seq<RouteConfig>, i: nat, host: string)
    requires i < |routes|
    ensures Entries(routes[..i + 1], host) == Entries(routes[..i], host) + if routes[i].host == host then [EntryOf(routes[i])] else []
  {
    assert routes[..i + 1][..i] == routes[..i];
  }

  /** The routes collected per host, before sorting. */
  predicate Collected(lists: map<string, seq<RouteEntry>>, routes: seq<RouteConfig>) {
    && (forall host <- lists :: lists[host] == Entries(routes, host))
    && (forall c <- routes :: c.host in lists)
  }

  lemma CollectedStep(lists: map<string, seq<RouteEntry>>, routes: seq<RouteConfig>, i: nat)
    requires i < |routes| && Collected(lists, routes[..i])
    ensures var host := routes[i].host;
            Collected(lists[host := (if host in lists then lists[host] else []) + [EntryOf(routes[i])]], routes[..i + 1])
  {
    var host := routes[i].host;
    var after := lists[host := (if host in lists then lists[host] else []) + [EntryOf(routes[i])]];
    forall other | other in after ensures after[other] == Entries(routes[..i + 1], other) {
      EntriesStep(routes, i, other);
      if host !in lists {
        EntriesEmpty(routes[..i], host);
      }
    }
    HostsStep(lists, after, routes, i);
  }

  lemma HostsStep(lists: map<string, seq<RouteEntry>>, after: map<string, seq<RouteEntry>>, routes: seq<RouteConfig>, i: nat)
    requires i < |routes| && (forall c <- routes[..i] :: c.host in lists) && lists.Keys + {routes[i].host} <= after.Keys
    ensures forall c <- routes[..i + 1] :: c.host in after
  {
    assert routes[..i + 1] == routes[..i] + [routes[i]];
  }

  method Collect(routes: seq<RouteConfig>) returns (lists: map<string, seq<RouteEntry>>)
    ensures Collected(lists, routes)
  {
    lists := map[];
    for i := 0 to |routes|
      invariant Collected(lists, routes[..i])
    {
      CollectedStep(lists, routes, i);
      var host := routes[i].host;
      lists := lists[host := (if host in lists then lists[host] else []) + [EntryOf(routes[i])]];
    }
    assert routes[..|routes|] == routes;
  }

  /** Sorts every host's list and puts it with the exact hosts or the wildcards. */
  method Place(lists: map<string, seq<RouteEntry>>, ghost routes: seq<RouteConfig>)
    returns (exact: map<string, seq<RouteEntry>>, wildcard: seq<(string, seq<RouteEntry>)>)
    requires Collected(lists, routes)
    ensures IsTable(exact, wildcard, routes)
  {
    exact, wildcard := map[], [];
    var left := lists.Keys;
    while left != {}
      invariant left <= lists.Keys
      invariant AllListed(exact, wildcard, routes) && AllPlaced(lists.Keys - left, exact, wildcard)
      decreases left
    {
      var host :| host in left;
      var sorted := SortEntries(lists[host]);
      match StripStar(host) {
        case None =>
          PlaceExact(exact, wildcard, routes, lists.Keys - left, host, sorted);
          exact := exact[host := sorted];
        case Some(suffix) =>
          assert host == "*." + suffix;
          PlaceWildcard(exact, wildcard, routes, lists.Keys - left, suffix, sorted);
          wildcard := wildcard + [(suffix, sorted)];
      }
      assert lists.Keys - (left - {host}) == lists.Keys - left + {host};
      left := left - {host};
    }
    assert lists.Keys - {} == lists.Keys;
  }

  predicate AllPlaced(hosts: set<string>, exact: map<string, seq<RouteEntry>>, wildcard: seq<(string, seq<RouteEntry>)>) {
    forall host <- hosts :: Placed(host, exact, wildcard)
  }

  lemma PlaceExact(exact: map<string, seq<RouteEntry>>, wildcard: seq<(string, seq<RouteEntry>)>, routes: seq<RouteConfig>,
                   hosts: set<string>, host: string, entries: seq<RouteEntry>)
    requires AllListed(exact, wildcard, routes) && AllPlaced(hosts, exact, wildcard)
    requires StripStar(host).None? && Lists(entries, routes, host)
    ensures AllListed(exact[host := entries], wildcard, routes) && AllPlaced(hosts + {host}, exact[host := entries], wildcard)
  {
    forall other | other in hosts ensures Placed(other, exact[host := entries], wildcard) {
      assert Placed(other, exact, wildcard);
    }
  }

  lemma PlaceWildcard(exact: map<string, seq<RouteEntry>>, wildcard: seq<(string, seq<RouteEntry>)>, routes: seq<RouteConfig>,
                      hosts: set<string>, suffix: string, entries: seq<RouteEntry>)
    requires AllListed(exact, wildcard, routes) && AllPlaced(hosts, exact, wildcard)
    requires Lists(entries, routes, "*." + suffix)
    ensures var after := wildcard + [(suffix, entries)];
            AllListed(exact, after, routes) && AllPlaced(hosts + {"*." + suffix}, exact, after)
  {
    var after := wildcard + [(suffix, entries)];
    assert StripStar("*." + suffix) == Some(suffix) && after[|wildcard|] == (suffix, entries);
    forall other | other in hosts ensures Placed(other, exact, after) {
      PlacedStays(other, exact, wildcard, after);
    }
  }

  lemma PlacedStays(host: string, exact: map<string, seq<RouteEntry>>, wildcard: seq<(string, seq<RouteEntry>)>,
                    wildcard': seq<(string, seq<RouteEntry>)>)
    requires Placed(host, exact, wildcard) && wildcard <= wildcard'
    ensures Placed(host, exact, wildcard')
  {
  }

  method SortEntries(entries: seq<RouteEntry>) returns (sorted: seq<RouteEntry>)
    ensures multiset(sorted) == multiset(entries) && LongestFirst(sorted)
  {
    var size := (e: RouteEntry) => |e.pathPrefix|;
    sorted := SortDescending(entries, size);
    forall i, j | 0 <= i < j < |sorted| ensures |sorted[j].pathPrefix| <= |sorted[i].pathPrefix| {
      assert size(sorted[j]) <= size(sorted[i]);
    }
  }

  lemma TableInAnyOrder(exact: map<string, seq<RouteEntry>>, wildcard: seq<(string, seq<RouteEntry>)>,
                        ordered: seq<(string, seq<RouteEntry>)>, routes: seq<RouteConfig>)
    requires IsTable(exact, wildcard, routes) && multiset(ordered) == multiset(wildcard)
    ensures IsTable(exact, ordered, routes)
  {
    forall pair ensures pair in ordered <==> pair in wildcard {
      assert pair in multiset(ordered) <==> pair in multiset(wildcard);
    }
  }

  class Router {
    const exact: map<string, seq<RouteEntry>>
    const wildcard: seq<(string, seq<RouteEntry>)>
    ghost const routes: seq<RouteConfig>

    ghost predicate Valid() {
      IsTable(exact, wildcard, routes)
    }

    constructor (routes: seq<RouteConfig>)
      ensures Valid() && this.routes == routes
    {
      var lists := Collect(routes);
      var direct, stars := Place(lists, routes);
      var ordered := SortDescending(stars, (pair: (string, seq<RouteEntry>)) => |pair.0|);
      TableInAnyOrder(direct, stars, ordered, routes);
      exact, wildcard := direct, ordered;
      this.routes := routes;
    }

    /** `find` gives the rule's answer. */
    method FindRoute(host: string, path: string) returns (route: Option<Route>)
      requires Valid()
      ensures Answers(routes, host, path, route)
    {
      FindFollowsRule(exact, wildcard, routes, host, path);
      if host in exact {
        route := FindPath(exact[host], path);
        if route.Some? {
          return;
        }
      }
      var entries := FindWildcard(wildcard, host);
      route := if entries.Some? then FindPath(entries.value, path) else None;
    }
  }
}
