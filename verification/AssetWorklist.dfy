/** The bundle checker's crawl: it accepts a build exactly when every reachable asset can be fetched, at most 512 of
    them are reachable, an index script is an entry and a stylesheet is among them; it then lists them, entries first.
    */
module AssetWorklist {
  import opened Options
  import opened SortedLists
  import opened FiniteSets

  type Url = string

  const MAX_FILES: nat := 512

  /** What one fetch yields, deterministically: nothing usable, a stylesheet, or a script with the quoted references
      found in it. */
  datatype Asset = Unavailable | Css | Js(references: seq<string>)

  datatype Failure = NoIndex | TooMany | AssetFailed(url: Url) | NoCss

  datatype Result = Listing(urls: seq<Url>) | Fails(why: Failure)

  /** The page the crawl runs over. `resolve` yields only eligible same-origin asset URLs. */
  datatype Site = Site(
    fetch: Url -> Asset, resolve: (string, Url) -> Option<Url>, isIndex: Url -> bool, isCss: Url -> bool)

  function Resolved(site: Site, references: seq<string>, parent: Url): seq<Url> {
    if references == [] then []
    else
      var last := site.resolve(references[|references| - 1], parent);
      Resolved(site, references[..|references| - 1], parent) + if last.Some? then [last.value] else []
  }

  /** The assets an asset refers to. */
  function Dependencies(site: Site, url: Url): seq<Url> {
    var asset := site.fetch(url);
    if asset.Js? then Resolved(site, asset.references, url) else []
  }

  lemma {:induction false} ResolvedAre(site: Site, references: seq<string>, parent: Url, url: Url)
    ensures url in Resolved(site, references, parent)
      <==> exists i :: 0 <= i < |references| && site.resolve(references[i], parent) == Some(url)
  {
    if references != [] {
      var init := references[..|references| - 1];
      ResolvedAre(site, init, parent, url);
      assert forall i :: 0 <= i < |init| ==> init[i] == references[i];
    }
  }

  /** An asset is linked from another exactly if that one is a script and one of its references resolves to it. */
  lemma DependenciesAre(site: Site, parent: Url, url: Url)
    ensures url in Dependencies(site, parent)
      <==> (site.fetch(parent).Js?
            && exists i :: 0 <= i < |site.fetch(parent).references|
                        && site.resolve(site.fetch(parent).references[i], parent) == Some(url))
  {
    hide Resolved;
    if site.fetch(parent).Js? { ResolvedAre(site, site.fetch(parent).references, parent, url); }
  }

  /** `url` can be reached from an entry in this many links. */
  ghost predicate ReachableIn(site: Site, entries: seq<Url>, url: Url, links: nat)
    decreases links
  {
    if links == 0 then url in entries
    else exists parent :: ReachableIn(site, entries, parent, links - 1) && url in Dependencies(site, parent)
  }

  ghost predicate Reachable(site: Site, entries: seq<Url>, url: Url) {
    exists links: nat :: ReachableIn(site, entries, url, links)
  }

  // ---- The order of the listing ----

  /** Entries ahead of everything else, then by URL. */
  predicate Precedes(entries: seq<Url>, a: Url, b: Url) {
    if (a in entries) != (b in entries) then a in entries else Before(a, b)
  }

  function Listed(entries: seq<Url>): (Url, Url) -> bool { (a, b) => Precedes(entries, a, b) }

  lemma ListedIsStrict(entries: seq<Url>)
    ensures Strict(Listed(entries))
    ensures forall a, b :: a == b || Listed(entries)(a, b) || Listed(entries)(b, a)
  {
    forall a, b, c
      ensures !Precedes(entries, a, a) && (a == b || Precedes(entries, a, b) || Precedes(entries, b, a))
      ensures Precedes(entries, a, b) && Precedes(entries, b, c) ==> Precedes(entries, a, c)
    {
      BeforeIsStrict(a, b, c);
    }
  }

  method Sorted(entries: seq<Url>, urls: set<Url>) returns (sorted: seq<Url>)
    ensures Ordered(Listed(entries), sorted) && forall u :: u in sorted <==> u in urls
  {
    hide Listed;
    ListedIsStrict(entries);
    sorted := [];
    var left := urls;
    while left != {}
      invariant left <= urls && Ordered(Listed(entries), sorted)
      invariant forall u :: u in sorted <==> u in urls - left
      decreases left
    {
      var url :| url in left;
      InsertOrdered(Listed(entries), sorted, url);
      sorted := Insert(Listed(entries), sorted, url);
      left := left - {url};
    }
  }

  // ---- The crawl ----

  /** Each URL once, in order of first appearance. */
  function Dedupe(urls: seq<Url>): (r: seq<Url>)
    ensures forall u :: u in r <==> u in urls
  {
    if urls == [] then []
    else
      var init, last := urls[..|urls| - 1], urls[|urls| - 1];
      assert urls == init + [last];
      if last in init then Dedupe(init) else Dedupe(init) + [last]
  }

  /** All dependencies of the seen assets are seen or pending, and so is every entry. */
  ghost predicate Closed(site: Site, entries: seq<Url>, seen: set<Url>, pending: seq<Url>) {
    && (forall u :: u in entries ==> u in seen || u in pending)
    && (forall u, d :: u in seen && d in Dependencies(site, u) ==> d in seen || d in pending)
  }

  lemma {:induction false} ClosedCovers(site: Site, entries: seq<Url>, seen: set<Url>, url: Url, links: nat)
    requires Closed(site, entries, seen, []) && ReachableIn(site, entries, url, links)
    ensures url in seen
    decreases links
  {
    if links > 0 {
      var parent :| ReachableIn(site, entries, parent, links - 1) && url in Dependencies(site, parent);
      ClosedCovers(site, entries, seen, parent, links - 1);
    }
  }

  lemma ReachableNext(site: Site, entries: seq<Url>, parent: Url, url: Url)
    requires Reachable(site, entries, parent) && url in Dependencies(site, parent)
    ensures Reachable(site, entries, url)
  {
    var links: nat :| ReachableIn(site, entries, parent, links);
    assert ReachableIn(site, entries, url, links + 1);
  }

  /** A set of assets that is exactly what can be reached. */
  ghost predicate IsReach(site: Site, entries: seq<Url>, reach: set<Url>) {
    forall u :: u in reach <==> Reachable(site, entries, u)
  }

  /** What a build must be for its listing to be printed. */
  ghost predicate Acceptable(site: Site, entries: seq<Url>, reach: set<Url>) {
    && (exists u :: u in entries && site.isIndex(u))
    && IsReach(site, entries, reach)
    && |reach| <= 512
    && (forall u :: u in reach ==> !site.fetch(u).Unavailable?)
    && (exists u :: u in reach && site.isCss(u))
  }

  method HasAny(urls: seq<Url>, test: Url -> bool) returns (found: bool)
    ensures found <==> exists u :: u in urls && test(u)
  {
    found := false;
    for i := 0 to |urls|
      invariant found <==> exists j :: 0 <= j < i && test(urls[j])
    {
      if test(urls[i]) {
        found := true;
      }
    }
    if found {
      var j :| 0 <= j < |urls| && test(urls[j]);
      assert urls[j] in urls;
    }
  }

  /** Queue the dependencies not yet seen. */
  method Enqueue(pending: seq<Url>, found: seq<Url>, seen: set<Url>) returns (next: seq<Url>)
    ensures forall u :: u in next <==> u in pending || (u in found && u !in seen)
  {
    next := pending;
    for i := 0 to |found|
      invariant forall u :: u in next <==> u in pending || (u in found[..i] && u !in seen)
    {
      assert found[..i + 1] == found[..i] + [found[i]];
      if found[i] !in seen {
        next := next + [found[i]];
      }
    }
    assert found[..|found|] == found;
  }

  /** What the loop knows: nothing is lost, nothing unreachable is queued, and all that was seen could be fetched. */
  ghost predicate Crawling(site: Site, entries: seq<Url>, seen: set<Url>, pending: seq<Url>) {
    && Closed(site, entries, seen, pending)
    && (forall u :: u in seen || u in pending ==> Reachable(site, entries, u))
    && (forall u :: u in seen ==> !site.fetch(u).Unavailable?)
  }

  lemma CrawlStarts(site: Site, entries: seq<Url>)
    ensures Crawling(site, entries, {}, Dedupe(entries))
  {
    forall u | u in Dedupe(entries) ensures Reachable(site, entries, u) { assert ReachableIn(site, entries, u, 0); }
  }

  lemma CrawlSkips(site: Site, entries: seq<Url>, seen: set<Url>, pending: seq<Url>)
    requires Crawling(site, entries, seen, pending) && pending != [] && pending[0] in seen
    ensures Crawling(site, entries, seen, pending[1..])
  {
    assert forall u :: u in pending <==> u == pending[0] || u in pending[1..];
  }

  lemma CrawlVisits(site: Site, entries: seq<Url>, seen: set<Url>, pending: seq<Url>, next: seq<Url>)
    requires Crawling(site, entries, seen, pending) && pending != [] && !site.fetch(pending[0]).Unavailable?
    requires forall u :: u in next <==>
      u in pending[1..] || (u in Dependencies(site, pending[0]) && u !in seen + {pending[0]})
    ensures Crawling(site, entries, seen + {pending[0]}, next)
  {
    var url := pending[0];
    assert forall u :: u in pending <==> u == url || u in pending[1..];
    forall u | u in Dependencies(site, url) ensures Reachable(site, entries, u) {
      ReachableNext(site, entries, url, u);
    }
    hide Reachable, Dependencies;
  }

  lemma CrawlEnds(site: Site, entries: seq<Url>, seen: set<Url>)
    requires Crawling(site, entries, seen, [])
    ensures IsReach(site, entries, seen)
  {
    forall u | Reachable(site, entries, u) ensures u in seen {
      var links: nat :| ReachableIn(site, entries, u, links);
      ClosedCovers(site, entries, seen, u, links);
    }
  }

  /** 512 assets seen and one more waiting: no acceptable build reaches that many. */
  lemma TooManyReached(site: Site, entries: seq<Url>, seen: set<Url>, pending: seq<Url>)
    requires Crawling(site, entries, seen, pending) && pending != [] && pending[0] !in seen && |seen| >= MAX_FILES
    ensures Justified(site, entries, TooMany) && forall reach :: !Acceptable(site, entries, reach)
  {
    var some := seen + {pending[0]};
    assert pending[0] in pending;
    assert |some| > MAX_FILES && forall u :: u in some ==> Reachable(site, entries, u);
    forall reach ensures !Acceptable(site, entries, reach) {
      if IsReach(site, entries, reach) { SubsetSize(some, reach); }
    }
  }

  lemma UnavailableReached(site: Site, entries: seq<Url>, url: Url)
    requires Reachable(site, entries, url) && site.fetch(url).Unavailable?
    ensures forall reach :: !Acceptable(site, entries, reach)
  {}

  lemma UnstyledReached(site: Site, entries: seq<Url>, seen: set<Url>)
    requires IsReach(site, entries, seen) && forall u :: u in seen ==> !site.isCss(u)
    ensures forall reach :: !Acceptable(site, entries, reach)
  {
    forall reach ensures !Acceptable(site, entries, reach) {
      if IsReach(site, entries, reach) { assert reach == seen; }
    }
  }

  /** What each refusal says about the site. */
  ghost predicate Justified(site: Site, entries: seq<Url>, why: Failure) {
    match why
    case NoIndex => !exists u :: u in entries && site.isIndex(u)
    case TooMany => exists some: set<Url> :: |some| > 512 && forall u :: u in some ==> Reachable(site, entries, u)
    case AssetFailed(url) => Reachable(site, entries, url) && site.fetch(url).Unavailable?
    case NoCss => exists reach: set<Url> :: IsReach(site, entries, reach) && forall u :: u in reach ==> !site.isCss(u)
  }

  /** The listing of an acceptable build. */
  ghost predicate Lists(site: Site, entries: seq<Url>, urls: seq<Url>) {
    && Acceptable(site, entries, set u | u in urls)
    && Ordered(Listed(entries), urls)
  }

  /** The whole check succeeds exactly on acceptable builds. It terminates: each round either drops a pending URL or
      sees a new one, at most 512 times. */
  method ListAssets(site: Site, entries: seq<Url>) returns (result: Result)
    ensures result.Listing? ==> Lists(site, entries, result.urls)
    ensures result.Fails? ==> Justified(site, entries, result.why) && forall reach :: !Acceptable(site, entries, reach)
  {
    hide Crawling, Acceptable, IsReach, Ordered, Reachable, Dedupe;
    var indexed := HasAny(entries, site.isIndex);
    if !indexed {
      Unindexed(site, entries);
      return Fails(NoIndex);
    }
    var pending := Dedupe(entries);
    var seen: set<Url> := {};
    CrawlStarts(site, entries);
    while pending != []
      invariant |seen| <= MAX_FILES
      invariant Crawling(site, entries, seen, pending)
      decreases MAX_FILES - |seen|, |pending|
    {
      var url := pending[0];
      if url in seen {
        CrawlSkips(site, entries, seen, pending);
        pending := pending[1..];
        continue;
      }
      if |seen| >= MAX_FILES {
        TooManyReached(site, entries, seen, pending);
        return Fails(TooMany);
      }
      var asset := site.fetch(url);
      if asset.Unavailable? {
        Queued(site, entries, seen, pending);
        UnavailableReached(site, entries, url);
        return Fails(AssetFailed(url));
      }
      var found := if asset.Js? then Resolved(site, asset.references, url) else [];
      var next := Enqueue(pending[1..], found, seen + {url});
      CrawlVisits(site, entries, seen, pending, next);
      seen, pending := seen + {url}, next;
    }
    CrawlEnds(site, entries, seen);
    var sorted := Sorted(entries, seen);
    var styled := HasAny(sorted, site.isCss);
    if !styled {
      UnstyledReached(site, entries, seen);
      return Fails(NoCss);
    }
    assert (set u | u in sorted) == seen;
    Accepted(site, entries, seen);
    return Listing(sorted);
  }

  lemma Unindexed(site: Site, entries: seq<Url>)
    requires !exists u :: u in entries && site.isIndex(u)
    ensures forall reach :: !Acceptable(site, entries, reach)
  {}

  lemma Queued(site: Site, entries: seq<Url>, seen: set<Url>, pending: seq<Url>)
    requires Crawling(site, entries, seen, pending) && pending != []
    ensures Reachable(site, entries, pending[0])
  {
    assert pending[0] in pending;
  }

  lemma Accepted(site: Site, entries: seq<Url>, seen: set<Url>)
    requires exists u :: u in entries && site.isIndex(u)
    requires exists u :: u in seen && site.isCss(u)
    requires Crawling(site, entries, seen, []) && IsReach(site, entries, seen) && |seen| <= MAX_FILES
    ensures Acceptable(site, entries, seen)
  {}

  /** A site has one listing: however the crawl and the sort are carried out, the same assets come out in the same
      order, each once, every entry before every dependency chunk. */
  lemma ListingIsDetermined(site: Site, entries: seq<Url>, a: seq<Url>, b: seq<Url>)
    requires Lists(site, entries, a) && Lists(site, entries, b)
    ensures a == b
    ensures forall i, j :: 0 <= i < |a| && 0 <= j < |a| && a[i] in entries && a[j] !in entries ==> i < j
    ensures forall i, j :: 0 <= i < j < |a| ==> a[i] != a[j]
  {
    var reachA, reachB := set u | u in a, set u | u in b;
    assert IsReach(site, entries, reachA) && IsReach(site, entries, reachB);
    forall u ensures u in a <==> u in b { assert u in reachA <==> u in reachB; }
    ListedIsStrict(entries);
    OrderedIsUnique(Listed(entries), a, b);
    forall i, j | 0 <= i < j < |a| ensures a[i] != a[j] { assert Listed(entries)(a[i], a[j]); }
  }
}
