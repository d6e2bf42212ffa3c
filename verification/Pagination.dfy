/** Bounded traversal of a paged listing: it delivers every item once and in order, or fails. */
module Pagination {
  import opened Prelude

  const MAX_PAGES := 10

  /** A request target: the listing itself, the listing with `start` or `startAt` set to an offset, or an
      absolute link.  Different values are different texts: the first three are relative, and an offset is
      written into the query of the original path. */
  datatype Url = First | Start(n: int) | StartAt(n: int) | Link(text: string)

  /** A decoded reply; `values` is absent when the field is not a list, `next` when it is missing or empty.
      `startAt` and `total` default to 0. */
  datatype Data = Data(values: Option<seq<Json>>, next: Option<string>, isLastPage: Option<bool>, nextPageStart: Option<int>, startAt: int, total: int)

  datatype Onward = Finished | Broken | More(url: Url)

  predicate GoodItems(data: Data) {
    data.values.Some? && forall v | v in data.values.value :: v.Object?
  }

  /** Where the traversal goes after a page. `allowed` stands for `validate_url` and the unchanged endpoint path. */
  function After(data: Data, comments: bool, allowed: string -> bool): Onward
    requires data.values.Some?
  {
    if data.next.Some? then if allowed(data.next.value) then More(Link(data.next.value)) else Broken
    else if data.isLastPage == Some(false) then
      if data.nextPageStart.None? || data.nextPageStart.value < 0 then Broken else More(Start(data.nextPageStart.value))
    else if comments && data.startAt + |data.values.value| < data.total then
      if data.values.value == [] then Broken else More(StartAt(data.startAt + |data.values.value|))
    else Finished
  }

  /** The server as long as nobody changes it; no answer is an error. */
  datatype Server = Server(get: Url -> Option<Data>, comments: bool, allowed: string -> bool)
  {
    /** The page is well formed. */
    predicate Good(url: Url) { get(url).Some? && GoodItems(get(url).value) }

    function Items(url: Url): seq<Json>
      requires Good(url)
    {
      get(url).value.values.value
    }

    function Next(url: Url): Onward
      requires Good(url)
    {
      After(get(url).value, comments, allowed)
    }
  }

  /** The URLs form a finished chain of good pages starting here. */
  predicate Chain(server: Server, from: Url, urls: seq<Url>)
    decreases |urls|
  {
    && urls != [] && urls[0] == from && server.Good(from)
    && if |urls| == 1 then server.Next(from) == Finished
       else server.Next(from).More? && Chain(server, server.Next(from).url, urls[1..])
  }

  predicate AllGood(server: Server, urls: seq<Url>) { forall u | u in urls :: server.Good(u) }

  function AllItems(server: Server, urls: seq<Url>): seq<Json>
    requires AllGood(server, urls)
  {
    if urls == [] then [] else server.Items(urls[0]) + AllItems(server, urls[1..])
  }

  predicate Distinct(urls: seq<Url>) { forall i, j | 0 <= i < j < |urls| :: urls[i] != urls[j] }

  /** What a traversal delivered: the items in order, whether it ended normally, the good pages it read, and
      all requests it made, of which the last may have failed. */
  datatype Listing = Listing(items: seq<Json>, complete: bool, pages: seq<Url>, requests: seq<Url>)

  /** The leading items that are objects; the rest of such a page is never yielded. */
  function GoodPrefix(values: seq<Json>): seq<Json> {
    if values == [] || !values[0].Object? then [] else [values[0]] + GoodPrefix(values[1..])
  }

  function Traverse(server: Server, current: Url, pages: seq<Url>, items: seq<Json>): Listing
    decreases MAX_PAGES - |pages|
  {
    if |pages| >= MAX_PAGES || current in pages then Listing(items, false, pages, pages)
    else
      var data := server.get(current);
      if data.None? || data.value.values.None? then Listing(items, false, pages, pages + [current])
      else if !GoodItems(data.value) then Listing(items + GoodPrefix(data.value.values.value), false, pages, pages + [current])
      else
        var more := items + data.value.values.value;
        match After(data.value, server.comments, server.allowed)
        case Broken => Listing(more, false, pages + [current], pages + [current])
        case Finished => Listing(more, true, pages + [current], pages + [current])
        case More(url) => Traverse(server, url, pages + [current], more)
  }

  method YieldItems(values: seq<Json>) returns (yielded: seq<Json>, good: bool)
    ensures yielded == GoodPrefix(values)
    ensures good <==> forall v | v in values :: v.Object?
    ensures good ==> yielded == values
  {
    yielded := [];
    for i := 0 to |values|
      invariant yielded == values[..i]
      invariant forall k | 0 <= k < i :: values[k].Object?
    {
      GoodPrefixAfter(values, i);
      if !values[i].Object? { return yielded, false; }
      yielded := yielded + [values[i]];
    }
    GoodPrefixAfter(values, |values|);
    return yielded, true;
  }

  lemma {:induction false} GoodPrefixAfter(values: seq<Json>, i: nat)
    requires i <= |values| && forall k | 0 <= k < i :: values[k].Object?
    ensures GoodPrefix(values) == values[..i] + GoodPrefix(values[i..])
  {
    if i == 0 {
      assert values[0..] == values;
    } else {
      GoodPrefixAfter(values[1..], i - 1);
      assert values[..i] == [values[0]] + values[1..][..i - 1] && values[1..][i - 1..] == values[i..];
    }
  }

  method Pages(server: Server) returns (listing: Listing)
    ensures listing == Traverse(server, First, [], [])
  {
    var current := First;
    var seen: seq<Url>, items: seq<Json> := [], [];
    for round := 0 to MAX_PAGES
      invariant |seen| == round
      invariant Traverse(server, current, seen, items) == Traverse(server, First, [], [])
    {
      if current in seen { return Listing(items, false, seen, seen); }
      var pages := seen;
      seen := seen + [current];
      var data := server.get(current);
      if data.None? || data.value.values.None? { return Listing(items, false, pages, seen); }
      var yielded, good := YieldItems(data.value.values.value);
      items := items + yielded;
      if !good { return Listing(items, false, pages, seen); }
      match After(data.value, server.comments, server.allowed) {
        case Broken => return Listing(items, false, seen, seen);
        case Finished => return Listing(items, true, seen, seen);
        case More(url) => current := url;
      }
    }
    return Listing(items, false, seen, seen);
  }

  /* ---------- complete or failed ---------- */

  lemma {:induction false} ItemsAppend(server: Server, a: seq<Url>, b: seq<Url>)
    requires AllGood(server, a) && AllGood(server, b)
    ensures AllGood(server, a + b) && AllItems(server, a + b) == AllItems(server, a) + AllItems(server, b)
  {
    if a == [] {
      assert a + b == b;
    } else {
      ItemsAppend(server, a[1..], b);
      assert (a + b)[1..] == a[1..] + b;
    }
  }

  /** All items of a page up to the first that is not an object. */
  ghost predicate Leading(part: seq<Json>, values: seq<Json>) {
    part <= values && (forall v :: v in part ==> v.Object?) && (|part| < |values| ==> !values[|part|].Object?)
  }

  lemma {:induction false} GoodPrefixLeads(values: seq<Json>)
    ensures Leading(GoodPrefix(values), values)
  {
    if values != [] && values[0].Object? {
      GoodPrefixLeads(values[1..]);
    }
  }

  /** After the items of its good pages a listing has the leading items of its last, bad page, and nothing else. */
  ghost predicate Delivered(server: Server, r: Listing)
    requires AllGood(server, r.pages)
  {
    var all := AllItems(server, r.pages);
    && all <= r.items
    && if |r.pages| < |r.requests| && server.get(r.requests[|r.pages|]).Some? && server.get(r.requests[|r.pages|]).value.values.Some?
       then Leading(r.items[|all|..], server.get(r.requests[|r.pages|]).value.values.value)
       else r.items == all
  }

  /** What a listing that went through these good pages first may look like. */
  ghost predicate Honestly(server: Server, r: Listing, current: Url, pages: seq<Url>) {
    && |r.requests| <= MAX_PAGES && Distinct(r.requests) && r.pages <= r.requests && |r.requests| <= |r.pages| + 1
    && Distinct(r.pages) && pages <= r.pages && AllGood(server, r.pages) && Delivered(server, r)
    && (r.complete ==> r.items == AllItems(server, r.pages) && Chain(server, current, r.pages[|pages|..]))
  }

  lemma OnePageMore(server: Server, r: Listing, current: Url, pages: seq<Url>)
    requires server.Good(current) && server.Next(current).More? && Honestly(server, r, server.Next(current).url, pages + [current])
    ensures Honestly(server, r, current, pages)
  {
    var more := pages + [current];
    assert r.pages[|pages|..][1..] == r.pages[|more|..];
    assert more <= r.pages && r.pages[|pages|] == more[|pages|];
  }

  lemma OnePage(server: Server, pages: seq<Url>, current: Url)
    requires AllGood(server, pages) && server.Good(current)
    ensures AllGood(server, pages + [current]) && AllItems(server, pages + [current]) == AllItems(server, pages) + server.Items(current)
  {
    assert AllItems(server, [current]) == server.Items(current) by { assert AllItems(server, [current][1..]) == []; }
    ItemsAppend(server, pages, [current]);
  }

  predicate GoesOn(server: Server, current: Url, pages: seq<Url>) {
    |pages| < MAX_PAGES && current !in pages && server.Good(current) && server.Next(current).More?
  }

  lemma LastRequestIsHonest(server: Server, current: Url, pages: seq<Url>, items: seq<Json>)
    requires |pages| <= MAX_PAGES && Distinct(pages) && AllGood(server, pages) && items == AllItems(server, pages) && !GoesOn(server, current, pages)
    ensures Honestly(server, Traverse(server, current, pages, items), current, pages)
  {
    if server.get(current).Some? && server.get(current).value.values.Some? {
      var values := server.get(current).value.values.value;
      GoodPrefixLeads(values);
      assert (items + GoodPrefix(values))[|items|..] == GoodPrefix(values);
    }
    if server.Good(current) {
      OnePage(server, pages, current);
      assert (pages + [current])[|pages|..] == [current];
    }
  }

  /** Never more than MAX_PAGES requests, none twice; on a normal end the pages form a finished chain and exactly
      their items were delivered, each once and in order. */
  lemma {:induction false} TraversalIsHonest(server: Server, current: Url, pages: seq<Url>, items: seq<Json>)
    requires |pages| <= MAX_PAGES && Distinct(pages) && AllGood(server, pages) && items == AllItems(server, pages)
    ensures Honestly(server, Traverse(server, current, pages, items), current, pages)
    decreases MAX_PAGES - |pages|
  {
    if GoesOn(server, current, pages) {
      OnePage(server, pages, current);
      TraversalIsHonest(server, server.Next(current).url, pages + [current], items + server.Items(current));
      OnePageMore(server, Traverse(server, current, pages, items), current, pages);
    } else {
      LastRequestIsHonest(server, current, pages, items);
    }
  }

  /** From one page there is at most one finished chain. */
  lemma {:induction false} ChainIsUnique(server: Server, from: Url, a: seq<Url>, b: seq<Url>)
    requires Chain(server, from, a) && Chain(server, from, b)
    ensures a == b
    decreases |a|
  {
    if |a| > 1 {
      ChainIsUnique(server, server.Next(from).url, a[1..], b[1..]);
      assert a == [a[0]] + a[1..] && b == [b[0]] + b[1..];
    }
  }

  lemma {:induction false} ChainFromLater(server: Server, from: Url, urls: seq<Url>, k: nat)
    requires Chain(server, from, urls) && k < |urls|
    ensures Chain(server, urls[k], urls[k..])
    decreases k
  {
    if k > 0 {
      ChainFromLater(server, server.Next(from).url, urls[1..], k - 1);
      assert urls[1..][k - 1..] == urls[k..];
    } else {
      assert urls[0..] == urls;
    }
  }

  /** A chain that finishes never comes back to a page: it would go round for ever. */
  lemma ChainIsDistinct(server: Server, from: Url, urls: seq<Url>)
    requires Chain(server, from, urls)
    ensures Distinct(urls)
  {
    forall i, j | 0 <= i < j < |urls| ensures urls[i] != urls[j] {
      ChainFromLater(server, from, urls, i);
      ChainFromLater(server, from, urls, j);
      assert |urls[i..]| != |urls[j..]|;
      if urls[i] == urls[j] {
        ChainIsUnique(server, urls[i], urls[i..], urls[j..]);
        assert false;
      }
    }
  }

  /** A short enough chain is read to its end. */
  lemma {:induction false} ShortChainCompletes(server: Server, current: Url, pages: seq<Url>, items: seq<Json>, urls: seq<Url>)
    requires Chain(server, current, urls) && |pages| + |urls| <= MAX_PAGES && Distinct(pages + urls)
    ensures Traverse(server, current, pages, items).complete
    decreases |urls|
  {
    assert (pages + urls)[|pages|] == current;
    forall k | 0 <= k < |pages| ensures pages[k] != current {
      assert (pages + urls)[k] == pages[k];
    }
    if |urls| > 1 {
      assert pages + urls == pages + [current] + urls[1..];
      ShortChainCompletes(server, server.Next(current).url, pages + [current], items + server.Items(current), urls[1..]);
    }
  }

  /** The traversal ends normally exactly when a finished chain of at most MAX_PAGES good pages exists, and it
      then delivered that chain. */
  lemma CompleteOrFails(server: Server)
    ensures var r := Traverse(server, First, [], []);
            && |r.requests| <= MAX_PAGES && Distinct(r.requests) && r.pages <= r.requests
            && (r.complete <==> exists urls :: Chain(server, First, urls) && |urls| <= MAX_PAGES)
            && (r.complete ==> Chain(server, First, r.pages) && AllGood(server, r.pages) && r.items == AllItems(server, r.pages))
            && AllGood(server, r.pages) && Delivered(server, r)
  {
    var r := Traverse(server, First, [], []);
    TraversalIsHonest(server, First, [], []);
    assert r.pages[0..] == r.pages;
    if urls :| Chain(server, First, urls) && |urls| <= MAX_PAGES {
      ChainIsDistinct(server, First, urls);
      assert [] + urls == urls;
      ShortChainCompletes(server, First, [], [], urls);
    }
  }

  /* ---------- every request follows from the page before it ---------- */

  /** The continuation a page names, whether or not it may be followed. */
  function Named(data: Data, comments: bool): Option<Url>
    requires data.values.Some?
  {
    var count := |data.values.value|;
    if data.next.Some? then Some(Link(data.next.value))
    else if data.isLastPage == Some(false) then Some(Start(if data.nextPageStart.Some? then data.nextPageStart.value else -1))
    else if comments && data.startAt + count < data.total then Some(StartAt(data.startAt + count))
    else None
  }

  /** It may be followed: a link that validates, a start that is given and not negative, an offset past a nonempty page. */
  predicate Followable(server: Server, data: Data, url: Url)
    requires data.values.Some?
  {
    match url
    case First => false
    case Link(text) => server.allowed(text)
    case Start(n) => n >= 0
    case StartAt(_) => data.values.value != []
  }

  /** The first request is the listing itself; each further one is the continuation named by the page before, which may be
      followed; and the last one ends the traversal: normally if its page is good and names none, otherwise if it has no good
      page, names one that may not be followed or was requested already, or ten pages are full. */
  ghost predicate Follows(server: Server, current: Url, r: Listing, n: nat) {
    && n < |r.requests| && r.requests[n] == current
    && (forall i :: n <= i < |r.requests| - 1 ==>
          server.Good(r.requests[i]) && Named(server.get(r.requests[i]).value, server.comments) == Some(r.requests[i + 1])
          && Followable(server, server.get(r.requests[i]).value, r.requests[i + 1]))
    && var last := r.requests[|r.requests| - 1];
       && (r.complete <==> server.Good(last) && Named(server.get(last).value, server.comments) == None)
       && (!r.complete && server.Good(last) ==>
             var url := Named(server.get(last).value, server.comments).value;
             !Followable(server, server.get(last).value, url) || url in r.requests || |r.requests| == MAX_PAGES)
  }

  lemma LastRequestFollows(server: Server, current: Url, pages: seq<Url>, items: seq<Json>)
    requires |pages| < MAX_PAGES && current !in pages
    requires !(server.Good(current) && server.Next(current).More? && |pages| + 1 < MAX_PAGES && server.Next(current).url !in pages + [current])
    ensures var r := Traverse(server, current, pages, items); Follows(server, current, r, |pages|) && r.requests == pages + [current]
  {
    if server.Good(current) && server.Next(current).More? {
      var more := pages + [current];
      assert Traverse(server, current, pages, items) == Listing(items + server.Items(current), false, more, more);
    }
  }

  lemma {:induction false} TraversalFollows(server: Server, current: Url, pages: seq<Url>, items: seq<Json>)
    requires |pages| < MAX_PAGES && current !in pages
    ensures var r := Traverse(server, current, pages, items); Follows(server, current, r, |pages|) && pages <= r.requests
    decreases MAX_PAGES - |pages|
  {
    if server.Good(current) && server.Next(current).More? && |pages| + 1 < MAX_PAGES && server.Next(current).url !in pages + [current] {
      var url, more := server.Next(current).url, pages + [current];
      TraversalFollows(server, url, more, items + server.Items(current));
      var r := Traverse(server, url, more, items + server.Items(current));
      assert Traverse(server, current, pages, items) == r && r.requests[|pages|] == more[|pages|];
    } else {
      LastRequestFollows(server, current, pages, items);
    }
  }

  /** The requests of a traversal, and how it ends, in terms of what the pages name; in particular every link that is
      requested was validated. */
  lemma RequestsFollowPages(server: Server)
    ensures var r := Traverse(server, First, [], []);
            && Follows(server, First, r, 0)
            && forall url :: url in r.requests && url.Link? ==> server.allowed(url.text)
  {
    TraversalFollows(server, First, [], []);
    var r := Traverse(server, First, [], []);
    forall i | 0 <= i < |r.requests| && r.requests[i].Link? ensures server.allowed(r.requests[i].text) {
      assert r.requests[0] == First;
      assert Followable(server, server.get(r.requests[i - 1]).value, r.requests[i - 1 + 1]);
    }
  }

  /* ---------- an honest server ---------- */

  /** How the server continues a listing: by `nextPageStart`, by `startAt` and `total`, or by links, of which
      `link` writes the one to an offset and `offset` reads it. */
  datatype Scheme = NextPageStart | StartAtTotal | NextLinks(link: nat -> string, offset: string -> nat)

  /** Links are not empty and lead to the offset they were written for. */
  ghost predicate LinksOk(scheme: Scheme) {
    scheme.NextLinks? ==> forall n: nat :: scheme.link(n) != "" && scheme.offset(scheme.link(n)) == n
  }

  function Offset(scheme: Scheme, url: Url): nat {
    match url
    case First => 0
    case Start(n) => if n >= 0 then n else 0
    case StartAt(n) => if n >= 0 then n else 0
    case Link(text) => if scheme.NextLinks? then scheme.offset(text) else 0
  }

  function Slice(all: seq<Json>, from: nat, size: nat): seq<Json> {
    if from >= |all| then [] else if from + size <= |all| then all[from..from + size] else all[from..]
  }

  function HonestPage(all: seq<Json>, size: nat, scheme: Scheme, url: Url): Data {
    var from := Offset(scheme, url);
    match scheme
    case NextPageStart => Data(Some(Slice(all, from, size)), None, Some(from + size >= |all|), Some(from + size), 0, 0)
    case StartAtTotal => Data(Some(Slice(all, from, size)), None, None, None, from, |all|)
    case NextLinks(link, _) => Data(Some(Slice(all, from, size)), if from + size >= |all| then None else Some(link(from + size)), None, None, 0, 0)
  }

  /** Its links stay on the endpoint; only the comment listing is read with `startAt` and `total`. */
  function Honest(all: seq<Json>, size: nat, scheme: Scheme): Server {
    Server(url => Some(HonestPage(all, size, scheme, url)), scheme.StartAtTotal?,
           text => scheme.NextLinks? && text == scheme.link(scheme.offset(text)))
  }

  function PageUrl(scheme: Scheme, from: nat): Url {
    if from == 0 then First
    else match scheme
         case NextPageStart => Start(from)
         case StartAtTotal => StartAt(from)
         case NextLinks(link, _) => Link(link(from))
  }

  /** The pages that hold the items from an offset on. */
  function PageUrls(total: nat, size: nat, scheme: Scheme, from: nat): seq<Url>
    requires size > 0
    decreases total - from
  {
    [PageUrl(scheme, from)] + if from + size >= total then [] else PageUrls(total, size, scheme, from + size)
  }

  predicate AllObjects(all: seq<Json>) { forall v | v in all :: v.Object? }

  /** At every offset the server gives the slice of items there and goes on to the next offset, or ends. */
  ghost predicate PagesFaithfully(server: Server, all: seq<Json>, size: nat, scheme: Scheme) {
    forall from: nat :: from < |all| || from == 0 ==> FaithfulAt(server, all, size, scheme, from)
  }

  ghost predicate FaithfulAt(server: Server, all: seq<Json>, size: nat, scheme: Scheme, from: nat) {
    var url := PageUrl(scheme, from);
    && server.Good(url) && server.Items(url) == Slice(all, from, size)
    && server.Next(url) == if from + size >= |all| then Finished else More(PageUrl(scheme, from + size))
  }

  lemma LinksAreFaithful(all: seq<Json>, size: nat, scheme: Scheme, from: nat)
    requires size > 0 && AllObjects(all) && LinksOk(scheme) && scheme.NextLinks?
    ensures FaithfulAt(Honest(all, size, scheme), all, size, scheme, from)
  {
    assert from > 0 ==> Offset(scheme, PageUrl(scheme, from)) == from;
    assert scheme.offset(scheme.link(from + size)) == from + size;
  }

  lemma OffsetsAreFaithful(all: seq<Json>, size: nat, scheme: Scheme, from: nat)
    requires size > 0 && AllObjects(all) && !scheme.NextLinks? && (from < |all| || from == 0)
    ensures FaithfulAt(Honest(all, size, scheme), all, size, scheme, from)
  {
    assert Offset(scheme, PageUrl(scheme, from)) == from;
  }

  lemma HonestIsFaithful(all: seq<Json>, size: nat, scheme: Scheme)
    requires size > 0 && AllObjects(all) && LinksOk(scheme)
    ensures PagesFaithfully(Honest(all, size, scheme), all, size, scheme)
  {
    forall from: nat | from < |all| || from == 0 ensures FaithfulAt(Honest(all, size, scheme), all, size, scheme, from) {
      if scheme.NextLinks? {
        LinksAreFaithful(all, size, scheme, from);
      } else {
        OffsetsAreFaithful(all, size, scheme, from);
      }
    }
  }

  lemma SliceThenRest(all: seq<Json>, from: nat, size: nat)
    requires from + size < |all|
    ensures Slice(all, from, size) + all[from + size..] == all[from..]
  {
  }

  lemma ChainMore(server: Server, from: Url, next: Url, rest: seq<Url>)
    requires server.Good(from) && server.Next(from) == More(next) && Chain(server, next, rest) && AllGood(server, rest)
    ensures Chain(server, from, [from] + rest) && AllGood(server, [from] + rest)
    ensures AllItems(server, [from] + rest) == server.Items(from) + AllItems(server, rest)
  {
    assert ([from] + rest)[1..] == rest;
  }

  lemma ChainEnd(server: Server, from: Url)
    requires server.Good(from) && server.Next(from) == Finished
    ensures Chain(server, from, [from]) && AllGood(server, [from]) && AllItems(server, [from]) == server.Items(from)
  {
    assert AllItems(server, [from][1..]) == [];
  }

  lemma {:induction false} FaithfulChain(server: Server, all: seq<Json>, size: nat, scheme: Scheme, from: nat)
    requires size > 0 && PagesFaithfully(server, all, size, scheme) && (from < |all| || from == 0)
    ensures var urls := PageUrls(|all|, size, scheme, from);
            Chain(server, PageUrl(scheme, from), urls) && AllGood(server, urls) && AllItems(server, urls) == all[from..]
    decreases |all| - from
  {
    assert FaithfulAt(server, all, size, scheme, from);
    var first := PageUrl(scheme, from);
    if from + size < |all| {
      SliceThenRest(all, from, size);
      var next, rest := PageUrl(scheme, from + size), PageUrls(|all|, size, scheme, from + size);
      FaithfulChain(server, all, size, scheme, from + size);
      ChainMore(server, first, next, rest);
    } else {
      ChainEnd(server, first);
    }
  }

  lemma {:induction false} PagesNeeded(total: nat, size: nat, scheme: Scheme, from: nat)
    requires size > 0 && (from < total || from == 0)
    ensures var n := |PageUrls(total, size, scheme, from)|; from + (n - 1) * size < total <= from + n * size || (total == 0 && n == 1)
    decreases total - from
  {
    if from + size < total {
      PagesNeeded(total, size, scheme, from + size);
      var n := |PageUrls(total, size, scheme, from + size)|;
      assert n * size == (n - 1) * size + size && (n + 1) * size == n * size + size;
    }
  }

  lemma FitsInPages(total: nat, size: nat, scheme: Scheme)
    requires size > 0
    ensures |PageUrls(total, size, scheme, 0)| <= MAX_PAGES <==> total <= MAX_PAGES * size
  {
    PagesNeeded(total, size, scheme, 0);
    var n := |PageUrls(total, size, scheme, 0)|;
    if n <= MAX_PAGES {
      Monotone(n, MAX_PAGES, size);
    } else {
      Monotone(MAX_PAGES, n - 1, size);
    }
  }

  /** At most this many leading items. */
  function Take(all: seq<Json>, n: nat): seq<Json> {
    if n <= |all| then all[..n] else all
  }

  lemma OffsetsDiffer(scheme: Scheme, m: nat, n: nat)
    requires LinksOk(scheme) && m != n
    ensures PageUrl(scheme, m) != PageUrl(scheme, n)
  {
    if scheme.NextLinks? {
      assert scheme.offset(scheme.link(m)) == m && scheme.offset(scheme.link(n)) == n;
    }
  }

  /** The page at the k-th offset was not read before. */
  ghost predicate ReadUpTo(pages: seq<Url>, size: nat, scheme: Scheme, k: nat) {
    |pages| == k && forall i :: 0 <= i < k ==> pages[i] == PageUrl(scheme, i * size)
  }

  lemma NextOffsetIsNew(pages: seq<Url>, size: nat, scheme: Scheme, k: nat)
    requires size > 0 && LinksOk(scheme) && ReadUpTo(pages, size, scheme, k)
    ensures PageUrl(scheme, k * size) !in pages
  {
    forall i | 0 <= i < k ensures pages[i] != PageUrl(scheme, k * size) {
      assert k * size == i * size + (k - i) * size && (k - i) * size >= size by {
        Monotone(1, k - i, size);
      }
      OffsetsDiffer(scheme, i * size, k * size);
    }
  }

  lemma {:induction false} FaithfulItems(server: Server, all: seq<Json>, size: nat, scheme: Scheme, k: nat, pages: seq<Url>)
    requires size > 0 && LinksOk(scheme) && PagesFaithfully(server, all, size, scheme) && ReadUpTo(pages, size, scheme, k)
    requires k <= MAX_PAGES && (k * size < |all| || k == 0)
    ensures Traverse(server, PageUrl(scheme, k * size), pages, all[..k * size]).items == Take(all, MAX_PAGES * size)
    decreases MAX_PAGES - k
  {
    var from, current := k * size, PageUrl(scheme, k * size);
    if k < MAX_PAGES {
      NextOffsetIsNew(pages, size, scheme, k);
      assert FaithfulAt(server, all, size, scheme, from);
      assert (k + 1) * size == from + size;
      if from + size < |all| {
        assert all[..from] + Slice(all, from, size) == all[..from + size];
        FaithfulItems(server, all, size, scheme, k + 1, pages + [current]);
      } else {
        assert all[..from] + Slice(all, from, size) == all;
        Monotone(k + 1, MAX_PAGES, size);
      }
    }
  }

  /** Against an honest server of n items in pages of m the traversal ends normally exactly when n <= 10 * m, and it
      delivers all items then, and the first 10 * m of them otherwise. */
  lemma HonestListing(all: seq<Json>, size: nat, scheme: Scheme)
    requires size > 0 && AllObjects(all) && LinksOk(scheme)
    ensures var r := Traverse(Honest(all, size, scheme), First, [], []);
            && (r.complete <==> |all| <= MAX_PAGES * size)
            && r.items == Take(all, MAX_PAGES * size)
  {
    var server, urls := Honest(all, size, scheme), PageUrls(|all|, size, scheme, 0);
    HonestIsFaithful(all, size, scheme);
    FaithfulChain(server, all, size, scheme, 0);
    CompleteOrFails(server);
    FitsInPages(|all|, size, scheme);
    var pages := Traverse(server, First, [], []).pages;
    if Chain(server, First, pages) {
      ChainIsUnique(server, First, urls, pages);
    }
    assert 0 * size == 0 && all[..0] == [];
    FaithfulItems(server, all, size, scheme, 0, []);
  }

  lemma Monotone(a: nat, b: nat, size: nat)
    requires a <= b
    ensures a * size <= b * size
  {
    assert b * size == a * size + (b - a) * size;
  }
}
