/** The news aggregator's list logic: selection of phys.org RSS items
    (first-seen de-duplication by GUID, category exclusion, cut-off date) and
    the newest-first ordering and truncation of every article list. */
module Articles {
  import opened Wrappers
  import opened Text
  import Seqs

  /** A news article; `timestamp` is the publication time in epoch seconds. */
  datatype Article = Article(
    title: string,
    content: string,
    author: string,
    image: string,
    url: string,
    timestamp: int,
    category: string)

  /** One item of a phys.org RSS feed; `pubDate` is its publication date
      already parsed to epoch seconds in UTC. */
  datatype RssItem = RssItem(
    guid: string,
    category: string,
    pubDate: int,
    title: string,
    description: string,
    link: string,
    thumbnail: string)

  const ExcludedCategory: string := "Space Exploration"
  const PhysorgAuthor: string := "phys.org"

  /** An item survives the category exclusion and the cut-off date. */
  predicate Passes(item: RssItem, earliest: int) {
    !Contains(Strip(item.category), ExcludedCategory) && item.pubDate >= earliest
  }

  function Acceptor(earliest: int): RssItem -> bool {
    item => Passes(item, earliest)
  }

  function ToArticle(item: RssItem): Article {
    Article(Strip(item.title), Strip(item.description), PhysorgAuthor, item.thumbnail,
            item.link, item.pubDate, Strip(item.category))
  }

  function ToArticles(items: seq<RssItem>): (r: seq<Article>)
    ensures |r| == |items|
    ensures forall i :: 0 <= i < |items| ==> r[i] == ToArticle(items[i])
  {
    seq(|items|, i requires 0 <= i < |items| => ToArticle(items[i]))
  }

  lemma ToArticlesAppend(items: seq<RssItem>, item: RssItem)
    ensures ToArticles(items + [item]) == ToArticles(items) + [ToArticle(item)]
  {
  }

  function Guids(items: seq<RssItem>): set<string> {
    set item | item in items :: item.guid
  }

  lemma GuidsAppend(items: seq<RssItem>, item: RssItem)
    ensures Guids(items + [item]) == Guids(items) + {item.guid}
  {
    assert forall x :: x in items + [item] <==> x in items || x == item;
  }

  /** The items the phys.org loop accepts, as a reference definition: scanning
      in feed order, an item is taken when its GUID is not among those already
      taken (`seen`) and it passes the `accept` test; the first passing item of
      a GUID wins. */
  function SelectFrom(items: seq<RssItem>, accept: RssItem -> bool, seen: set<string>): (r: seq<RssItem>)
    ensures forall i :: 0 <= i < |r| ==> r[i] in items && accept(r[i]) && r[i].guid !in seen
    ensures forall i, j :: 0 <= i < j < |r| ==> r[i].guid != r[j].guid
    ensures forall i :: 0 <= i < |items| && accept(items[i]) && items[i].guid !in seen ==>
      items[i].guid in Guids(r)
  {
    if items == [] then
      []
    else if items[0].guid in seen || !accept(items[0]) then
      var rest := SelectFrom(items[1..], accept, seen);
      assert forall i :: 1 <= i < |items| ==> items[i] == items[1..][i - 1];
      rest
    else
      var rest := SelectFrom(items[1..], accept, seen + {items[0].guid});
      var r := [items[0]] + rest;
      assert forall i :: 1 <= i < |r| ==> r[i] == rest[i - 1];
      assert Guids(rest) <= Guids(r);
      assert items[0].guid in Guids(r) by {
        assert r[0] in r;
      }
      assert forall i :: 1 <= i < |items| ==> items[i] == items[1..][i - 1];
      r
  }

  /** The first item of the feed with the given GUID that passes, if any. */
  function FirstAccepted(items: seq<RssItem>, accept: RssItem -> bool, guid: string): Option<RssItem> {
    if items == [] then None
    else if items[0].guid == guid && accept(items[0]) then Some(items[0])
    else FirstAccepted(items[1..], accept, guid)
  }

  /** First-wins: every selected item is the first passing item of its GUID. */
  lemma {:induction false} SelectFromFirstWins(items: seq<RssItem>, accept: RssItem -> bool, seen: set<string>, k: nat)
    requires k < |SelectFrom(items, accept, seen)|
    ensures FirstAccepted(items, accept, SelectFrom(items, accept, seen)[k].guid)
         == Some(SelectFrom(items, accept, seen)[k])
  {
    var r := SelectFrom(items, accept, seen);
    if items[0].guid in seen || !accept(items[0]) {
      SelectFromFirstWins(items[1..], accept, seen, k);
    } else if k > 0 {
      var rest := SelectFrom(items[1..], accept, seen + {items[0].guid});
      assert r[k] == rest[k - 1];
      SelectFromFirstWins(items[1..], accept, seen + {items[0].guid}, k - 1);
    }
  }

  /** Selection keeps the feed order. */
  lemma {:induction false} SelectFromIsSubsequence(items: seq<RssItem>, accept: RssItem -> bool, seen: set<string>)
    ensures Seqs.IsSubsequence(SelectFrom(items, accept, seen), items)
  {
    if items != [] {
      if items[0].guid in seen || !accept(items[0]) {
        SelectFromIsSubsequence(items[1..], accept, seen);
      } else {
        var rest := SelectFrom(items[1..], accept, seen + {items[0].guid});
        SelectFromIsSubsequence(items[1..], accept, seen + {items[0].guid});
        assert SelectFrom(items, accept, seen)[1..] == rest;
      }
    }
  }

  /** Selection over two feeds in turn: the first feed's selection, then the
      second feed's selection with the GUIDs taken from the first also counted
      as seen. Together with `SelectFromBase` this fixes the selection's order
      and multiplicity: a GUID is placed where its first passing item occurs. */
  lemma {:induction false} SelectFromAppend(a: seq<RssItem>, b: seq<RssItem>, accept: RssItem -> bool, seen: set<string>)
    ensures SelectFrom(a + b, accept, seen)
         == SelectFrom(a, accept, seen) + SelectFrom(b, accept, seen + Guids(SelectFrom(a, accept, seen)))
  {
    if a == [] {
      assert a + b == b;
      assert seen + Guids([]) == seen;
    } else {
      var x := a[0];
      assert (a + b)[0] == x && (a + b)[1..] == a[1..] + b;
      if x.guid in seen || !accept(x) {
        SelectFromAppend(a[1..], b, accept, seen);
      } else {
        var seen' := seen + {x.guid};
        var first := SelectFrom(a[1..], accept, seen');
        SelectFromAppend(a[1..], b, accept, seen');
        GuidsCons(x, first);
        assert seen + Guids([x] + first) == seen' + Guids(first);
        assert [x] + (first + SelectFrom(b, accept, seen' + Guids(first)))
            == ([x] + first) + SelectFrom(b, accept, seen' + Guids(first));
      }
    }
  }

  /** An empty feed selects nothing; a one-item feed selects its item exactly
      when its GUID is unseen and it passes. */
  lemma SelectFromBase(item: RssItem, accept: RssItem -> bool, seen: set<string>)
    ensures SelectFrom([], accept, seen) == []
    ensures SelectFrom([item], accept, seen) == if item.guid !in seen && accept(item) then [item] else []
  {
    assert [item][1..] == [];
  }

  lemma GuidsCons(item: RssItem, items: seq<RssItem>)
    ensures Guids([item] + items) == {item.guid} + Guids(items)
  {
    assert forall x :: x in [item] + items <==> x == item || x in items;
  }

  /** Scanning the items one by one extends the selection made so far. */
  lemma SelectFromStep(items: seq<RssItem>, i: nat, accept: RssItem -> bool, seen: set<string>)
    requires i < |items|
    ensures SelectFrom(items[i..], accept, seen) ==
      if items[i].guid in seen || !accept(items[i]) then SelectFrom(items[i + 1..], accept, seen)
      else [items[i]] + SelectFrom(items[i + 1..], accept, seen + {items[i].guid})
  {
    assert items[i..][0] == items[i];
    assert items[i..][1..] == items[i + 1..];
  }

  /** The loop invariant of `PhysorgArticles`: the items kept so far, followed
      by the selection from the rest of the feed, make up the whole selection. */
  predicate LoopInvariant(items: seq<RssItem>, i: nat, accept: RssItem -> bool, seen: set<string>, kept: seq<RssItem>) {
    i <= |items| && kept + SelectFrom(items[i..], accept, seen) == SelectFrom(items, accept, {}) && seen == Guids(kept)
  }

  /** A skipped item leaves the invariant in place for the next one. */
  lemma SkipStep(items: seq<RssItem>, i: nat, accept: RssItem -> bool, seen: set<string>, kept: seq<RssItem>)
    requires i < |items| && LoopInvariant(items, i, accept, seen, kept)
    requires items[i].guid in seen || !accept(items[i])
    ensures LoopInvariant(items, i + 1, accept, seen, kept)
  {
    SelectFromStep(items, i, accept, seen);
  }

  /** A taken item extends the kept items and the seen GUIDs. */
  lemma TakeStep(items: seq<RssItem>, i: nat, accept: RssItem -> bool, seen: set<string>, kept: seq<RssItem>)
    requires i < |items| && LoopInvariant(items, i, accept, seen, kept)
    requires items[i].guid !in seen && accept(items[i])
    ensures LoopInvariant(items, i + 1, accept, seen + {items[i].guid}, kept + [items[i]])
  {
    var tail := SelectFrom(items[i + 1..], accept, seen + {items[i].guid});
    TakeStepSelection(items, i, accept, seen);
    Regroup(kept, items[i], tail);
    GuidsAppend(kept, items[i]);
  }

  lemma TakeStepSelection(items: seq<RssItem>, i: nat, accept: RssItem -> bool, seen: set<string>)
    requires i < |items|
    requires items[i].guid !in seen && accept(items[i])
    ensures SelectFrom(items[i..], accept, seen) == [items[i]] + SelectFrom(items[i + 1..], accept, seen + {items[i].guid})
  {
    SelectFromStep(items, i, accept, seen);
  }

  lemma Regroup(kept: seq<RssItem>, item: RssItem, tail: seq<RssItem>)
    ensures kept + [item] + tail == kept + ([item] + tail)
  {
  }

  /** Every selected article is dated no earlier than the cut-off, lies outside
      the excluded category and is credited to phys.org. */
  lemma SelectedArticlesPass(items: seq<RssItem>, earliest: int)
    ensures forall i :: 0 <= i < |ToArticles(SelectFrom(items, Acceptor(earliest), {}))| ==>
      var a := ToArticles(SelectFrom(items, Acceptor(earliest), {}))[i];
      a.timestamp >= earliest && !Contains(a.category, ExcludedCategory) && a.author == PhysorgAuthor
  {
    var sel := SelectFrom(items, Acceptor(earliest), {});
    forall i | 0 <= i < |sel|
      ensures Passes(sel[i], earliest)
    {
      assert Acceptor(earliest)(sel[i]);
    }
  }

  /** The selection loop of `get_physorg_articles`: a dictionary keyed by GUID,
      filled in feed order and read back in insertion order. */
  method PhysorgArticles(items: seq<RssItem>, earliest: int) returns (articles: seq<Article>)
    ensures articles == ToArticles(SelectFrom(items, Acceptor(earliest), {}))
    ensures forall i :: 0 <= i < |articles| ==> articles[i].timestamp >= earliest
    ensures forall i :: 0 <= i < |articles| ==> !Contains(articles[i].category, ExcludedCategory)
    ensures forall i :: 0 <= i < |articles| ==> articles[i].author == PhysorgAuthor
  {
    var seen: set<string> := {};
    ghost var kept: seq<RssItem> := [];
    articles := [];
    var i := 0;
    while i < |items|
      invariant LoopInvariant(items, i, Acceptor(earliest), seen, kept)
      invariant articles == ToArticles(kept)
    {
      var item := items[i];
      if item.guid in seen {
        SkipStep(items, i, Acceptor(earliest), seen, kept);
        i := i + 1;
        continue;
      }
      var category := Strip(item.category);
      if Contains(category, ExcludedCategory) {
        SkipStep(items, i, Acceptor(earliest), seen, kept);
        i := i + 1;
        continue;
      }
      if item.pubDate < earliest {
        SkipStep(items, i, Acceptor(earliest), seen, kept);
        i := i + 1;
        continue;
      }
      TakeStep(items, i, Acceptor(earliest), seen, kept);
      ToArticlesAppend(kept, item);
      kept := kept + [item];
      seen := seen + {item.guid};
      articles := articles + [ToArticle(item)];
      i := i + 1;
    }
    assert items[i..] == [];
    SelectedArticlesPass(items, earliest);
  }

  // Ordering and truncation.

  /** Newest first: timestamps never increase along the list. */
  predicate SortedDesc(s: seq<Article>) {
    forall i, j :: 0 <= i < j < |s| ==> s[i].timestamp >= s[j].timestamp
  }

  /** Insertion of one article in front of every article that is not newer,
      which keeps the earlier of two equal timestamps first. */
  function InsertDesc(a: Article, s: seq<Article>): (r: seq<Article>)
    requires SortedDesc(s)
    ensures SortedDesc(r)
    ensures multiset(r) == multiset(s) + multiset{a}
    ensures |r| == |s| + 1
    ensures r[0] == a || (s != [] && r[0] == s[0])
  {
    if s == [] then
      [a]
    else if a.timestamp >= s[0].timestamp then
      ConsSorted(a, s);
      [a] + s
    else
      var rest := InsertDesc(a, s[1..]);
      assert s == [s[0]] + s[1..];
      ConsSorted(s[0], rest);
      [s[0]] + rest
  }

  /** A list stays newest first when an article no older than its head is put in front. */
  lemma ConsSorted(a: Article, s: seq<Article>)
    requires SortedDesc(s)
    requires s != [] ==> a.timestamp >= s[0].timestamp
    ensures SortedDesc([a] + s)
  {
    var r := [a] + s;
    forall i, j | 0 <= i < j < |r|
      ensures r[i].timestamp >= r[j].timestamp
    {
      assert r[j] == s[j - 1];
      if i > 0 {
        assert r[i] == s[i - 1];
      } else {
        assert s[0].timestamp >= s[j - 1].timestamp;
      }
    }
  }

  /** `sorted(articles, key=timestamp, reverse=True)`. */
  function SortDesc(s: seq<Article>): (r: seq<Article>)
    ensures SortedDesc(r)
    ensures multiset(r) == multiset(s)
    ensures |r| == |s|
  {
    if s == [] then
      []
    else
      assert s == [s[0]] + s[1..];
      InsertDesc(s[0], SortDesc(s[1..]))
  }

  /** `s[:limit]`, where `None` keeps everything; the routes accept only
      non-negative limits. */
  function Take(s: seq<Article>, limit: Option<nat>): (r: seq<Article>)
    ensures |r| == (if limit.None? || |s| <= limit.value then |s| else limit.value)
    ensures r == s[..|r|]
  {
    if limit.None? || |s| <= limit.value then s else s[..limit.value]
  }

  /** Truncating a newest-first list leaves out nothing newer than what it keeps. */
  lemma TakeKeepsNewest(s: seq<Article>, limit: Option<nat>)
    requires SortedDesc(s)
    ensures SortedDesc(Take(s, limit))
    ensures forall i, j :: 0 <= i < |Take(s, limit)| <= j < |s| ==> s[j].timestamp <= Take(s, limit)[i].timestamp
  {
  }

  /** The ordering every aggregator applies: newest first, then `[:limit]`. */
  function NewestFirst(articles: seq<Article>, limit: Option<nat>): (r: seq<Article>)
    ensures SortedDesc(r)
    ensures |r| == (if limit.None? || |articles| <= limit.value then |articles| else limit.value)
    ensures multiset(r) <= multiset(articles)
    ensures limit.None? ==> multiset(r) == multiset(articles)
  {
    var sorted := SortDesc(articles);
    TakeKeepsNewest(sorted, limit);
    TakeSubMultiset(sorted, limit);
    Take(sorted, limit)
  }

  /** A single source's list is a top-k selection: every article it leaves
      out is no newer than any article it keeps. */
  lemma NewestFirstTopK(articles: seq<Article>, limit: Option<nat>)
    ensures forall left, k | left in multiset(articles) - multiset(NewestFirst(articles, limit))
                            && 0 <= k < |NewestFirst(articles, limit)| ::
      left.timestamp <= NewestFirst(articles, limit)[k].timestamp
  {
    var sorted := SortDesc(articles);
    assert multiset(sorted) == multiset(articles);
    forall left | left in multiset(articles) - multiset(NewestFirst(articles, limit))
      ensures forall k :: 0 <= k < |NewestFirst(articles, limit)| ==>
        left.timestamp <= NewestFirst(articles, limit)[k].timestamp
    {
      TakeTopK(sorted, limit, left);
    }
  }

  /** `get_industry_articles`: the spaceflight-news articles, newest first, truncated. */
  function IndustryArticles(snapi: seq<Article>, limit: Option<nat>): seq<Article> {
    NewestFirst(snapi, limit)
  }

  /** `get_science_articles`: the phys.org articles, newest first, truncated. */
  function ScienceArticles(physorg: seq<Article>, limit: Option<nat>): seq<Article> {
    NewestFirst(physorg, limit)
  }

  /** `get_all_articles`: both lists, each taken whole, merged newest first and truncated. */
  function AllArticles(snapi: seq<Article>, physorg: seq<Article>, limit: Option<nat>): (r: seq<Article>)
    ensures SortedDesc(r)
    ensures |r| == (if limit.None? || |snapi| + |physorg| <= limit.value then |snapi| + |physorg| else limit.value)
    ensures multiset(r) <= multiset(snapi) + multiset(physorg)
    ensures limit.None? ==> multiset(r) == multiset(snapi) + multiset(physorg)
  {
    var merged := SortDesc(IndustryArticles(snapi, None) + ScienceArticles(physorg, None));
    TakeKeepsNewest(merged, limit);
    TakeSubMultiset(merged, limit);
    Take(merged, limit)
  }

  /** What truncation keeps is part of what it was given. */
  lemma TakeSubMultiset(s: seq<Article>, limit: Option<nat>)
    ensures multiset(Take(s, limit)) <= multiset(s)
  {
    var r := Take(s, limit);
    assert s == r + s[|r|..];
  }

  /** Truncation of a newest-first list is a top-k selection: whatever it
      leaves out is no newer than anything it keeps. */
  lemma TakeTopK(s: seq<Article>, limit: Option<nat>, left: Article)
    requires SortedDesc(s)
    requires left in multiset(s) - multiset(Take(s, limit))
    ensures forall k :: 0 <= k < |Take(s, limit)| ==> left.timestamp <= Take(s, limit)[k].timestamp
  {
    var r := Take(s, limit);
    assert s == r + s[|r|..];
    assert left in multiset(s[|r|..]);
    var j :| 0 <= j < |s[|r|..]| && s[|r|..][j] == left;
    assert s[|r| + j] == left;
  }

  /** The merged list is a top-k selection: every article of either source
      that is left out is no newer than any article that is kept. */
  lemma AllArticlesTopK(snapi: seq<Article>, physorg: seq<Article>, limit: Option<nat>)
    ensures forall left, k | left in multiset(snapi) + multiset(physorg) - multiset(AllArticles(snapi, physorg, limit))
                            && 0 <= k < |AllArticles(snapi, physorg, limit)| ::
      left.timestamp <= AllArticles(snapi, physorg, limit)[k].timestamp
  {
    var merged := SortDesc(IndustryArticles(snapi, None) + ScienceArticles(physorg, None));
    assert multiset(merged) == multiset(snapi) + multiset(physorg);
    forall left | left in multiset(snapi) + multiset(physorg) - multiset(AllArticles(snapi, physorg, limit))
      ensures forall k :: 0 <= k < |AllArticles(snapi, physorg, limit)| ==>
        left.timestamp <= AllArticles(snapi, physorg, limit)[k].timestamp
    {
      TakeTopK(merged, limit, left);
    }
  }
}
