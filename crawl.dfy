/**
 * The crawler of HomeTest/scripts/data-crawl.py: the delta classifier
 * `get_category` and the admission loop that walks the help-center pages
 * newest-first (lines 107-218).
 *
 * Each HTTP response is one element of a `seq<Response>`; the sequence ends
 * where the source's `next_page` is missing.  Timestamps are integers,
 * SHA-256 is the arbitrary function `sha` of a `Config`, and the
 * HTML-to-markdown conversion is already done: an `Article` carries its
 * markdown text.
 */
module Crawl {
  import opened Wrappers
  import Text

  type ArticleId = int
  type Digest = string
  type FileId = string

  /** At most this many articles are saved per run (data-crawl.py:138). */
  const MaxArticles: nat := 40

  datatype Article = Article(
    id: ArticleId,
    title: string,
    htmlUrl: string,
    draft: bool,
    updatedAt: int,
    createdAt: int,
    markdown: string)

  /** The folder an article is written to: `articles/new` or `articles/updated`. */
  datatype Category = New | Updated

  /** One document of the `articles_metadata` collection, keyed by article id. */
  datatype Record = Record(
    title: string,
    slug: string,
    updatedAt: int,
    createdAt: int,
    category: Category,
    contentHash: Option<Digest>,
    fileId: Option<FileId>)

  type Metadata = map<ArticleId, Record>

  /**
   * One response of the articles endpoint.  `Raised` stands for any exception
   * that escapes the crawl loop: the request or its JSON decoding, and also
   * one raised while processing an article of the page (a missing key, a
   * malformed or naive `updated_at`, a `None` title, a failed file write).
   * Either way the script saves nothing and exits 1; where in the page the
   * exception happened is not modelled.
   */
  datatype Response =
    | Articles(articles: seq<Article>)  // a page with an "articles" list
    | NoArticles                        // a body without "articles" (line 126-128)
    | Raised                            // an exception escaped while fetching or processing the page

  /** What is fixed for a run: first-run flag, cutoff time and the hash function. */
  datatype Config = Config(isFirst: bool, cutoff: int, sha: string -> Digest)

  /** The loop's variables: metadata, the four counters and the two ways out. */
  datatype Tally = Tally(
    meta: Metadata,
    newCount: nat,
    updatedCount: nat,
    skippedCount: nat,
    crawledCount: nat,
    stop: bool,
    crashed: bool)

  function Start(meta: Metadata): Tally {
    Tally(meta, 0, 0, 0, 0, false, false)
  }

  // ---------------------------------------------------------------------------
  // Pure helpers (data-crawl.py:85-102, 167-169)
  // ---------------------------------------------------------------------------

  predicate ShouldCrawl(updatedAt: int, cutoff: int) {
    updatedAt > cutoff
  }

  /** The hash covers the normalised markdown only, not the title or URL header. */
  function ContentHash(a: Article, sha: string -> Digest): Digest {
    sha(Text.NormalizeWhitespace(a.markdown))
  }

  /** The stored hash is present, non-empty (truthy) and equal to `h`. */
  predicate SameHash(r: Record, h: Digest) {
    r.contentHash.Some? && r.contentHash.value != "" && r.contentHash.value == h
  }

  /**
   * `get_category`: "new" on a first run or for an unknown id, `None` exactly
   * when a stored, non-empty hash equals the new one, "updated" otherwise
   * (which includes a missing or empty stored hash).
   */
  function GetCategory(id: ArticleId, meta: Metadata, isFirst: bool, h: Digest): (r: Option<Category>)
    ensures r == Some(New) <==> isFirst || id !in meta
    ensures r == None <==> !isFirst && id in meta && SameHash(meta[id], h)
    ensures r == Some(Updated) <==> !isFirst && id in meta && !SameHash(meta[id], h)
  {
    if isFirst then Some(New)
    else if id !in meta then Some(New)
    else
      var stored := meta[id].contentHash;
      if stored.Some? && stored.value != "" && stored.value == h then None
      else Some(Updated)
  }

  /** `metadata.get(article_id, {}).get("openai_file_id")`. */
  function PreviousFileId(meta: Metadata, id: ArticleId): Option<FileId> {
    if id in meta then meta[id].fileId else None
  }

  function SavedRecord(a: Article, cat: Category, h: Digest, fileId: Option<FileId>): Record {
    Record(a.title, Text.Slugify(a.title), a.updatedAt, a.createdAt, cat, Some(h), fileId)
  }

  // ---------------------------------------------------------------------------
  // The loop, as a function (data-crawl.py:122-208)
  // ---------------------------------------------------------------------------

  /** One iteration of the inner `for article` loop. */
  function Step(t: Tally, a: Article, c: Config): Tally {
    if a.draft then t
    else if (!c.isFirst && a.updatedAt <= c.cutoff) || t.crawledCount >= MaxArticles then
      t.(stop := true)
    else if !ShouldCrawl(a.updatedAt, c.cutoff) && !c.isFirst then
      assert false; t  // lines 144-146: dead, line 138 has already stopped on this condition
    else
      var h := ContentHash(a, c.sha);
      match GetCategory(a.id, t.meta, c.isFirst, h)
      case None => t.(skippedCount := t.skippedCount + 1)
      case Some(cat) =>
        t.(meta := t.meta[a.id := SavedRecord(a, cat, h, PreviousFileId(t.meta, a.id))],
           crawledCount := t.crawledCount + 1,
           newCount := if cat == New then t.newCount + 1 else t.newCount,
           updatedCount := if cat == Updated then t.updatedCount + 1 else t.updatedCount)
  }

  /** The articles of one page, until one of them sets `stop`. */
  function Scan(arts: seq<Article>, t: Tally, c: Config): Tally
    decreases |arts|
  {
    if arts == [] || t.stop then t else Scan(arts[1..], Step(t, arts[0], c), c)
  }

  /** The pages, until `stop` is set, a page has no articles, or a request raises. */
  function Run(pages: seq<Response>, t: Tally, c: Config): Tally
    decreases |pages|
  {
    if pages == [] || t.stop then t
    else match pages[0]
      case NoArticles => t
      case Raised => t.(crashed := true)
      case Articles(arts) => Run(pages[1..], Scan(arts, t, c), c)
  }

  // ---------------------------------------------------------------------------
  // The loop as the source writes it
  // ---------------------------------------------------------------------------

  lemma ScanNext(arts: seq<Article>, j: nat, t: Tally, c: Config)
    requires j < |arts| && !t.stop
    ensures Scan(arts[j..], t, c) == Scan(arts[j + 1..], Step(t, arts[j], c), c)
  {
    assert arts[j..][1..] == arts[j + 1..];
  }

  /**
   * The body of the `for article in res["articles"]` loop (lines 130-206):
   * `stop` is set where the source sets `stop_crawl` and breaks.
   */
  method VisitArticle(article: Article, metadata: Metadata, newCount: nat, updatedCount: nat,
                      skippedCount: nat, crawledCount: nat, c: Config)
    returns (metadata': Metadata, newCount': nat, updatedCount': nat, skippedCount': nat,
             crawledCount': nat, stop: bool)
    ensures Tally(metadata', newCount', updatedCount', skippedCount', crawledCount', stop, false)
         == Step(Tally(metadata, newCount, updatedCount, skippedCount, crawledCount, false, false), article, c)
  {
    metadata', newCount', updatedCount', skippedCount', crawledCount' :=
      metadata, newCount, updatedCount, skippedCount, crawledCount;
    stop := false;
    if article.draft {
      return;
    }
    if (!c.isFirst && article.updatedAt <= c.cutoff) || crawledCount >= MaxArticles {
      stop := true;
      return;
    }
    if !ShouldCrawl(article.updatedAt, c.cutoff) && !c.isFirst {
      // The skip of lines 144-146 repeats the test of line 138, which has
      // already stopped the crawl: the branch is dead.
      assert false;
    }
    var contentHash := ContentHash(article, c.sha);
    var category := GetCategory(article.id, metadata, c.isFirst, contentHash);
    if category.None? {
      skippedCount' := skippedCount + 1;
      return;
    }
    var slug := Text.Slugify(article.title);
    metadata' := metadata[article.id := Record(article.title, slug, article.updatedAt, article.createdAt,
                                               category.value, Some(contentHash),
                                               PreviousFileId(metadata, article.id))];
    crawledCount' := crawledCount + 1;
    if category.value == New {
      newCount' := newCount + 1;
    } else {
      updatedCount' := updatedCount + 1;
    }
  }

  /** The `while url and not stop_crawl` loop (lines 122-208). */
  method CrawlPages(pages: seq<Response>, meta0: Metadata, c: Config)
    returns (metadata: Metadata, newCount: nat, updatedCount: nat, skippedCount: nat,
             crawledCount: nat, crashed: bool)
    ensures var r := Run(pages, Start(meta0), c);
      && metadata == r.meta && crashed == r.crashed
      && newCount == r.newCount && updatedCount == r.updatedCount
      && skippedCount == r.skippedCount && crawledCount == r.crawledCount
  {
    metadata := meta0;
    newCount, updatedCount, skippedCount, crawledCount := 0, 0, 0, 0;
    crashed := false;
    var stopCrawl := false;
    var i := 0;
    while i < |pages| && !stopCrawl
      invariant 0 <= i <= |pages| && !crashed
      invariant Run(pages, Start(meta0), c)
        == Run(pages[i..], Tally(metadata, newCount, updatedCount, skippedCount, crawledCount, stopCrawl, false), c)
    {
      if pages[i].NoArticles? {
        break;
      }
      if pages[i].Raised? {
        crashed := true;
        break;
      }
      var arts := pages[i].articles;
      for j := 0 to |arts|
        invariant !stopCrawl
        invariant Run(pages, Start(meta0), c)
          == Run(pages[i + 1..], Scan(arts[j..], Tally(metadata, newCount, updatedCount, skippedCount, crawledCount, false, false), c), c)
      {
        ScanNext(arts, j, Tally(metadata, newCount, updatedCount, skippedCount, crawledCount, false, false), c);
        var stop;
        metadata, newCount, updatedCount, skippedCount, crawledCount, stop :=
          VisitArticle(arts[j], metadata, newCount, updatedCount, skippedCount, crawledCount, c);
        if stop {
          stopCrawl := true;
          break;
        }
      }
      i := i + 1;
    }
  }

  // ---------------------------------------------------------------------------
  // The metadata collection and the whole script (data-crawl.py:46-83, 107-211)
  // ---------------------------------------------------------------------------

  /** The MongoDB collection `articles_metadata`. */
  class MetadataCollection {
    var docs: Metadata

    constructor (docs: Metadata)
      ensures this.docs == docs
    {
      this.docs := docs;
    }

    /** `load_metadata`: every document, or `{}` when the database cannot be read. */
    method Load(readOk: bool) returns (m: Metadata)
      ensures m == if readOk then docs else map[]
    {
      m := if readOk then docs else map[];
    }

    /** `save_metadata`: an upsert of every entry; a failure raises and writes nothing. */
    method Save(m: Metadata, writeOk: bool) returns (ok: bool)
      modifies this
      ensures ok == writeOk
      ensures docs == if writeOk then old(docs) + m else old(docs)
    {
      if writeOk {
        docs := docs + m;
      }
      ok := writeOk;
    }
  }

  /**
   * The script from line 107 on.  `loadOk` and `recheckOk` say whether the
   * two reads of the collection (lines 107 and 108) succeed, `saveOk` whether
   * the final write does; `ok` is false exactly when the script raises.
   */
  method CrawlScript(store: MetadataCollection, pages: seq<Response>, cutoff: int, sha: string -> Digest,
                     loadOk: bool, recheckOk: bool, saveOk: bool)
    returns (ok: bool, newCount: nat, updatedCount: nat, skippedCount: nat, crawledCount: nat)
    modifies store
    ensures var isFirst := !recheckOk || |old(store.docs)| == 0;
      var r := Run(pages, Start(if loadOk then old(store.docs) else map[]), Config(isFirst, cutoff, sha));
      && ok == (!r.crashed && saveOk)
      && store.docs == (if ok then old(store.docs) + r.meta else old(store.docs))
      && newCount == r.newCount && updatedCount == r.updatedCount
      && skippedCount == r.skippedCount && crawledCount == r.crawledCount
  {
    var metadata := store.Load(loadOk);
    var again := store.Load(recheckOk);
    var isFirst := |again| == 0;
    var crashed;
    metadata, newCount, updatedCount, skippedCount, crawledCount, crashed :=
      CrawlPages(pages, metadata, Config(isFirst, cutoff, sha));
    if crashed {
      ok := false;
      return;
    }
    ok := store.Save(metadata, saveOk);
  }

  // ---------------------------------------------------------------------------
  // Properties of the loop
  // ---------------------------------------------------------------------------

  /** The cap holds and every saved article is counted as new or updated. */
  predicate Consistent(t: Tally) {
    t.crawledCount <= MaxArticles && t.newCount + t.updatedCount == t.crawledCount
  }

  lemma {:induction false} ScanConsistent(arts: seq<Article>, t: Tally, c: Config)
    requires Consistent(t)
    ensures Consistent(Scan(arts, t, c))
    decreases |arts|
  {
    if arts != [] && !t.stop {
      ScanConsistent(arts[1..], Step(t, arts[0], c), c);
    }
  }

  /**
   * At most 40 articles are saved per run, and at the end
   * `new_count + updated_count == crawled_count`.
   */
  lemma {:induction false} RunConsistent(pages: seq<Response>, t: Tally, c: Config)
    requires Consistent(t)
    ensures Consistent(Run(pages, t, c))
    decreases |pages|
  {
    if pages != [] && !t.stop && pages[0].Articles? {
      ScanConsistent(pages[0].articles, t, c);
      RunConsistent(pages[1..], Scan(pages[0].articles, t, c), c);
    }
  }

  lemma CrawlCapped(pages: seq<Response>, meta: Metadata, c: Config)
    ensures var r := Run(pages, Start(meta), c);
      r.crawledCount <= MaxArticles && r.newCount + r.updatedCount == r.crawledCount
  {
    RunConsistent(pages, Start(meta), c);
  }

  /** Once 40 articles are saved, the next non-draft article stops the crawl unprocessed. */
  lemma FullCrawlStops(t: Tally, a: Article, c: Config)
    requires t.crawledCount >= MaxArticles && !a.draft
    ensures Step(t, a, c) == t.(stop := true)
  {
  }

  /** A draft changes nothing, not even a counter. */
  lemma DraftIgnored(t: Tally, a: Article, c: Config)
    requires a.draft
    ensures Step(t, a, c) == t
  {
  }

  function NonDrafts(arts: seq<Article>): (r: seq<Article>)
    ensures forall a :: a in r ==> a in arts && !a.draft
  {
    if arts == [] then [] else (if arts[0].draft then [] else [arts[0]]) + NonDrafts(arts[1..])
  }

  function WithoutDrafts(pages: seq<Response>): (r: seq<Response>)
    ensures |r| == |pages|
  {
    if pages == [] then []
    else [if pages[0].Articles? then Articles(NonDrafts(pages[0].articles)) else pages[0]]
         + WithoutDrafts(pages[1..])
  }

  lemma {:induction false} ScanWithoutDrafts(arts: seq<Article>, t: Tally, c: Config)
    ensures Scan(NonDrafts(arts), t, c) == Scan(arts, t, c)
    decreases |arts|
  {
    if arts != [] && !t.stop {
      ScanWithoutDrafts(arts[1..], Step(t, arts[0], c), c);
      if arts[0].draft {
        assert NonDrafts(arts) == NonDrafts(arts[1..]);
      } else {
        assert NonDrafts(arts) == [arts[0]] + NonDrafts(arts[1..]);
        assert NonDrafts(arts)[1..] == NonDrafts(arts[1..]);
      }
    }
  }

  /** Removing every draft from every page gives the same crawl. */
  lemma {:induction false} DraftsIgnored(pages: seq<Response>, t: Tally, c: Config)
    ensures Run(WithoutDrafts(pages), t, c) == Run(pages, t, c)
    decreases |pages|
  {
    if pages != [] && !t.stop {
      var w := WithoutDrafts(pages);
      assert w[0] == (if pages[0].Articles? then Articles(NonDrafts(pages[0].articles)) else pages[0]);
      assert w[1..] == WithoutDrafts(pages[1..]);
      if pages[0].Articles? {
        ScanWithoutDrafts(pages[0].articles, t, c);
        DraftsIgnored(pages[1..], Scan(pages[0].articles, t, c), c);
      }
    }
  }

  /** An article at or before the cutoff, on a non-first run. */
  predicate Stale(a: Article, c: Config) {
    !a.draft && !c.isFirst && a.updatedAt <= c.cutoff
  }

  lemma {:induction false} ScanStopsAtStale(before: seq<Article>, x: Article, after: seq<Article>, t: Tally, c: Config)
    requires Stale(x, c)
    ensures Scan(before + [x] + after, t, c) == Scan(before + [x], t, c)
    ensures Scan(before + [x], t, c).stop
    decreases |before|
  {
    if t.stop {
    } else if before == [] {
      assert ([x] + after)[1..] == after;
      assert [x][1..] == [];
    } else {
      assert (before + [x] + after)[1..] == before[1..] + [x] + after;
      assert (before + [x])[1..] == before[1..] + [x];
      ScanStopsAtStale(before[1..], x, after, Step(t, before[0], c), c);
    }
  }

  /**
   * On a non-first run the first non-draft article at or before the cutoff
   * ends the crawl: whatever follows it, on its page or on later pages, is
   * never looked at.
   */
  lemma {:induction false} StaleEndsCrawl(pre: seq<Response>, before: seq<Article>, x: Article,
                                          after: seq<Article>, post: seq<Response>, t: Tally, c: Config)
    requires Stale(x, c)
    ensures Run(pre + [Articles(before + [x] + after)] + post, t, c) == Run(pre + [Articles(before + [x])], t, c)
    decreases |pre|
  {
    var long := pre + [Articles(before + [x] + after)] + post;
    var short := pre + [Articles(before + [x])];
    if t.stop {
    } else if pre == [] {
      assert long[0] == Articles(before + [x] + after) && long[1..] == post;
      assert short[0] == Articles(before + [x]) && short[1..] == [];
      ScanStopsAtStale(before, x, after, t, c);
    } else {
      assert long[0] == pre[0] && long[1..] == pre[1..] + [Articles(before + [x] + after)] + post;
      assert short[0] == pre[0] && short[1..] == pre[1..] + [Articles(before + [x])];
      if pre[0].Articles? {
        StaleEndsCrawl(pre[1..], before, x, after, post, Scan(pre[0].articles, t, c), c);
      }
    }
  }

  lemma {:induction false} ScanIgnoresCutoffOnFirstRun(arts: seq<Article>, t: Tally, c: Config, cutoff: int)
    requires c.isFirst
    ensures Scan(arts, t, c.(cutoff := cutoff)) == Scan(arts, t, c)
    decreases |arts|
  {
    if arts != [] && !t.stop {
      assert Step(t, arts[0], c.(cutoff := cutoff)) == Step(t, arts[0], c);
      ScanIgnoresCutoffOnFirstRun(arts[1..], Step(t, arts[0], c), c, cutoff);
    }
  }

  /** On a first run the cutoff plays no part: only the cap can stop the crawl. */
  lemma {:induction false} FirstRunIgnoresCutoff(pages: seq<Response>, t: Tally, c: Config, cutoff: int)
    requires c.isFirst
    ensures Run(pages, t, c.(cutoff := cutoff)) == Run(pages, t, c)
    decreases |pages|
  {
    if pages != [] && !t.stop && pages[0].Articles? {
      ScanIgnoresCutoffOnFirstRun(pages[0].articles, t, c, cutoff);
      FirstRunIgnoresCutoff(pages[1..], Scan(pages[0].articles, t, c), c, cutoff);
    }
  }

  /**
   * Every record keeps the `openai_file_id` it had before the run, a record
   * created by the run has none, and no record is removed.
   */
  predicate FileIdsKept(m: Metadata, m0: Metadata) {
    && m0.Keys <= m.Keys
    && forall id :: id in m ==> m[id].fileId == PreviousFileId(m0, id)
  }

  lemma {:induction false} ScanKeepsFileIds(arts: seq<Article>, t: Tally, c: Config, m0: Metadata)
    requires FileIdsKept(t.meta, m0)
    ensures FileIdsKept(Scan(arts, t, c).meta, m0)
    decreases |arts|
  {
    if arts != [] && !t.stop {
      ScanKeepsFileIds(arts[1..], Step(t, arts[0], c), c, m0);
    }
  }

  lemma {:induction false} RunKeepsFileIds(pages: seq<Response>, t: Tally, c: Config, m0: Metadata)
    requires FileIdsKept(t.meta, m0)
    ensures FileIdsKept(Run(pages, t, c).meta, m0)
    decreases |pages|
  {
    if pages != [] && !t.stop && pages[0].Articles? {
      ScanKeepsFileIds(pages[0].articles, t, c, m0);
      RunKeepsFileIds(pages[1..], Scan(pages[0].articles, t, c), c, m0);
    }
  }

  lemma CrawlKeepsFileIds(pages: seq<Response>, meta: Metadata, c: Config)
    ensures FileIdsKept(Run(pages, Start(meta), c).meta, meta)
  {
    RunKeepsFileIds(pages, Start(meta), c, meta);
  }

  /** The ids of every article on every page. */
  function PageIds(pages: seq<Response>): set<ArticleId> {
    if pages == [] then {}
    else (if pages[0].Articles? then set a | a in pages[0].articles :: a.id else {}) + PageIds(pages[1..])
  }

  lemma {:induction false} ScanFrame(arts: seq<Article>, t: Tally, c: Config, id: ArticleId)
    requires forall a :: a in arts ==> a.id != id
    ensures var m := Scan(arts, t, c).meta;
      (id in m <==> id in t.meta) && (id in m ==> m[id] == t.meta[id])
    decreases |arts|
  {
    if arts != [] && !t.stop {
      assert arts[0] in arts;
      ScanFrame(arts[1..], Step(t, arts[0], c), c, id);
    }
  }

  /** A record whose id appears on no page is exactly as it was. */
  lemma {:induction false} RunFrame(pages: seq<Response>, t: Tally, c: Config, id: ArticleId)
    requires id !in PageIds(pages)
    ensures var m := Run(pages, t, c).meta;
      (id in m <==> id in t.meta) && (id in m ==> m[id] == t.meta[id])
    decreases |pages|
  {
    if pages != [] && !t.stop && pages[0].Articles? {
      ScanFrame(pages[0].articles, t, c, id);
      RunFrame(pages[1..], Scan(pages[0].articles, t, c), c, id);
    }
  }

  /**
   * An admitted article whose stored hash matches is skipped: only
   * `skipped_count` moves, so it does not use up the cap.
   */
  lemma UnchangedArticleSkipped(t: Tally, a: Article, c: Config)
    requires !a.draft && !c.isFirst && a.updatedAt > c.cutoff && t.crawledCount < MaxArticles
    requires a.id in t.meta && SameHash(t.meta[a.id], ContentHash(a, c.sha))
    ensures Step(t, a, c) == t.(skippedCount := t.skippedCount + 1)
  {
  }

  /**
   * An admitted article that `get_category` files under `cat` (an unknown id
   * or any id on a first run is "new", a known id whose stored hash differs
   * or is missing is "updated") is saved: its record gets the new title,
   * slug, times, category and hash, and keeps the `openai_file_id` it had,
   * or none when it had no record. `crawled_count` and the counter of `cat`
   * move by one.
   */
  lemma ArticleSaved(t: Tally, a: Article, c: Config, cat: Category)
    requires !a.draft && (c.isFirst || a.updatedAt > c.cutoff) && t.crawledCount < MaxArticles
    requires GetCategory(a.id, t.meta, c.isFirst, ContentHash(a, c.sha)) == Some(cat)
    ensures var r := Step(t, a, c);
      && r.meta == t.meta[a.id := Record(a.title, Text.Slugify(a.title), a.updatedAt, a.createdAt, cat,
                                         Some(ContentHash(a, c.sha)), PreviousFileId(t.meta, a.id))]
      && r.crawledCount == t.crawledCount + 1 && r.skippedCount == t.skippedCount
      && r.newCount == (if cat == New then t.newCount + 1 else t.newCount)
      && r.updatedCount == (if cat == Updated then t.updatedCount + 1 else t.updatedCount)
      && r.stop == t.stop && r.crashed == t.crashed
  {
  }

  /**
   * The hash does not cover the `# title` and `**Source:**` header written to
   * the file: an article whose only change is its title or URL is skipped.
   */
  lemma HeaderChangeNotDetected(t: Tally, a: Article, c: Config, title: string, url: string)
    requires !a.draft && !c.isFirst && a.updatedAt > c.cutoff && t.crawledCount < MaxArticles
    requires a.id in t.meta && SameHash(t.meta[a.id], ContentHash(a, c.sha))
    ensures Step(t, a.(title := title, htmlUrl := url), c) == t.(skippedCount := t.skippedCount + 1)
  {
  }
}
