/**
 * The scraper object: its search fields, its ordered article dictionary and
 * sorted list, updated in place by `collect_articles` and `scrape`.
 *
 * Each method is proved against the pure model of the other modules: a pass
 * of `collect_articles` against `CollectPass`, the `scrape` loop against
 * `Run`, the snapshot against `SnapshotText`, and the rows against
 * `Timeline.FormatArticles`.
 */
module Scraper {
  import opened Wrappers
  import opened SearchUrl
  import opened ArticleStore
  import opened Convergence
  import opened Timeline

  class TwitterScraper {
    var searchQuery: string
    var fromAccount: Option<string>
    var startDate: Option<string>
    var endDate: Option<string>
    var scrollPixelIncrement: int
    /** The keys of `article_htmls`, in insertion order. */
    var articleKeys: seq<Key>
    /** The values of `article_htmls`, by key. */
    var articleHtmls: map<Key, Article>
    /** `sorted_articles`, which only exists once `scrape` has set it. */
    var sortedArticles: Option<seq<Article>>

    /** `article_htmls` as a value. */
    function Articles(): Store
      reads this
    {
      Store(articleKeys, articleHtmls)
    }

    ghost predicate Valid()
      reads this
    {
      Articles().Valid()
    }

    constructor(searchQuery: string, fromAccount: Option<string>, startDate: Option<string>,
                endDate: Option<string>, scrollPixelIncrement: int)
      ensures Valid() && Articles() == EmptyStore && sortedArticles == None
      ensures this.searchQuery == searchQuery && this.fromAccount == fromAccount
      ensures this.startDate == startDate && this.endDate == endDate
      ensures this.scrollPixelIncrement == scrollPixelIncrement
    {
      this.searchQuery := searchQuery;
      this.fromAccount := fromAccount;
      this.startDate := startDate;
      this.endDate := endDate;
      this.scrollPixelIncrement := scrollPixelIncrement;
      articleKeys := [];
      articleHtmls := map[];
      sortedArticles := None;
    }

    /**
     * One `collect_articles` pass over the elements the page shows: the
     * dictionary ends as the pure pass says, and so keeps every old entry.
     */
    method CollectArticles(page: seq<Element>)
      requires Valid()
      modifies this`articleKeys, this`articleHtmls
      ensures Valid()
      ensures Articles() == CollectPass(old(Articles()), page)
      ensures Extends(old(Articles()), Articles())
    {
      CollectPassGrows(Articles(), page);
      var tweetTime: Option<string> := None;
      var i := 0;
      while i < |page|
        invariant 0 <= i <= |page|
        invariant Valid()
        invariant CollectPass(old(Articles()), page) == CollectFrom(Articles(), page[i..], tweetTime)
      {
        assert page[i..][0] == page[i] && page[i..][1..] == page[i + 1..];
        match page[i] {
          case Failed =>
            return;
          case Stale =>
          case Live(html, time) =>
            if html != "" {
              var key: Key;
              if time.Time? {
                tweetTime := time.datetime;
                key := tweetTime;
              } else {
                key := Some(html);
              }
              if key !in articleHtmls {
                InsertSpec(Articles(), key, Article(html, tweetTime));
                articleKeys := articleKeys + [key];
                articleHtmls := articleHtmls[key := Article(html, tweetTime)];
              }
            }
        }
        i := i + 1;
      }
    }

    /**
     * `scroll_page` against the heights the page reports: the scroll amounts
     * are tried in order and the probe stops at the first one after which the
     * page is taller than before the first; it reports growth exactly when
     * some scroll grew the page, and tries all three whenever none did.
     */
    method ScrollPage(probe: Probe) returns (grew: bool, tried: seq<int>)
      ensures 1 <= |tried| <= 3 && tried == ScrollAmounts(scrollPixelIncrement)[..|tried|]
      ensures forall j | 0 <= j < |tried| - 1 :: probe.After()[j] <= probe.initial
      ensures grew <==> probe.After()[|tried| - 1] > probe.initial
      ensures !grew ==> |tried| == 3
      ensures grew <==> ProbeGrew(probe)
    {
      var amounts := ScrollAmounts(scrollPixelIncrement);
      var heights := probe.After();
      tried := [];
      for k := 0 to 3
        invariant tried == amounts[..k]
        invariant forall j | 0 <= j < k :: heights[j] <= probe.initial
      {
        tried := tried + [amounts[k]];
        if heights[k] > probe.initial {
          return true, tried;
        }
      }
      return false, tried;
    }

    /** `save_progress`: the text written to the snapshot file. */
    method SaveProgress() returns (text: string)
      requires Valid()
      ensures text == SnapshotText(Values(Articles()))
    {
      var values := Values(Articles());
      text := "";
      for i := 0 to |values|
        invariant text == SnapshotText(values[..i])
      {
        var article := values[i];
        assert values[..i + 1] == values[..i] + [article];
        SnapshotSnoc(values[..i], article);
        text := text + EntryText(article);
      }
      assert values[..|values|] == values;
    }

    /**
     * One pass of the body of the `scrape` loop, from the loop variables
     * `scrollCount` and `noNewContent`; `passes` and `probes` count the
     * browser observations used so far. It ends the loop (`done`) or hands
     * back the variables for the next pass, as `Iterate` says.
     */
    method ScrapeRound(cfg: Config, browser: Browser, scrollCount: nat, noNewContent: nat,
                       passes: nat, probes: nat)
      returns (done: bool, exit: Exit, scrollCount': nat, noNewContent': nat, passes': nat, probes': nat)
      requires Valid()
      modifies this`articleKeys, this`articleHtmls
      ensures Valid()
      ensures Iterate(cfg, browser, LoopState(old(Articles()), scrollCount, noNewContent, passes, probes))
              == var st := LoopState(Articles(), scrollCount', noNewContent', passes', probes');
                 if done then Done(st, exit) else Next(st)
    {
      scrollCount', noNewContent', passes', probes' := scrollCount, noNewContent, passes, probes;
      exit := MaxScrollsReached;
      if Bounded(cfg) && scrollCount >= cfg.maxScrolls.value {
        return true, MaxScrollsReached, scrollCount', noNewContent', passes', probes';
      }
      var prevCount := |articleKeys|;
      CollectArticles(PassAt(browser, passes));
      passes' := passes + 1;
      if |articleKeys| == prevCount {
        noNewContent' := noNewContent + 1;
        if noNewContent' >= cfg.newContentRetries {
          return true, NoNewContent, scrollCount', noNewContent', passes', probes';
        }
      } else {
        noNewContent' := 0;
      }
      var grew, _ := ScrollPage(ProbeAt(browser, probes));
      probes' := probes + 1;
      if !grew {
        CollectArticles(PassAt(browser, passes'));
        passes' := passes' + 1;
        if |articleKeys| == prevCount {
          return true, PageEnd, scrollCount', noNewContent', passes', probes';
        }
      }
      scrollCount' := scrollCount + 1;
      done := false;
    }

    /**
     * `scrape`: the collection loop ends in the state and with the exit the
     * loop model gives, then the snapshot is taken and the values are sorted
     * by timestamp; the result lists their HTML in that order.
     */
    method Scrape(maxScrolls: Option<int>, newContentRetries: int, browser: Browser)
      returns (htmls: seq<string>, snapshot: string, exit: Exit)
      requires Valid()
      modifies this`articleKeys, this`articleHtmls, this`sortedArticles
      ensures Valid()
      ensures Extends(old(Articles()), Articles())
      ensures exit == Run(Config(maxScrolls, newContentRetries), browser, Start(old(Articles()))).1
      ensures Articles() == Run(Config(maxScrolls, newContentRetries), browser, Start(old(Articles()))).0.store
      ensures snapshot == SnapshotText(Values(Articles()))
      ensures sortedArticles == Some(SortByTimestamp(Values(Articles())))
      ensures htmls == Htmls(sortedArticles.value)
    {
      var cfg := Config(maxScrolls, newContentRetries);
      ghost var start := Start(Articles());
      RunGrows(cfg, browser, start);
      var scrollCount: nat, noNewContent: nat, passes: nat, probes: nat := 0, 0, 0, 0;
      while true
        invariant Valid()
        invariant Run(cfg, browser, start)
                  == Run(cfg, browser, LoopState(Articles(), scrollCount, noNewContent, passes, probes))
        decreases Remaining(browser, LoopState(Articles(), scrollCount, noNewContent, passes, probes))
      {
        var done;
        done, exit, scrollCount, noNewContent, passes, probes
          := ScrapeRound(cfg, browser, scrollCount, noNewContent, passes, probes);
        if done {
          break;
        }
      }
      ghost var final := Articles();
      assert final == Run(cfg, browser, start).0.store;
      snapshot := SaveProgress();
      var sorted := SortByTimestamp(Values(Articles()));
      sortedArticles := Some(sorted);
      assert Articles() == final;
      htmls := Htmls(sorted);
    }

    /**
     * `format_articles` over `sorted_articles`: `ids` stands for the
     * `uuid4()` values drawn in turn, `textOf` for `get_text()` and
     * `imagesOf` for the `src` of each matched image. Before any `scrape`
     * the attribute does not exist and the call raises. Otherwise the rows
     * are built one article at a time; a missing `src` aborts the whole call.
     */
    method FormatArticles(ids: seq<string>, textOf: string -> string,
                          imagesOf: string -> seq<Option<string>>)
      returns (r: Result<seq<Row>, FormatError>)
      requires sortedArticles.Some? ==> |ids| == |sortedArticles.value|
      ensures sortedArticles.None? ==> r == Err(NotScraped)
      ensures sortedArticles.Some? ==> r == Timeline.FormatArticles(sortedArticles.value, ids, textOf, imagesOf)
    {
      if sortedArticles.None? {
        return Err(NotScraped);
      }
      var sorted := sortedArticles.value;
      var rows: seq<Row> := [];
      match FormatFrom(sorted, 0, ids, textOf, imagesOf) {
        case Ok(more) => assert rows + more == more;
        case Err(_) =>
      }
      for i := 0 to |sorted|
        invariant Timeline.FormatArticles(sorted, ids, textOf, imagesOf)
                  == Prepend(rows, FormatFrom(sorted, i, ids, textOf, imagesOf))
      {
        var article := sorted[i];
        var image := RelevantImage(imagesOf(article.html));
        if image.Err? {
          return Err(MissingSrc(i));
        }
        var row := Row(ids[i], article.timestamp, textOf(article.html), image.value);
        match FormatFrom(sorted, i + 1, ids, textOf, imagesOf) {
          case Ok(more) => assert rows + ([row] + more) == rows + [row] + more;
          case Err(_) =>
        }
        rows := rows + [row];
      }
      assert FormatFrom(sorted, |sorted|, ids, textOf, imagesOf) == Ok([]);
      assert rows + [] == rows;
      return Ok(rows);
    }
  }

  /** Rows already built, followed by the outcome of building the rest. */
  function Prepend(rows: seq<Row>, rest: Result<seq<Row>, FormatError>): Result<seq<Row>, FormatError> {
    match rest
    case Ok(more) => Ok(rows + more)
    case Err(e) => Err(e)
  }
}
