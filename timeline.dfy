/**
 * What happens to the store once collection ends: the snapshot text written
 * by `save_progress`, the stable sort by timestamp that `scrape` returns, and
 * the rows `format_articles` builds from the sorted articles.
 */
module Timeline {
  import opened Wrappers
  import opened ArticleStore

  // ---------------------------------------------------------------------------
  // Store values in insertion order
  // ---------------------------------------------------------------------------

  /** `self.article_htmls.values()`, in insertion order. */
  function Values(s: Store): (r: seq<Article>)
    requires forall i | 0 <= i < |s.keys| :: s.keys[i] in s.entries
    ensures |r| == |s.keys|
    ensures forall i | 0 <= i < |r| :: r[i] == s.entries[s.keys[i]]
  {
    seq(|s.keys|, i requires 0 <= i < |s.keys| => s.entries[s.keys[i]])
  }

  /** A store that extends another lists the old values first, unchanged. */
  lemma ValuesExtend(s: Store, t: Store)
    requires s.Valid() && t.Valid() && Extends(s, t)
    ensures Values(t)[..|s.keys|] == Values(s)
  {
    forall i | 0 <= i < |s.keys| ensures Values(t)[i] == Values(s)[i] {
      assert t.keys[i] == t.keys[..|s.keys|][i] == s.keys[i];
    }
  }

  // ---------------------------------------------------------------------------
  // Snapshot text (save_progress)
  // ---------------------------------------------------------------------------

  /** How an f-string prints an optional timestamp: `None` prints as `None`. */
  function TimestampText(t: Option<string>): string {
    match t
    case Some(v) => v
    case None => "None"
  }

  /** The lines written for one stored article. */
  function EntryText(a: Article): string {
    "Timestamp: " + TimestampText(a.timestamp) + "\n" + a.html + "\n---\n"
  }

  /** The whole snapshot file: one block per article, in store order. */
  function SnapshotText(articles: seq<Article>): string {
    if articles == [] then "" else EntryText(articles[0]) + SnapshotText(articles[1..])
  }

  lemma {:induction false} SnapshotAppend(a: seq<Article>, b: seq<Article>)
    ensures SnapshotText(a + b) == SnapshotText(a) + SnapshotText(b)
  {
    if a == [] {
      assert a + b == b;
    } else {
      assert (a + b)[0] == a[0] && (a + b)[1..] == a[1..] + b;
      SnapshotAppend(a[1..], b);
    }
  }

  /** Writing one more article appends exactly its block. */
  lemma SnapshotSnoc(a: seq<Article>, x: Article)
    ensures SnapshotText(a + [x]) == SnapshotText(a) + EntryText(x)
  {
    SnapshotAppend(a, [x]);
    assert [x][1..] == [];
  }

  /**
   * Because a store only grows by appending, the snapshot of a later store
   * starts with the snapshot of any earlier one.
   */
  lemma SnapshotExtends(s: Store, t: Store)
    requires s.Valid() && t.Valid() && Extends(s, t)
    ensures var old_text := SnapshotText(Values(s));
            var new_text := SnapshotText(Values(t));
            |old_text| <= |new_text| && new_text[..|old_text|] == old_text
  {
    ValuesExtend(s, t);
    var vt := Values(t);
    assert vt == vt[..|s.keys|] + vt[|s.keys|..];
    SnapshotAppend(vt[..|s.keys|], vt[|s.keys|..]);
  }

  /** Each block starts with the timestamp label and ends with the separator line. */
  lemma EntryTextShape(a: Article)
    ensures var e := EntryText(a);
            && |e| >= 16
            && e[..11] == "Timestamp: "
            && e[|e| - 5..] == "\n---\n"
            && (a.timestamp.None? ==> e[11..15] == "None")
  {
    var e := EntryText(a);
    assert e == "Timestamp: " + (TimestampText(a.timestamp) + "\n" + a.html + "\n---\n");
    assert e == ("Timestamp: " + TimestampText(a.timestamp) + "\n" + a.html) + "\n---\n";
  }

  // ---------------------------------------------------------------------------
  // The stable sort by timestamp
  // ---------------------------------------------------------------------------

  /** The sort key: the timestamp, or `''` when it is `None` (or empty). */
  function SortKey(a: Article): string {
    match a.timestamp
    case Some(t) => t
    case None => ""
  }

  /** Python's `<=` on `str`: lexicographic by code point. */
  predicate LexLe(a: string, b: string) {
    if a == [] then true
    else if b == [] then false
    else if a[0] != b[0] then a[0] < b[0]
    else LexLe(a[1..], b[1..])
  }

  lemma {:induction false} LexLeTotal(a: string, b: string)
    ensures LexLe(a, b) || LexLe(b, a)
  {
    if a != [] && b != [] && a[0] == b[0] {
      LexLeTotal(a[1..], b[1..]);
    }
  }

  lemma {:induction false} LexLeTrans(a: string, b: string, c: string)
    requires LexLe(a, b) && LexLe(b, c)
    ensures LexLe(a, c)
  {
    if a != [] && b != [] && c != [] && a[0] == b[0] && b[0] == c[0] {
      LexLeTrans(a[1..], b[1..], c[1..]);
    }
  }

  lemma {:induction false} LexLeAntisym(a: string, b: string)
    requires LexLe(a, b) && LexLe(b, a)
    ensures a == b
  {
    if a != [] && b != [] {
      LexLeAntisym(a[1..], b[1..]);
      assert a == [a[0]] + a[1..] && b == [b[0]] + b[1..];
    }
  }

  ghost predicate SortedByTimestamp(s: seq<Article>) {
    forall i, j | 0 <= i < j < |s| :: LexLe(SortKey(s[i]), SortKey(s[j]))
  }

  /** Inserts `a` into sorted `s` after every article whose key is not greater. */
  function InsertByTimestamp(s: seq<Article>, a: Article): seq<Article> {
    if s == [] then [a]
    else if LexLe(SortKey(a), SortKey(s[0])) && SortKey(a) != SortKey(s[0]) then [a] + s
    else [s[0]] + InsertByTimestamp(s[1..], a)
  }

  /** `sorted(values, key=lambda x: x['timestamp'] if x['timestamp'] else '')`, stable. */
  function SortByTimestamp(xs: seq<Article>): seq<Article> {
    if xs == [] then [] else InsertByTimestamp(SortByTimestamp(xs[..|xs| - 1]), xs[|xs| - 1])
  }

  /** The articles of `s` whose sort key is `k`, in order. */
  function WithKey(s: seq<Article>, k: string): seq<Article> {
    if s == [] then []
    else (if SortKey(s[0]) == k then [s[0]] else []) + WithKey(s[1..], k)
  }

  lemma {:induction false} WithKeyAppend(a: seq<Article>, b: seq<Article>, k: string)
    ensures WithKey(a + b, k) == WithKey(a, k) + WithKey(b, k)
  {
    if a == [] {
      assert a + b == b;
    } else {
      var head := if SortKey(a[0]) == k then [a[0]] else [];
      assert (a + b)[0] == a[0] && (a + b)[1..] == a[1..] + b;
      WithKeyAppend(a[1..], b, k);
      calc {
        WithKey(a + b, k);
        head + WithKey(a[1..] + b, k);
        head + (WithKey(a[1..], k) + WithKey(b, k));
        (head + WithKey(a[1..], k)) + WithKey(b, k);
        WithKey(a, k) + WithKey(b, k);
      }
    }
  }

  lemma TailSorted(s: seq<Article>)
    requires s != [] && SortedByTimestamp(s)
    ensures SortedByTimestamp(s[1..])
  {
    forall i, j | 0 <= i < j < |s[1..]| ensures LexLe(SortKey(s[1..][i]), SortKey(s[1..][j])) {
      assert s[1..][i] == s[i + 1] && s[1..][j] == s[j + 1];
    }
  }

  /** Every article of `s` has a key not below `k`. */
  ghost predicate AllAtLeast(k: string, s: seq<Article>) {
    forall i | 0 <= i < |s| :: LexLe(k, SortKey(s[i]))
  }

  lemma {:induction false} InsertByTimestampPerm(s: seq<Article>, a: Article)
    ensures multiset(InsertByTimestamp(s, a)) == multiset(s) + multiset{a}
  {
    if s != [] && !(LexLe(SortKey(a), SortKey(s[0])) && SortKey(a) != SortKey(s[0])) {
      InsertByTimestampPerm(s[1..], a);
      assert s == [s[0]] + s[1..];
    }
  }

  lemma {:induction false} InsertByTimestampAtLeast(s: seq<Article>, a: Article, k: string)
    requires AllAtLeast(k, s) && LexLe(k, SortKey(a))
    ensures AllAtLeast(k, InsertByTimestamp(s, a))
  {
    var r := InsertByTimestamp(s, a);
    if s == [] {
    } else if LexLe(SortKey(a), SortKey(s[0])) && SortKey(a) != SortKey(s[0]) {
      forall i | 0 <= i < |r| ensures LexLe(k, SortKey(r[i])) {
        if i > 0 { assert r[i] == s[i - 1]; }
      }
    } else {
      assert AllAtLeast(k, s[1..]) by {
        forall i | 0 <= i < |s[1..]| ensures LexLe(k, SortKey(s[1..][i])) { assert s[1..][i] == s[i + 1]; }
      }
      InsertByTimestampAtLeast(s[1..], a, k);
      var rest := InsertByTimestamp(s[1..], a);
      assert r == [s[0]] + rest;
      forall i | 0 <= i < |r| ensures LexLe(k, SortKey(r[i])) {
        if i > 0 { assert r[i] == rest[i - 1]; }
      }
    }
  }

  /** Inserting into a sorted list keeps it sorted. */
  lemma {:induction false} InsertByTimestampSorted(s: seq<Article>, a: Article)
    requires SortedByTimestamp(s)
    ensures SortedByTimestamp(InsertByTimestamp(s, a))
  {
    var r := InsertByTimestamp(s, a);
    if s == [] {
    } else if LexLe(SortKey(a), SortKey(s[0])) && SortKey(a) != SortKey(s[0]) {
      forall i, j | 0 <= i < j < |r| ensures LexLe(SortKey(r[i]), SortKey(r[j])) {
        if i == 0 {
          assert r[j] == s[j - 1];
          if j > 1 { LexLeTrans(SortKey(a), SortKey(s[0]), SortKey(s[j - 1])); }
        } else {
          assert r[i] == s[i - 1] && r[j] == s[j - 1];
        }
      }
    } else {
      var rest := InsertByTimestamp(s[1..], a);
      TailSorted(s);
      InsertByTimestampSorted(s[1..], a);
      LexLeTotal(SortKey(a), SortKey(s[0]));
      assert AllAtLeast(SortKey(s[0]), s[1..]) by {
        forall i | 0 <= i < |s[1..]| ensures LexLe(SortKey(s[0]), SortKey(s[1..][i])) {
          assert s[1..][i] == s[i + 1];
        }
      }
      InsertByTimestampAtLeast(s[1..], a, SortKey(s[0]));
      assert r == [s[0]] + rest;
      forall i, j | 0 <= i < j < |r| ensures LexLe(SortKey(r[i]), SortKey(r[j])) {
        if i == 0 {
          assert r[j] == rest[j - 1];
        } else {
          assert r[i] == rest[i - 1] && r[j] == rest[j - 1];
        }
      }
    }
  }

  /** Inserting keeps, for every key, the earlier articles with that key before the new one. */
  lemma {:induction false} InsertByTimestampStable(s: seq<Article>, a: Article, k: string)
    requires SortedByTimestamp(s)
    ensures WithKey(InsertByTimestamp(s, a), k) == WithKey(s, k) + WithKey([a], k)
  {
    var r := InsertByTimestamp(s, a);
    if s == [] {
      assert r == [a];
    } else if LexLe(SortKey(a), SortKey(s[0])) && SortKey(a) != SortKey(s[0]) {
      assert r == [a] + s;
      WithKeyAppend([a], s, k);
      if SortKey(a) == k {
        NoneWithKey(s, k);
      }
    } else {
      var rest := InsertByTimestamp(s[1..], a);
      TailSorted(s);
      InsertByTimestampStable(s[1..], a, k);
      assert r == [s[0]] + rest;
      assert s == [s[0]] + s[1..];
      calc {
        WithKey(r, k);
        == { WithKeyAppend([s[0]], rest, k); }
        WithKey([s[0]], k) + WithKey(rest, k);
        WithKey([s[0]], k) + (WithKey(s[1..], k) + WithKey([a], k));
        (WithKey([s[0]], k) + WithKey(s[1..], k)) + WithKey([a], k);
        == { WithKeyAppend([s[0]], s[1..], k); }
        WithKey(s, k) + WithKey([a], k);
      }
    }
  }

  /** No article of a sorted list that starts after a smaller key has key `k`. */
  lemma {:induction false} NoneWithKey(s: seq<Article>, k: string)
    requires SortedByTimestamp(s)
    requires s != [] ==> LexLe(k, SortKey(s[0])) && k != SortKey(s[0])
    ensures WithKey(s, k) == []
  {
    if s != [] {
      TailSorted(s);
      if |s| > 1 {
        LexLeTrans(k, SortKey(s[0]), SortKey(s[1]));
        if k == SortKey(s[1]) {
          LexLeAntisym(SortKey(s[0]), SortKey(s[1]));
        }
      }
      NoneWithKey(s[1..], k);
    }
  }

  /**
   * The final ordering: sorted ascending by timestamp, a permutation of the
   * store's values, and stable: the articles sharing any one key keep their
   * insertion order.
   */
  lemma {:induction false} SortByTimestampSpec(xs: seq<Article>)
    ensures SortedByTimestamp(SortByTimestamp(xs))
    ensures multiset(SortByTimestamp(xs)) == multiset(xs)
    ensures forall k :: WithKey(SortByTimestamp(xs), k) == WithKey(xs, k)
  {
    if xs != [] {
      var init, last := xs[..|xs| - 1], xs[|xs| - 1];
      SortByTimestampSpec(init);
      InsertByTimestampSorted(SortByTimestamp(init), last);
      InsertByTimestampPerm(SortByTimestamp(init), last);
      assert xs == init + [last];
      forall k ensures WithKey(SortByTimestamp(xs), k) == WithKey(xs, k) {
        InsertByTimestampStable(SortByTimestamp(init), last, k);
        WithKeyAppend(init, [last], k);
      }
    }
  }

  /** Articles without a timestamp come before every article that has a non-empty one. */
  lemma TimelessFirst(xs: seq<Article>, i: nat, j: nat)
    requires i < |SortByTimestamp(xs)| && j < |SortByTimestamp(xs)|
    requires SortKey(SortByTimestamp(xs)[i]) == "" && SortKey(SortByTimestamp(xs)[j]) != ""
    ensures i < j
  {
    SortByTimestampSpec(xs);
    var r := SortByTimestamp(xs);
    assert !LexLe(SortKey(r[j]), SortKey(r[i]));
  }

  function Htmls(articles: seq<Article>): (r: seq<string>)
    ensures |r| == |articles|
    ensures forall i | 0 <= i < |r| :: r[i] == articles[i].html
  {
    seq(|articles|, i requires 0 <= i < |articles| => articles[i].html)
  }

  /**
   * What `scrape` returns: the HTML of every stored article, once each, in
   * the stable timestamp order.
   */
  function ScrapeResult(s: Store): seq<string>
    requires forall i | 0 <= i < |s.keys| :: s.keys[i] in s.entries
  {
    Htmls(SortByTimestamp(Values(s)))
  }

  lemma ScrapeResultSpec(s: Store)
    requires s.Valid()
    ensures var sorted := SortByTimestamp(Values(s));
            && |ScrapeResult(s)| == s.Size()
            && multiset(sorted) == multiset(Values(s))
            && SortedByTimestamp(sorted)
            && (forall k :: WithKey(sorted, k) == WithKey(Values(s), k))
            && forall i | 0 <= i < |sorted| :: ScrapeResult(s)[i] == sorted[i].html
  {
    var sorted := SortByTimestamp(Values(s));
    SortByTimestampSpec(Values(s));
    assert |sorted| == |multiset(sorted)| == |multiset(Values(s))| == |Values(s)|;
  }

  // ---------------------------------------------------------------------------
  // Rows (format_articles)
  // ---------------------------------------------------------------------------

  /** One row of the table: `(ID, Date, Post Text, Image URL)`. */
  datatype Row = Row(id: string, date: Option<string>, text: string, imageUrl: Option<string>)

  /** Why `format_articles` raises instead of returning a table. */
  datatype FormatError =
    | MissingSrc(article: nat)   // `img_html['src']` raised `KeyError`: the chosen image has no `src`
    | NotScraped                 // `self.sorted_articles` read before `scrape` set it: `AttributeError`

  /**
   * The image rule of `get_relevant_info`: given the `src` attributes of the
   * matched `img.css-9pa8cd` elements, in document order, the second one when
   * at least two match, else no image. A second match without `src` raises.
   */
  function RelevantImage(matches: seq<Option<string>>): Result<Option<string>, ()> {
    if |matches| > 1 then
      match matches[1]
      case Some(src) => Ok(Some(src))
      case None => Err(())
    else Ok(None)
  }

  /**
   * `format_articles` over the sorted articles, starting at row number `from`.
   * `ids` stands for the `uuid4()` values, `textOf` for `get_text()` and
   * `imagesOf` for the matched images of the parsed HTML.
   */
  function FormatFrom(sorted: seq<Article>, from: nat, ids: seq<string>,
                      textOf: string -> string, imagesOf: string -> seq<Option<string>>)
    : Result<seq<Row>, FormatError>
    requires from <= |sorted| == |ids|
    decreases |sorted| - from
  {
    if from == |sorted| then Ok([])
    else
      var a := sorted[from];
      match RelevantImage(imagesOf(a.html))
      case Err(_) => Err(MissingSrc(from))
      case Ok(image) =>
        match FormatFrom(sorted, from + 1, ids, textOf, imagesOf)
        case Err(e) => Err(e)
        case Ok(rows) => Ok([Row(ids[from], a.timestamp, textOf(a.html), image)] + rows)
  }

  function FormatArticles(sorted: seq<Article>, ids: seq<string>,
                          textOf: string -> string, imagesOf: string -> seq<Option<string>>)
    : Result<seq<Row>, FormatError>
    requires |sorted| == |ids|
  {
    FormatFrom(sorted, 0, ids, textOf, imagesOf)
  }

  /** An article whose image rule raises. */
  predicate BadImage(a: Article, imagesOf: string -> seq<Option<string>>) {
    |imagesOf(a.html)| > 1 && imagesOf(a.html)[1].None?
  }

  lemma {:induction false} FormatFromSpec(sorted: seq<Article>, from: nat, ids: seq<string>,
                                          textOf: string -> string, imagesOf: string -> seq<Option<string>>)
    requires from <= |sorted| == |ids|
    ensures match FormatFrom(sorted, from, ids, textOf, imagesOf)
            case Ok(rows) =>
              && (forall i | from <= i < |sorted| :: !BadImage(sorted[i], imagesOf))
              && |rows| == |sorted| - from
              && forall i | 0 <= i < |rows| ::
                   var a := sorted[from + i];
                   var m := imagesOf(a.html);
                   rows[i] == Row(ids[from + i], a.timestamp, textOf(a.html),
                                  if |m| > 1 then m[1] else None)
            case Err(MissingSrc(n)) =>
              && from <= n < |sorted| && BadImage(sorted[n], imagesOf)
              && forall i | from <= i < n :: !BadImage(sorted[i], imagesOf)
            case Err(NotScraped) => false
    decreases |sorted| - from
  {
    if from < |sorted| {
      FormatFromSpec(sorted, from + 1, ids, textOf, imagesOf);
    }
  }

  /**
   * One row per sorted article, in the same order, dated with the article's
   * timestamp and carrying the second matched image when there is one; the
   * call fails exactly when some article's second matched image has no `src`,
   * and then at the first such article.
   */
  lemma FormatArticlesSpec(sorted: seq<Article>, ids: seq<string>,
                           textOf: string -> string, imagesOf: string -> seq<Option<string>>)
    requires |sorted| == |ids|
    ensures FormatArticles(sorted, ids, textOf, imagesOf).Ok?
            <==> forall i | 0 <= i < |sorted| :: !BadImage(sorted[i], imagesOf)
    ensures match FormatArticles(sorted, ids, textOf, imagesOf)
            case Ok(rows) =>
              && |rows| == |sorted|
              && forall i | 0 <= i < |rows| ::
                   && rows[i].id == ids[i]
                   && rows[i].date == sorted[i].timestamp
                   && rows[i].text == textOf(sorted[i].html)
                   && rows[i].imageUrl == (if |imagesOf(sorted[i].html)| > 1
                                           then imagesOf(sorted[i].html)[1] else None)
            case Err(MissingSrc(n)) =>
              && n < |sorted| && BadImage(sorted[n], imagesOf)
              && forall i | 0 <= i < n :: !BadImage(sorted[i], imagesOf)
            case Err(NotScraped) => false
  {
    FormatFromSpec(sorted, 0, ids, textOf, imagesOf);
  }

  /** No matched image, or only one: no image URL. Three matches: the second. */
  lemma ImageRuleExamples()
    ensures RelevantImage([]) == Ok(None)
    ensures RelevantImage([Some("avatar")]) == Ok(None)
    ensures RelevantImage([Some("avatar"), Some("photo"), Some("other")]) == Ok(Some("photo"))
    ensures RelevantImage([Some("avatar"), None]).Err?
  {
  }
}
