/**
 * The deduplicating, insertion-ordered article store (`self.article_htmls`, an
 * `OrderedDict`) and the effect of one `collect_articles` pass on it.
 *
 * The browser is an oracle: one pass observes a list of elements, each either
 * readable (its inner HTML and, if it has a `<time>` child, that child's
 * `datetime` attribute), stale, or failing with some other exception.
 */
module ArticleStore {
  import opened Wrappers

  /**
   * A store key: the `datetime` attribute when the article has a `<time>`
   * element (the attribute itself may be missing, giving `None`), otherwise
   * the article's HTML.
   */
  type Key = Option<string>

  /** Whether the article has a `<time>` element, and its `datetime` attribute. */
  datatype TimeTag = NoTime | Time(datetime: Option<string>)

  /** One element of the observed page, as the pass sees it. */
  datatype Element =
    | Stale                               // StaleElementReferenceException while reading it
    | Failed                              // any other exception: the pass ends here
    | Live(html: string, time: TimeTag)   // inner HTML and the time tag

  /** A stored value: `{"html": ..., "timestamp": ...}` */
  datatype Article = Article(html: string, timestamp: Option<string>)

  /** The ordered dictionary: keys in insertion order and the value of each key. */
  datatype Store = Store(keys: seq<Key>, entries: map<Key, Article>) {
    /** Keys are distinct and are exactly the dictionary's keys. */
    ghost predicate Valid() {
      && (forall i, j | 0 <= i < j < |keys| :: keys[i] != keys[j])
      && (forall k :: k in entries <==> k in keys)
    }

    /** `len(self.article_htmls)` */
    function Size(): nat {
      |keys|
    }
  }

  const EmptyStore: Store := Store([], map[])

  /**
   * `t` keeps everything `s` had: the same keys first, in the same order, with
   * the same values; anything new comes after them.
   */
  ghost predicate Extends(s: Store, t: Store) {
    && |s.keys| <= |t.keys|
    && t.keys[..|s.keys|] == s.keys
    && forall k | k in s.entries :: k in t.entries && t.entries[k] == s.entries[k]
  }

  lemma ExtendsRefl(s: Store)
    ensures Extends(s, s)
  {
  }

  lemma ExtendsTrans(s: Store, t: Store, u: Store)
    requires Extends(s, t) && Extends(t, u)
    ensures Extends(s, u)
  {
    assert u.keys[..|s.keys|] == u.keys[..|t.keys|][..|s.keys|];
  }

  /** The dictionary key an element is stored under. */
  function KeyOf(html: string, time: TimeTag): Key {
    match time
    case Time(dt) => dt
    case NoTime => Some(html)
  }

  /** `if key not in d: d[key] = a` on an ordered dictionary. */
  function Insert(s: Store, k: Key, a: Article): Store {
    if k in s.entries then s else Store(s.keys + [k], s.entries[k := a])
  }

  lemma InsertSpec(s: Store, k: Key, a: Article)
    requires s.Valid()
    ensures var r := Insert(s, k, a);
            && r.Valid() && Extends(s, r) && r.entries.Keys == s.entries.Keys + {k}
            && (k !in s.entries ==> r.keys == s.keys + [k] && r.entries[k] == a)
            && (k in s.entries ==> r == s)
  {
    if k !in s.entries {
      var r := Insert(s, k, a);
      AppendKeepsValid(s, k, a);
      assert r.keys[..|s.keys|] == s.keys;
    }
  }

  /** Appending a key that is not yet present keeps the keys distinct and in step with the entries. */
  lemma AppendKeepsValid(s: Store, k: Key, a: Article)
    requires s.Valid() && k !in s.entries
    ensures Store(s.keys + [k], s.entries[k := a]).Valid()
  {
    var r := Store(s.keys + [k], s.entries[k := a]);
    forall i, j | 0 <= i < j < |r.keys| ensures r.keys[i] != r.keys[j] {
      if j == |s.keys| {
        assert r.keys[i] == s.keys[i] && s.keys[i] in s.keys;
      } else {
        assert r.keys[i] == s.keys[i] && r.keys[j] == s.keys[j];
      }
    }
    forall x ensures x in r.entries <==> x in r.keys {
      assert x in r.keys <==> x in s.keys || x == k;
    }
  }

  /** An element that the pass stores or finds already stored. */
  predicate Storable(e: Element) {
    e.Live? && e.html != ""
  }

  /**
   * The local `tweet_time` after the loop body has run on `e`: reading a
   * `<time>` element's `datetime` rebinds it; stale, failing, empty and
   * timeless articles leave it as it was.
   */
  function TimeAfter(e: Element, tweetTime: Option<string>): Option<string> {
    match e
    case Live(html, Time(dt)) => if html == "" then tweetTime else dt
    case _ => tweetTime
  }

  /**
   * The store after the loop body has run on `e` with `tweet_time` holding
   * `tweetTime` (`None` when the local is not yet bound: line 159 reads both
   * cases as `None`): a storable element is stored under its key, with the
   * rebound `tweet_time` as timestamp, unless the key is already present.
   */
  function Absorb(s: Store, e: Element, tweetTime: Option<string>): Store {
    if Storable(e) then Insert(s, KeyOf(e.html, e.time), Article(e.html, TimeAfter(e, tweetTime)))
    else s
  }

  /** The value of the local `tweet_time` after a run of elements. */
  function CarriedTime(page: seq<Element>, tweetTime: Option<string>): Option<string>
    decreases |page|
  {
    if page == [] then tweetTime else CarriedTime(page[1..], TimeAfter(page[0], tweetTime))
  }

  /** An element whose loop body rebinds `tweet_time`: a non-empty article with a `<time>` element. */
  predicate ReadsTime(e: Element) {
    e.Live? && e.html != "" && e.time.Time?
  }

  /** A run in which no element reads a `datetime` leaves `tweet_time` as it was. */
  lemma {:induction false} CarriedTimeKept(page: seq<Element>, tweetTime: Option<string>)
    requires forall j | 0 <= j < |page| :: !ReadsTime(page[j])
    ensures CarriedTime(page, tweetTime) == tweetTime
    decreases |page|
  {
    if page != [] {
      assert !ReadsTime(page[0]);
      assert forall j | 0 <= j < |page[1..]| :: page[1..][j] == page[j + 1];
      CarriedTimeKept(page[1..], tweetTime);
    }
  }

  /** The last element that reads a `datetime` decides `tweet_time` after the run. */
  lemma {:induction false} CarriedTimeLast(page: seq<Element>, tweetTime: Option<string>, j: nat)
    requires j < |page| && ReadsTime(page[j])
    requires forall k | j < k < |page| :: !ReadsTime(page[k])
    ensures CarriedTime(page, tweetTime) == page[j].time.datetime
    decreases |page|
  {
    var rest := page[1..];
    assert forall k | 0 <= k < |rest| :: rest[k] == page[k + 1];
    if j == 0 {
      CarriedTimeKept(rest, page[0].time.datetime);
    } else {
      CarriedTimeLast(rest, TimeAfter(page[0], tweetTime), j - 1);
    }
  }

  /**
   * `tweet_time` after a run of elements is the `datetime` read by the last
   * element that reads one, and keeps its value from before the run when no
   * element does.
   */
  lemma CarriedTimeIsLastRead(page: seq<Element>, tweetTime: Option<string>)
    ensures (forall j | 0 <= j < |page| :: !ReadsTime(page[j])) ==> CarriedTime(page, tweetTime) == tweetTime
    ensures forall j | 0 <= j < |page| && ReadsTime(page[j])
                       && (forall k | j < k < |page| :: !ReadsTime(page[k])) ::
              CarriedTime(page, tweetTime) == page[j].time.datetime
  {
    if forall j | 0 <= j < |page| :: !ReadsTime(page[j]) {
      CarriedTimeKept(page, tweetTime);
    }
    forall j | 0 <= j < |page| && ReadsTime(page[j]) && (forall k | j < k < |page| :: !ReadsTime(page[k]))
      ensures CarriedTime(page, tweetTime) == page[j].time.datetime
    {
      CarriedTimeLast(page, tweetTime, j);
    }
  }

  /** The rest of a pass over `page`, starting from `s` with `tweet_time` holding `tweetTime`. */
  function CollectFrom(s: Store, page: seq<Element>, tweetTime: Option<string>): Store
    decreases |page|
  {
    if page == [] || page[0].Failed? then s
    else CollectFrom(Absorb(s, page[0], tweetTime), page[1..], TimeAfter(page[0], tweetTime))
  }

  /** One `collect_articles` pass: `tweet_time` starts unbound. */
  function CollectPass(s: Store, page: seq<Element>): Store {
    CollectFrom(s, page, None)
  }

  /** The elements a pass gets to: everything before the first failure. */
  function Processed(page: seq<Element>): (r: seq<Element>)
    ensures |r| <= |page| && r == page[..|r|]
    ensures forall i | 0 <= i < |r| :: !r[i].Failed?
  {
    if page == [] || page[0].Failed? then [] else [page[0]] + Processed(page[1..])
  }

  /**
   * One element: the store stays valid and keeps what it had; a storable
   * element's key is then present, and nothing else was added.
   */
  lemma AbsorbGrows(s: Store, e: Element, tweetTime: Option<string>)
    requires s.Valid()
    ensures Absorb(s, e, tweetTime).Valid()
    ensures Extends(s, Absorb(s, e, tweetTime))
    ensures Storable(e) ==> KeyOf(e.html, e.time) in Absorb(s, e, tweetTime).entries
    ensures forall k | k in Absorb(s, e, tweetTime).entries ::
              k in s.entries || (Storable(e) && k == KeyOf(e.html, e.time))
  {
    ExtendsRefl(s);
    if Storable(e) {
      InsertSpec(s, KeyOf(e.html, e.time), Article(e.html, TimeAfter(e, tweetTime)));
    }
  }

  /** A pass keeps every entry and key it found, in order, and keeps the store valid. */
  lemma {:induction false} CollectFromGrows(s: Store, page: seq<Element>, tweetTime: Option<string>)
    requires s.Valid()
    ensures CollectFrom(s, page, tweetTime).Valid()
    ensures Extends(s, CollectFrom(s, page, tweetTime))
    decreases |page|
  {
    if page == [] || page[0].Failed? {
      ExtendsRefl(s);
    } else {
      var s1 := Absorb(s, page[0], tweetTime);
      AbsorbGrows(s, page[0], tweetTime);
      CollectFromGrows(s1, page[1..], TimeAfter(page[0], tweetTime));
      ExtendsTrans(s, s1, CollectFrom(s1, page[1..], TimeAfter(page[0], tweetTime)));
    }
  }

  /**
   * Store growth: a pass never removes or rewrites an entry, appends new keys
   * after all existing ones, so the size never decreases.
   */
  lemma CollectPassGrows(s: Store, page: seq<Element>)
    requires s.Valid()
    ensures CollectPass(s, page).Valid()
    ensures Extends(s, CollectPass(s, page))
    ensures CollectPass(s, page).Size() >= s.Size()
  {
    CollectFromGrows(s, page, None);
  }

  /** Every storable element the pass reaches ends up with its key in the store. */
  lemma {:induction false} CollectFromComplete(s: Store, page: seq<Element>, tweetTime: Option<string>)
    requires s.Valid()
    ensures forall i | 0 <= i < |Processed(page)| && Storable(Processed(page)[i]) ::
              KeyOf(Processed(page)[i].html, Processed(page)[i].time) in CollectFrom(s, page, tweetTime).entries
    decreases |page|
  {
    if page != [] && !page[0].Failed? {
      var p := Processed(page);
      assert p == [page[0]] + Processed(page[1..]);
      var s1 := Absorb(s, page[0], tweetTime);
      var r := CollectFrom(s1, page[1..], TimeAfter(page[0], tweetTime));
      AbsorbGrows(s, page[0], tweetTime);
      CollectFromComplete(s1, page[1..], TimeAfter(page[0], tweetTime));
      CollectFromGrows(s1, page[1..], TimeAfter(page[0], tweetTime));
      forall i | 0 <= i < |p| && Storable(p[i]) ensures KeyOf(p[i].html, p[i].time) in r.entries {
        if i > 0 {
          assert p[i] == Processed(page[1..])[i - 1];
        }
      }
    }
  }

  /** Every key the pass adds belongs to a storable element the pass reached. */
  lemma {:induction false} CollectFromSound(s: Store, page: seq<Element>, tweetTime: Option<string>)
    requires s.Valid()
    ensures forall k | k in CollectFrom(s, page, tweetTime).entries ::
              k in s.entries
              || exists i | 0 <= i < |Processed(page)| ::
                   Storable(Processed(page)[i]) && KeyOf(Processed(page)[i].html, Processed(page)[i].time) == k
    decreases |page|
  {
    if page != [] && !page[0].Failed? {
      var p := Processed(page);
      assert p == [page[0]] + Processed(page[1..]);
      var s1 := Absorb(s, page[0], tweetTime);
      var r := CollectFrom(s1, page[1..], TimeAfter(page[0], tweetTime));
      AbsorbGrows(s, page[0], tweetTime);
      CollectFromSound(s1, page[1..], TimeAfter(page[0], tweetTime));
      forall k | k in r.entries && k !in s.entries
        ensures exists i | 0 <= i < |p| :: Storable(p[i]) && KeyOf(p[i].html, p[i].time) == k
      {
        if k in s1.entries {
          assert p[0] == page[0];
        } else {
          var i :| 0 <= i < |Processed(page[1..])| && Storable(Processed(page[1..])[i])
                   && KeyOf(Processed(page[1..])[i].html, Processed(page[1..])[i].time) == k;
          assert p[i + 1] == Processed(page[1..])[i];
        }
      }
      assert r == CollectFrom(s, page, tweetTime);
      assert forall k | k in CollectFrom(s, page, tweetTime).entries ::
               k in s.entries
               || exists i | 0 <= i < |Processed(page)| ::
                    Storable(Processed(page)[i]) && KeyOf(Processed(page)[i].html, Processed(page)[i].time) == k;
    }
  }

  /** When every key the pass would store is already present, the pass changes nothing. */
  lemma {:induction false} CollectFromKnown(s: Store, page: seq<Element>, tweetTime: Option<string>)
    requires forall i | 0 <= i < |Processed(page)| && Storable(Processed(page)[i]) ::
               KeyOf(Processed(page)[i].html, Processed(page)[i].time) in s.entries
    ensures CollectFrom(s, page, tweetTime) == s
    decreases |page|
  {
    if page != [] && !page[0].Failed? {
      var p := Processed(page);
      assert p == [page[0]] + Processed(page[1..]);
      forall i | 0 <= i < |Processed(page[1..])| && Storable(Processed(page[1..])[i])
        ensures KeyOf(Processed(page[1..])[i].html, Processed(page[1..])[i].time) in s.entries
      {
        assert p[i + 1] == Processed(page[1..])[i];
      }
      assert p[0] == page[0];
      assert Absorb(s, page[0], tweetTime) == s;
      CollectFromKnown(s, page[1..], TimeAfter(page[0], tweetTime));
    }
  }

  /**
   * Inserting the same keys twice never adds a second entry: collecting the
   * same observation again leaves the store as it is.
   */
  lemma CollectPassIdempotent(s: Store, page: seq<Element>)
    requires s.Valid()
    ensures CollectPass(CollectPass(s, page), page) == CollectPass(s, page)
  {
    CollectFromComplete(s, page, None);
    CollectFromKnown(CollectPass(s, page), page, None);
  }

  /** A pass over `a + b` is a pass over `a` followed by one over `b`, unless `a` fails. */
  lemma {:induction false} CollectFromSplit(s: Store, a: seq<Element>, b: seq<Element>, tweetTime: Option<string>)
    requires forall i | 0 <= i < |a| :: !a[i].Failed?
    ensures CollectFrom(s, a + b, tweetTime)
         == CollectFrom(CollectFrom(s, a, tweetTime), b, CarriedTime(a, tweetTime))
    decreases |a|
  {
    if a == [] {
      assert a + b == b;
    } else {
      assert (a + b)[0] == a[0] && (a + b)[1..] == a[1..] + b;
      CollectFromSplit(Absorb(s, a[0], tweetTime), a[1..], b, TimeAfter(a[0], tweetTime));
    }
  }

  /**
   * What a pass stores for a new key: the element's HTML, and as timestamp the
   * element's own `datetime` when it has a `<time>` element, otherwise
   * whatever `tweet_time` was last set to earlier in the same pass (`None`
   * if nothing set it).
   */
  lemma CollectPassStores(s: Store, page: seq<Element>, i: nat)
    requires s.Valid()
    requires i < |Processed(page)| && Storable(page[i])
    requires KeyOf(page[i].html, page[i].time) !in CollectPass(s, page[..i]).entries
    ensures var e := page[i];
            var stamp := if e.time.Time? then e.time.datetime else CarriedTime(page[..i], None);
            && KeyOf(e.html, e.time) in CollectPass(s, page).entries
            && CollectPass(s, page).entries[KeyOf(e.html, e.time)] == Article(e.html, stamp)
  {
    var e := page[i];
    var pre := page[..i];
    assert forall j | 0 <= j < |pre| :: !pre[j].Failed? by {
      forall j | 0 <= j < |pre| ensures !pre[j].Failed? {
        assert pre[j] == Processed(page)[j];
      }
    }
    assert page == pre + page[i..];
    CollectFromSplit(s, pre, page[i..], None);
    var s1 := CollectPass(s, pre);
    var t0 := CarriedTime(pre, None);
    CollectFromGrows(s, pre, None);
    var t := TimeAfter(e, t0);
    var s2 := Absorb(s1, e, t0);
    InsertSpec(s1, KeyOf(e.html, e.time), Article(e.html, t));
    assert page[i..][0] == e && page[i..][1..] == page[i + 1..];
    assert CollectFrom(s1, page[i..], t0) == CollectFrom(s2, page[i + 1..], t);
    CollectFromGrows(s2, page[i + 1..], t);
  }

  /** Line 159 as written: a timeless article takes the previous article's time. */
  lemma TimelessArticleTakesEarlierTime()
    ensures CollectPass(EmptyStore, [Live("a", Time(Some("T1"))), Live("b", NoTime)]).entries[Some("b")]
         == Article("b", Some("T1"))
    ensures CollectPass(EmptyStore, [Live("b", NoTime), Live("a", Time(Some("T1")))]).entries[Some("b")]
         == Article("b", None)
  {
  }
}
