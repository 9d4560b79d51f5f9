/**
 * The search URL that the scraper opens: a space-joined query made of the
 * search text and the optional account and date clauses, percent-encoded the
 * way Python's `urllib.parse.quote` does it (section 2.1 of RFC 3986, with the
 * unreserved characters of section 2.3 and `/` left as they are), placed in a
 * fixed template.
 */
module SearchUrl {
  import opened Wrappers

  type byte = x: int | 0 <= x < 256

  const SearchPrefix: string := "https://x.com/search?q="
  const SearchSuffix: string := "&f=live"

  /** Python truthiness of an optional string: `None` and `""` are false. */
  predicate Truthy(o: Option<string>) {
    o.Some? && o.value != ""
  }

  // ---------------------------------------------------------------------------
  // The query string
  // ---------------------------------------------------------------------------

  /** The one-element list `[head + value + tail]` when the value is truthy, else no part. */
  function OptionalPart(head: string, o: Option<string>, tail: string): seq<string> {
    if Truthy(o) then [head + o.value + tail] else []
  }

  /** The list of query parts, in the order the source appends them. */
  function QueryParts(query: string, fromAccount: Option<string>,
                      startDate: Option<string>, endDate: Option<string>): seq<string>
  {
    [query]
    + OptionalPart("(from:", fromAccount, ")")
    + OptionalPart("since:", startDate, "")
    + OptionalPart("until:", endDate, "")
  }

  /** `" ".join(parts)` */
  function Join(parts: seq<string>): string {
    if |parts| == 0 then ""
    else if |parts| == 1 then parts[0]
    else parts[0] + " " + Join(parts[1..])
  }

  function QueryString(query: string, fromAccount: Option<string>,
                       startDate: Option<string>, endDate: Option<string>): string
  {
    Join(QueryParts(query, fromAccount, startDate, endDate))
  }

  /** The text a truthy optional clause contributes to the joined query. */
  function Clause(head: string, o: Option<string>, tail: string): string {
    if Truthy(o) then " " + head + o.value + tail else ""
  }

  /** Each part prefixed by one space, concatenated. */
  function Spaced(parts: seq<string>): string {
    if parts == [] then "" else " " + parts[0] + Spaced(parts[1..])
  }

  lemma {:induction false} JoinAsSpaced(first: string, rest: seq<string>)
    ensures Join([first] + rest) == first + Spaced(rest)
    decreases |rest|
  {
    if rest != [] {
      assert ([first] + rest)[1..] == rest;
      assert rest == [rest[0]] + rest[1..];
      JoinAsSpaced(rest[0], rest[1..]);
    }
  }

  lemma {:induction false} SpacedAppend(a: seq<string>, b: seq<string>)
    ensures Spaced(a + b) == Spaced(a) + Spaced(b)
  {
    if a != [] {
      assert (a + b)[1..] == a[1..] + b;
      SpacedAppend(a[1..], b);
    } else {
      assert a + b == b;
    }
  }

  lemma SpacedOptional(head: string, o: Option<string>, tail: string)
    ensures Spaced(OptionalPart(head, o, tail)) == Clause(head, o, tail)
  {
    if Truthy(o) {
      var p := OptionalPart(head, o, tail);
      assert p[1..] == [];
      assert " " + (head + o.value + tail) == " " + head + o.value + tail;
    }
  }

  lemma SpacedClauses(fromAccount: Option<string>, startDate: Option<string>, endDate: Option<string>)
    ensures Spaced(OptionalPart("(from:", fromAccount, ")") + OptionalPart("since:", startDate, "")
                   + OptionalPart("until:", endDate, ""))
         == Clause("(from:", fromAccount, ")") + Clause("since:", startDate, "")
            + Clause("until:", endDate, "")
  {
    var f, s, u := OptionalPart("(from:", fromAccount, ")"), OptionalPart("since:", startDate, ""),
                   OptionalPart("until:", endDate, "");
    SpacedAppend(f + s, u);
    SpacedAppend(f, s);
    SpacedOptional("(from:", fromAccount, ")");
    SpacedOptional("since:", startDate, "");
    SpacedOptional("until:", endDate, "");
  }

  /**
   * The joined query is the search text followed by each truthy clause, in
   * the order account, start date, end date, each after a single space.
   */
  lemma QueryStringShape(query: string, fromAccount: Option<string>,
                         startDate: Option<string>, endDate: Option<string>)
    ensures QueryString(query, fromAccount, startDate, endDate)
         == query + Clause("(from:", fromAccount, ")") + Clause("since:", startDate, "")
                  + Clause("until:", endDate, "")
  {
    var rest := OptionalPart("(from:", fromAccount, ")") + OptionalPart("since:", startDate, "")
                + OptionalPart("until:", endDate, "");
    var cf, cs, cu := Clause("(from:", fromAccount, ")"), Clause("since:", startDate, ""),
                      Clause("until:", endDate, "");
    assert QueryParts(query, fromAccount, startDate, endDate) == [query] + rest;
    JoinAsSpaced(query, rest);
    SpacedClauses(fromAccount, startDate, endDate);
    assert query + (cf + cs + cu) == query + cf + cs + cu;
  }

  // ---------------------------------------------------------------------------
  // Percent-encoding (urllib.parse.quote with safe='/')
  // ---------------------------------------------------------------------------

  /** The unreserved characters of section 2.3 of RFC 3986. */
  predicate IsUnreserved(c: char) {
    ('A' <= c <= 'Z') || ('a' <= c <= 'z') || ('0' <= c <= '9')
    || c == '-' || c == '.' || c == '_' || c == '~'
  }

  /** Characters `quote` leaves as they are: the unreserved ones and `/`. */
  predicate IsSafe(c: char) {
    IsUnreserved(c) || c == '/'
  }

  /** The UTF-8 encoding of one Unicode scalar value. */
  function Utf8(c: char): (bs: seq<byte>)
    ensures 1 <= |bs| <= 4
    ensures (c as int < 0x80) <==> |bs| == 1
    ensures c as int < 0x80 ==> bs == [c as int]
  {
    var cp := c as int;
    if cp < 0x80 then [cp]
    else if cp < 0x800 then [0xC0 + cp / 64, 0x80 + cp % 64]
    else if cp < 0x10000 then [0xE0 + cp / 4096, 0x80 + (cp / 64) % 64, 0x80 + cp % 64]
    else [0xF0 + cp / 262144, 0x80 + (cp / 4096) % 64, 0x80 + (cp / 64) % 64, 0x80 + cp % 64]
  }

  /** `s.encode('utf-8')` */
  function Utf8Encode(s: string): seq<byte> {
    if s == [] then [] else Utf8(s[0]) + Utf8Encode(s[1..])
  }

  /** An upper-case hexadecimal digit, as `%{:02X}` writes it. */
  function HexDigit(n: int): (c: char)
    requires 0 <= n < 16
    ensures IsUnreserved(c)
  {
    if n < 10 then ('0' as int + n) as char else ('A' as int + n - 10) as char
  }

  predicate IsHexDigit(c: char) {
    ('0' <= c <= '9') || ('a' <= c <= 'f') || ('A' <= c <= 'F')
  }

  function HexValue(c: char): (v: int)
    requires IsHexDigit(c)
    ensures 0 <= v < 16
  {
    if '0' <= c <= '9' then c as int - '0' as int
    else if 'a' <= c <= 'f' then c as int - 'a' as int + 10
    else c as int - 'A' as int + 10
  }

  /** `%XX` for each byte. */
  function PercentEncode(bs: seq<byte>): (r: string)
    ensures |r| == 3 * |bs|
    ensures forall i | 0 <= i < |r| :: IsUnreserved(r[i]) || r[i] == '%'
  {
    if bs == [] then ""
    else ['%', HexDigit(bs[0] / 16), HexDigit(bs[0] % 16)] + PercentEncode(bs[1..])
  }

  function QuoteChar(c: char): (r: string)
    ensures |r| >= 1
    ensures forall i | 0 <= i < |r| :: IsSafe(r[i]) || r[i] == '%'
  {
    if IsSafe(c) then [c] else PercentEncode(Utf8(c))
  }

  /**
   * `urllib.parse.quote(s)`: every character outside the safe set becomes the
   * `%XX` escapes of its UTF-8 bytes. The result uses only safe characters and
   * `%`, so it never contains the `&` that ends the URL's `q` parameter.
   */
  function Quote(s: string): (r: string)
    ensures |r| >= |s|
    ensures forall i | 0 <= i < |r| :: IsSafe(r[i]) || r[i] == '%'
  {
    if s == [] then "" else QuoteChar(s[0]) + Quote(s[1..])
  }

  /**
   * `urllib.parse.unquote_to_bytes(s)`: each well-formed `%XX` becomes one
   * byte, every other character its UTF-8 bytes.
   */
  function UnquoteToBytes(s: string): seq<byte> {
    if s == [] then []
    else if |s| >= 3 && s[0] == '%' && IsHexDigit(s[1]) && IsHexDigit(s[2]) then
      [HexValue(s[1]) * 16 + HexValue(s[2])] + UnquoteToBytes(s[3..])
    else Utf8(s[0]) + UnquoteToBytes(s[1..])
  }

  lemma HexRoundTrip(n: int)
    requires 0 <= n < 16
    ensures IsHexDigit(HexDigit(n)) && HexValue(HexDigit(n)) == n
  {
  }

  lemma UnquoteEscape(b: byte, t: string)
    ensures UnquoteToBytes(['%', HexDigit(b / 16), HexDigit(b % 16)] + t) == [b] + UnquoteToBytes(t)
  {
    var s := ['%', HexDigit(b / 16), HexDigit(b % 16)] + t;
    HexRoundTrip(b / 16);
    HexRoundTrip(b % 16);
    assert s[1] == HexDigit(b / 16) && s[2] == HexDigit(b % 16);
    assert s[3..] == t;
  }

  lemma {:induction false} UnquotePercentEncode(bs: seq<byte>, rest: string)
    ensures UnquoteToBytes(PercentEncode(bs) + rest) == bs + UnquoteToBytes(rest)
  {
    if bs == [] {
      assert PercentEncode(bs) + rest == rest;
    } else {
      var b := bs[0];
      var head := ['%', HexDigit(b / 16), HexDigit(b % 16)];
      var t := PercentEncode(bs[1..]) + rest;
      assert PercentEncode(bs) == head + PercentEncode(bs[1..]);
      calc {
        UnquoteToBytes(PercentEncode(bs) + rest);
        { assert PercentEncode(bs) + rest == head + t; }
        UnquoteToBytes(head + t);
        { UnquoteEscape(b, t); }
        [b] + UnquoteToBytes(t);
        { UnquotePercentEncode(bs[1..], rest); }
        [b] + (bs[1..] + UnquoteToBytes(rest));
        { assert bs == [b] + bs[1..]; }
        bs + UnquoteToBytes(rest);
      }
    }
  }

  lemma UnquoteQuoteChar(c: char, rest: string)
    ensures UnquoteToBytes(QuoteChar(c) + rest) == Utf8(c) + UnquoteToBytes(rest)
  {
    if IsSafe(c) {
      assert ([c] + rest)[1..] == rest;
    } else {
      UnquotePercentEncode(Utf8(c), rest);
    }
  }

  /**
   * Percent-decoding what `Quote` produced gives back the UTF-8 bytes of the
   * original text.
   */
  lemma {:induction false} UnquoteQuote(s: string)
    ensures UnquoteToBytes(Quote(s)) == Utf8Encode(s)
  {
    if s != [] {
      UnquoteQuoteChar(s[0], Quote(s[1..]));
      UnquoteQuote(s[1..]);
    }
  }

  /** `quote` leaves a string unchanged exactly when every character is safe. */
  lemma {:induction false} QuoteIdentity(s: string)
    ensures Quote(s) == s <==> forall i | 0 <= i < |s| :: IsSafe(s[i])
  {
    if s != [] {
      QuoteIdentity(s[1..]);
      if IsSafe(s[0]) {
        assert Quote(s) == [s[0]] + Quote(s[1..]);
        if Quote(s) == s {
          assert Quote(s[1..]) == Quote(s)[1..];
        }
        if forall i | 0 <= i < |s| :: IsSafe(s[i]) {
          assert forall i | 0 <= i < |s[1..]| :: IsSafe(s[1..][i]) by {
            forall i | 0 <= i < |s[1..]| ensures IsSafe(s[1..][i]) { assert s[1..][i] == s[i + 1]; }
          }
          assert s == [s[0]] + s[1..];
        }
      } else {
        assert |QuoteChar(s[0])| >= 3;
        assert |Quote(s)| > |s|;
      }
    }
  }

  // ---------------------------------------------------------------------------
  // The URL
  // ---------------------------------------------------------------------------

  /** `_construct_search_url` */
  function ConstructSearchUrl(query: string, fromAccount: Option<string>,
                              startDate: Option<string>, endDate: Option<string>): string
  {
    SearchPrefix + Quote(QueryString(query, fromAccount, startDate, endDate)) + SearchSuffix
  }

  /** Characters of `s` up to (not including) the first `&`. */
  function UpToAmpersand(s: string): (r: string)
    ensures |r| <= |s| && r == s[..|r|]
  {
    if s == [] || s[0] == '&' then "" else [s[0]] + UpToAmpersand(s[1..])
  }

  /** The raw value of the `q` parameter of a search URL, if it is one. */
  function QueryValue(url: string): Option<string> {
    if |url| >= |SearchPrefix| && url[..|SearchPrefix|] == SearchPrefix then
      Some(UpToAmpersand(url[|SearchPrefix|..]))
    else None
  }

  lemma {:induction false} UpToAmpersandPrefix(v: string, rest: string)
    requires forall i | 0 <= i < |v| :: v[i] != '&'
    requires rest != [] && rest[0] == '&'
    ensures UpToAmpersand(v + rest) == v
  {
    if v == [] {
      assert v + rest == rest;
    } else {
      assert (v + rest)[1..] == v[1..] + rest;
      UpToAmpersandPrefix(v[1..], rest);
    }
  }

  /**
   * The URL is the fixed prefix, the `q` parameter and the fixed `&f=live`
   * suffix; reading the `q` parameter back out of the URL and
   * percent-decoding it gives the UTF-8 bytes of the joined query.
   */
  lemma SearchUrlRoundTrip(query: string, fromAccount: Option<string>,
                           startDate: Option<string>, endDate: Option<string>)
    ensures var q := QueryString(query, fromAccount, startDate, endDate);
            var url := ConstructSearchUrl(query, fromAccount, startDate, endDate);
            && QueryValue(url) == Some(Quote(q))
            && url == SearchPrefix + QueryValue(url).value + SearchSuffix
            && UnquoteToBytes(QueryValue(url).value) == Utf8Encode(q)
  {
    var q := QueryString(query, fromAccount, startDate, endDate);
    var url := ConstructSearchUrl(query, fromAccount, startDate, endDate);
    assert url[..|SearchPrefix|] == SearchPrefix;
    assert url[|SearchPrefix|..] == Quote(q) + SearchSuffix;
    UpToAmpersandPrefix(Quote(q), SearchSuffix);
    UnquoteQuote(q);
  }

  /** With no optional parameter the query is the search text alone. */
  lemma PlainQuery(query: string)
    ensures QueryString(query, None, None, None) == query
  {
    QueryStringShape(query, None, None, None);
    assert query + "" + "" + "" == query;
  }

  /** All three optional clauses, in their fixed order. */
  lemma AllClauses(query: string, account: string, since: string, until: string)
    requires account != "" && since != "" && until != ""
    ensures QueryString(query, Some(account), Some(since), Some(until))
         == query + " (from:" + account + ")" + " since:" + since + " until:" + until
  {
    QueryStringShape(query, Some(account), Some(since), Some(until));
    assert Clause("(from:", Some(account), ")") == " (from:" + account + ")";
  }

  /** An empty account is falsy: it contributes nothing, exactly like no account. */
  lemma EmptyAccountDropped(query: string, startDate: Option<string>, endDate: Option<string>)
    ensures QueryString(query, Some(""), startDate, endDate) == QueryString(query, None, startDate, endDate)
  {
    QueryStringShape(query, Some(""), startDate, endDate);
    QueryStringShape(query, None, startDate, endDate);
  }
}
