/**
 * Alternate-language advertisement for the current page
 * (inc/hreflang-header/Mlp_Hreflang_Header_Output.php): the translations
 * the language API reports become an ordered map from HTTP language name
 * to URL, which is written as HTML `<link rel="alternate" hreflang=…>`
 * elements into the page head and as HTTP `Link` headers (section 3 of
 * RFC 8288, with the `hreflang` target attribute of section 3.4.1).
 */
module HreflangHeader {
  import opened Wrappers
  import opened OrderedMaps
  import opened PhpStrings

  /** What a translation exposes here: its language's `http` name and its remote URL. */
  datatype Translation = Translation(httpName: string, remoteUrl: string)

  /** The arguments given to the language API's `get_translations`. */
  datatype QueryArgs = QueryArgs(includeBase: bool)

  /**
   * The language API. Its answer is read from WordPress's global state,
   * which can change between calls, so it also receives the ordinal of
   * the call (0 for the first query this object makes).
   */
  type LanguageApi = (QueryArgs, nat) -> seq<Translation>

  /** A WordPress filter over one rendered line: `(markup, language, url) -> markup`. */
  type LineFilter = (string, string, string) -> string

  /** The `$translations` property: a prepared map, or the `array( 'failed' )` sentinel. */
  datatype TranslationsField = Prepared(prepared: OrderedMap<string, string>) | FailedSentinel

  /** The arguments of every query this class makes. */
  const IncludeBase := QueryArgs(includeBase := true)

  /** The map entry translation `t` contributes, if its URL is truthy. */
  function AdvertisedEntry(t: Translation): Option<(string, string)> {
    if Truthy(t.remoteUrl) then Some((t.httpName, t.remoteUrl)) else None
  }

  /** Translation `i` advertises `lang`: it has a URL and `lang` is its HTTP name. */
  predicate Advertises(ts: seq<Translation>, i: int, lang: string) {
    0 <= i < |ts| && Truthy(ts[i].remoteUrl) && ts[i].httpName == lang
  }

  /** The HTTP names of the translations that have a URL. */
  ghost function AdvertisedLanguages(ts: seq<Translation>): set<string> {
    set i | 0 <= i < |ts| && Truthy(ts[i].remoteUrl) :: ts[i].httpName
  }

  /** The `$prepared` array `get_translations` builds from the API's answer. */
  function Prepare(ts: seq<Translation>): (m: OrderedMap<string, string>)
    ensures m.Valid()
    ensures forall lang :: lang in m.values ==> exists i :: Advertises(ts, i, lang)
  {
    FoldKeys(Empty(), ts, AdvertisedEntry);
    AssignsAtIffAdvertises(ts);
    Fold(Empty(), ts, AdvertisedEntry)
  }

  lemma AssignsAtIffAdvertises(ts: seq<Translation>)
    ensures forall i, lang :: AssignsAt(ts, AdvertisedEntry, i, lang) <==> Advertises(ts, i, lang)
  {
  }

  /** The prepared map holds exactly the languages some translation with a URL advertises. */
  lemma PrepareLanguages(ts: seq<Translation>)
    ensures forall lang :: lang in Prepare(ts).values <==> exists i :: Advertises(ts, i, lang)
    ensures Prepare(ts).values.Keys == AdvertisedLanguages(ts)
  {
    FoldKeys(Empty(), ts, AdvertisedEntry);
    forall lang ensures lang in Prepare(ts).values <==> exists i :: Advertises(ts, i, lang) {
      if exists i :: Advertises(ts, i, lang) {
        var i :| Advertises(ts, i, lang);
        assert AssignsAt(ts, AdvertisedEntry, i, lang);
      }
      if exists i :: AssignsAt(ts, AdvertisedEntry, i, lang) {
        var i :| AssignsAt(ts, AdvertisedEntry, i, lang);
        assert Advertises(ts, i, lang);
      }
    }
    forall lang | lang in AdvertisedLanguages(ts) ensures exists i :: Advertises(ts, i, lang) {
      var i :| 0 <= i < |ts| && Truthy(ts[i].remoteUrl) && ts[i].httpName == lang;
      assert Advertises(ts, i, lang);
    }
  }

  /** Only truthy URLs are stored. */
  lemma {:induction false} PreparedUrlsAreTruthy(ts: seq<Translation>)
    ensures forall lang :: lang in Prepare(ts).values ==> Truthy(Prepare(ts).values[lang])
    decreases |ts|
  {
    if ts != [] {
      var n := |ts| - 1;
      PreparedUrlsAreTruthy(ts[..n]);
      var m0 := Prepare(ts[..n]);
      match AdvertisedEntry(ts[n])
      case None =>
        assert Prepare(ts) == m0;
      case Some(kv) =>
        assert Prepare(ts) == m0.Put(kv.0, kv.1);
        assert Truthy(kv.1);
    }
  }

  /** The map has one entry per distinct advertised language, and is empty exactly when no translation has a URL. */
  lemma PrepareSize(ts: seq<Translation>)
    ensures |Prepare(ts).keys| == |AdvertisedLanguages(ts)|
    ensures Prepare(ts).keys == [] <==> forall i :: 0 <= i < |ts| ==> !Truthy(ts[i].remoteUrl)
  {
    FoldSize(ts, AdvertisedEntry);
    PrepareLanguages(ts);
    if exists i :: 0 <= i < |ts| && Truthy(ts[i].remoteUrl) {
      var i :| 0 <= i < |ts| && Truthy(ts[i].remoteUrl);
      assert Advertises(ts, i, ts[i].httpName);
      assert ts[i].httpName in Prepare(ts).keys;
    }
    if Prepare(ts).keys != [] {
      assert Prepare(ts).keys[0] in Prepare(ts).values;
    }
  }

  /** A language maps to the URL of the last translation that advertises it. */
  lemma PrepareLastUrlWins(ts: seq<Translation>, i: nat)
    requires i < |ts| && Truthy(ts[i].remoteUrl)
    requires forall j :: i < j < |ts| ==> !Advertises(ts, j, ts[i].httpName)
    ensures ts[i].httpName in Prepare(ts).values
    ensures Prepare(ts).values[ts[i].httpName] == ts[i].remoteUrl
  {
    AssignsAtIffAdvertises(ts);
    FoldLastWins(Empty(), ts, AdvertisedEntry, i);
  }

  /** Some translation advertises `a` before (or where) `b` is first advertised. */
  ghost predicate AdvertisedBefore(ts: seq<Translation>, a: string, b: string) {
    exists i :: Advertises(ts, i, a) && forall j :: 0 <= j <= i ==> !Advertises(ts, j, b)
  }

  /** Languages are listed in the order in which they are first advertised. */
  lemma PrepareFirstAdvertisedOrder(ts: seq<Translation>)
    ensures forall p, q :: 0 <= p < q < |Prepare(ts).keys| ==> AdvertisedBefore(ts, Prepare(ts).keys[p], Prepare(ts).keys[q])
  {
    var init: OrderedMap<string, string> := Empty();
    FoldFirstAssignmentOrder(init, ts, AdvertisedEntry);
    forall p, q | 0 <= p < q < |Prepare(ts).keys|
      ensures AdvertisedBefore(ts, Prepare(ts).keys[p], Prepare(ts).keys[q])
    {
      var a, b := Prepare(ts).keys[p], Prepare(ts).keys[q];
      assert |init.keys| <= p < q < |Fold(init, ts, AdvertisedEntry).keys|;
      assert AssignedBefore(ts, AdvertisedEntry, a, b);
      var i :| AssignsAt(ts, AdvertisedEntry, i, a) && forall j :: 0 <= j <= i ==> !AssignsAt(ts, AdvertisedEntry, j, b);
      assert Advertises(ts, i, a);
      forall j | 0 <= j <= i ensures !Advertises(ts, j, b) {
        assert !AssignsAt(ts, AdvertisedEntry, j, b);
      }
    }
  }

  /** What `get_translations` returns when called with the property in state `field` after `n` earlier queries. */
  function FetchResult(api: LanguageApi, field: TranslationsField, n: nat): (r: OrderedMap<string, string>)
    ensures r.Valid()
    ensures forall lang :: lang in r.values ==> Truthy(r.values[lang])
  {
    if field == FailedSentinel then Empty()
    else
      PreparedUrlsAreTruthy(api(IncludeBase, n));
      Prepare(api(IncludeBase, n))
  }

  /** The property after that call: the sentinel on failure, otherwise the prepared map. */
  function FetchState(api: LanguageApi, field: TranslationsField, n: nat): (r: TranslationsField)
    ensures r == FailedSentinel || (r.prepared.keys != [] && r.prepared == FetchResult(api, field, n))
  {
    var m := FetchResult(api, field, n);
    if m.keys == [] then FailedSentinel else Prepared(m)
  }

  /** The queries made so far, after that call: one more unless the sentinel was set. */
  function FetchQueries(field: TranslationsField, queries: seq<QueryArgs>): (r: seq<QueryArgs>)
    ensures queries <= r && |r| <= |queries| + 1
    ensures forall i :: |queries| <= i < |r| ==> r[i].includeBase
  {
    if field == FailedSentinel then queries else queries + [IncludeBase]
  }

  /** Once the sentinel is set, a call answers empty, keeps the sentinel and asks the API nothing. */
  lemma FailureIsSticky(api: LanguageApi, n: nat, queries: seq<QueryArgs>)
    ensures FetchResult(api, FailedSentinel, n).keys == []
    ensures FetchState(api, FailedSentinel, n) == FailedSentinel
    ensures FetchQueries(FailedSentinel, queries) == queries
  {
  }

  /**
   * Without the sentinel a call always queries the API with `include_base`,
   * even if an earlier call succeeded; it fails exactly when no translation
   * in the answer has a URL (an empty answer included), and otherwise
   * stores and returns the prepared map.
   */
  lemma FetchOutcome(api: LanguageApi, field: TranslationsField, n: nat, queries: seq<QueryArgs>)
    requires field != FailedSentinel
    ensures FetchQueries(field, queries) == queries + [QueryArgs(includeBase := true)]
    ensures var answer := api(IncludeBase, n);
      && ((forall i :: 0 <= i < |answer| ==> !Truthy(answer[i].remoteUrl)) <==> FetchState(api, field, n) == FailedSentinel)
      && (FetchState(api, field, n) == FailedSentinel ==> FetchResult(api, field, n).keys == [])
      && (FetchState(api, field, n) != FailedSentinel ==> FetchState(api, field, n) == Prepared(FetchResult(api, field, n)))
  {
    PrepareSize(api(IncludeBase, n));
  }

  /** The markup `wp_head` generates for one entry. */
  function LinkElement(lang: string, url: string): (s: string)
    ensures |s| == 44 + |lang| + |url|
  {
    "<link rel=\"alternate\" hreflang=\"" + lang + "\" href=\"" + url + "\" />"
  }

  /** The header line `http_header` generates for one entry (RFC 8288, section 3). */
  function LinkHeader(lang: string, url: string): (s: string)
    ensures |s| == 38 + |url| + |lang| && Truthy(s)
  {
    "Link: <" + url + ">; rel=\"alternate\"; hreflang=\"" + lang + "\""
  }

  /** The element carries the language and the URL verbatim, unescaped, in its two attributes. */
  lemma LinkElementFields(lang: string, url: string)
    ensures var s := LinkElement(lang, url);
      && s[..32] == "<link rel=\"alternate\" hreflang=\""
      && s[32..32 + |lang|] == lang
      && s[32 + |lang|..40 + |lang|] == "\" href=\""
      && s[40 + |lang|..40 + |lang| + |url|] == url
  {
  }

  /** The header carries the URL verbatim between `<` and `>`, and the language verbatim as `hreflang`. */
  lemma LinkHeaderFields(lang: string, url: string)
    ensures var s := LinkHeader(lang, url);
      && s[..7] == "Link: <"
      && s[7..7 + |url|] == url
      && s[7 + |url|..37 + |url|] == ">; rel=\"alternate\"; hreflang=\""
      && s[37 + |url|..37 + |url| + |lang|] == lang
  {
  }

  /** The lines `wp_head` echoes for a map: one filtered element per entry, in map order. */
  function HeadLines(m: OrderedMap<string, string>, filter: LineFilter): (lines: seq<string>)
    requires m.Valid()
    ensures |lines| == |m.keys|
    ensures forall i :: 0 <= i < |lines| ==>
      lines[i] == filter(LinkElement(m.keys[i], m.values[m.keys[i]]), m.keys[i], m.values[m.keys[i]])
  {
    var items := m.Items();
    seq(|items|, i requires 0 <= i < |items| => filter(LinkElement(items[i].0, items[i].1), items[i].0, items[i].1))
  }

  /** The headers `http_header` sends for the first `|items|` entries: the truthy filtered lines. */
  function SentHeaders(items: seq<(string, string)>, filter: LineFilter): (lines: seq<string>)
    ensures |lines| <= |items|
  {
    if items == [] then []
    else
      var (lang, url) := items[|items| - 1];
      var line := filter(LinkHeader(lang, url), lang, url);
      SentHeaders(items[..|items| - 1], filter) + if Truthy(line) then [line] else []
  }

  /** The filter's answer for entry `i`. */
  function FilteredHeader(items: seq<(string, string)>, filter: LineFilter, i: nat): string
    requires i < |items|
  {
    filter(LinkHeader(items[i].0, items[i].1), items[i].0, items[i].1)
  }

  /** Sending for one more entry appends that entry's filtered line when it is truthy. */
  lemma SentHeadersStep(items: seq<(string, string)>, filter: LineFilter, i: nat)
    requires i < |items|
    ensures var line := FilteredHeader(items, filter, i);
      SentHeaders(items[..i + 1], filter) == SentHeaders(items[..i], filter) + if Truthy(line) then [line] else []
  {
    assert items[..i + 1][..i] == items[..i];
  }

  /**
   * Every sent header is the truthy filter result of some entry, and the
   * truthy filter result of every entry is sent; at most one per entry.
   */
  lemma {:induction false} SentHeadersAreTruthyFilterResults(items: seq<(string, string)>, filter: LineFilter)
    ensures |SentHeaders(items, filter)| <= |items|
    ensures forall h :: h in SentHeaders(items, filter) ==>
      Truthy(h) && exists i :: 0 <= i < |items| && h == FilteredHeader(items, filter, i)
    ensures forall i :: 0 <= i < |items| && Truthy(FilteredHeader(items, filter, i)) ==>
      FilteredHeader(items, filter, i) in SentHeaders(items, filter)
  {
    if items != [] {
      var n := |items| - 1;
      var prefix := items[..n];
      SentHeadersAreTruthyFilterResults(prefix, filter);
      forall i | 0 <= i < n ensures FilteredHeader(prefix, filter, i) == FilteredHeader(items, filter, i) {
        assert prefix[i] == items[i];
      }
      SentHeadersStep(items, filter, n);
      assert prefix == items[..n];
      forall h | h in SentHeaders(items, filter)
        ensures Truthy(h) && exists i :: 0 <= i < |items| && h == FilteredHeader(items, filter, i)
      {
        if h in SentHeaders(prefix, filter) {
          var i :| 0 <= i < |prefix| && h == FilteredHeader(prefix, filter, i);
          assert h == FilteredHeader(items, filter, i);
        } else {
          assert h == FilteredHeader(items, filter, n);
        }
      }
    }
  }

  /** With a filter that keeps every line as generated, one `Link` header per entry is sent, in map order. */
  lemma {:induction false} UnfilteredHeadersAreLinkHeaders(items: seq<(string, string)>)
    ensures SentHeaders(items, (h, lang, url) => h) == seq(|items|, i requires 0 <= i < |items| => LinkHeader(items[i].0, items[i].1))
  {
    if items != [] {
      var n := |items| - 1;
      UnfilteredHeadersAreLinkHeaders(items[..n]);
      assert Truthy(LinkHeader(items[n].0, items[n].1));
    }
  }

  /** Two translations of one language: the later URL replaces the earlier one, leaving one entry. */
  lemma DuplicateLanguageExample()
    ensures Prepare([Translation("en-US", "A"), Translation("en-US", "B")]) == OrderedMap(["en-US"], map["en-US" := "B"])
  {
    var ts := [Translation("en-US", "A"), Translation("en-US", "B")];
    assert ts[..1][..0] == [];
    assert AdvertisedEntry(ts[0]) == Some(("en-US", "A"));
    assert AdvertisedEntry(ts[1]) == Some(("en-US", "B"));
    var none: OrderedMap<string, string> := Empty();
    assert Fold(none, ts[..1][..0], AdvertisedEntry) == none;
    assert ts[..1][|ts[..1]| - 1] == ts[0];
    var first := Fold(none, ts[..1], AdvertisedEntry);
    assert first == none.Put("en-US", "A");
    assert first == OrderedMap(["en-US"], map["en-US" := "A"]);
    assert Prepare(ts) == first.Put("en-US", "B");
    assert map["en-US" := "A"]["en-US" := "B"] == map["en-US" := "B"];
  }

  /**
   * Rendering of a two-language map on both channels: one line per entry
   * in map order, and a header the filter empties is not sent.
   */
  lemma TwoLanguageExample()
    ensures var m: OrderedMap<string, string> := OrderedMap(["en-US", "de-DE"], map["en-US" := "https://x/a", "de-DE" := "https://x/b"]);
      && m.Valid()
      && HeadLines(m, (h, lang, url) => h) == [LinkElement("en-US", "https://x/a"), LinkElement("de-DE", "https://x/b")]
      && SentHeaders(m.Items(), (h, lang, url) => h) == [LinkHeader("en-US", "https://x/a"), LinkHeader("de-DE", "https://x/b")]
      && SentHeaders(m.Items(), (h, lang, url) => if lang == "en-US" then "" else h) == [LinkHeader("de-DE", "https://x/b")]
  {
    var m: OrderedMap<string, string> := OrderedMap(["en-US", "de-DE"], map["en-US" := "https://x/a", "de-DE" := "https://x/b"]);
    var items := m.Items();
    assert items == [("en-US", "https://x/a"), ("de-DE", "https://x/b")];
    var linkA, linkB := LinkHeader("en-US", "https://x/a"), LinkHeader("de-DE", "https://x/b");
    assert Truthy(linkA) && Truthy(linkB);
    var keep: LineFilter := (h, lang, url) => h;
    var dropEnglish: LineFilter := (h, lang, url) => if lang == "en-US" then "" else h;
    assert items[..1][..0] == [] && items[..1] == [items[0]] && items[..2] == items;
    assert SentHeaders(items[..1], keep) == [linkA];
    assert SentHeaders(items, keep) == [linkA, linkB];
    assert SentHeaders(items[..1], dropEnglish) == [];
    assert SentHeaders(items, dropEnglish) == [linkB];
  }

  /**
   * `Mlp_Hreflang_Header_Output`. The output channels are part of the
   * object: `echoed` is what `echo` wrote into the page, `sentHeaders`
   * the lines passed to `header( $line, false )`, and `queries` the calls
   * made to the language API.
   */
  class HreflangHeaderOutput {
    const languageApi: LanguageApi
    var translations: TranslationsField
    var queries: seq<QueryArgs>
    var echoed: seq<string>
    var sentHeaders: seq<string>

    constructor (languageApi: LanguageApi)
      ensures this.languageApi == languageApi
      ensures translations == Prepared(Empty()) && queries == [] && echoed == [] && sentHeaders == []
    {
      this.languageApi := languageApi;
      translations := Prepared(Empty());
      queries := [];
      echoed := [];
      sentHeaders := [];
    }

    /** `get_translations`: query the API unless failure was recorded, and prepare the map. */
    method GetTranslations() returns (r: OrderedMap<string, string>)
      modifies this
      ensures r.Valid()
      ensures r == FetchResult(languageApi, old(translations), |old(queries)|)
      ensures translations == FetchState(languageApi, old(translations), |old(queries)|)
      ensures queries == FetchQueries(old(translations), old(queries))
      ensures echoed == old(echoed) && sentHeaders == old(sentHeaders)
    {
      if translations == FailedSentinel {
        return Empty();
      }
      var answer := languageApi(IncludeBase, |queries|);
      queries := queries + [IncludeBase];
      if answer == [] {
        translations := FailedSentinel;
        return Empty();
      }
      var prepared := Empty();
      for i := 0 to |answer|
        invariant prepared == Prepare(answer[..i])
      {
        var translation := answer[i];
        var languageName := translation.httpName;
        var url := translation.remoteUrl;
        if Truthy(url) {
          prepared := prepared.Put(languageName, url);
        }
        assert answer[..i + 1][..i] == answer[..i];
      }
      assert answer[..|answer|] == answer;
      if prepared.keys == [] {
        NoKeysIsEmpty(prepared);
        translations := FailedSentinel;
        return Empty();
      }
      translations := Prepared(prepared);
      r := prepared;
    }

    /** `wp_head`: echo one filtered `<link>` element per entry; nothing when the map is empty. */
    method WpHead(filter: LineFilter)
      modifies this
      ensures translations == FetchState(languageApi, old(translations), |old(queries)|)
      ensures queries == FetchQueries(old(translations), old(queries))
      ensures echoed == old(echoed) + HeadLines(FetchResult(languageApi, old(translations), |old(queries)|), filter)
      ensures sentHeaders == old(sentHeaders)
    {
      var translations := GetTranslations();
      if translations.keys == [] {
        return;
      }
      ghost var before := echoed;
      var items := translations.Items();
      for i := 0 to |items|
        invariant echoed == before + HeadLines(translations, filter)[..i]
        invariant this.translations == FetchState(languageApi, old(this.translations), |old(queries)|)
        invariant queries == FetchQueries(old(this.translations), old(queries))
        invariant sentHeaders == old(sentHeaders)
      {
        var (lang, url) := items[i];
        var html := LinkElement(lang, url);
        echoed := echoed + [filter(html, lang, url)];
        assert HeadLines(translations, filter)[..i + 1] == HeadLines(translations, filter)[..i] + [filter(html, lang, url)];
      }
      assert HeadLines(translations, filter)[..|items|] == HeadLines(translations, filter);
    }

    /** `http_header`: send each filtered `Link` header that is truthy, adding to earlier ones. */
    method HttpHeader(filter: LineFilter)
      modifies this
      ensures translations == FetchState(languageApi, old(translations), |old(queries)|)
      ensures queries == FetchQueries(old(translations), old(queries))
      ensures sentHeaders == old(sentHeaders) + SentHeaders(FetchResult(languageApi, old(translations), |old(queries)|).Items(), filter)
      ensures echoed == old(echoed)
    {
      var translations := GetTranslations();
      if translations.keys == [] {
        return;
      }
      SendHeaders(translations.Items(), filter);
    }

    /** The loop of `http_header`: send each entry's filtered header when it is truthy. */
    method SendHeaders(items: seq<(string, string)>, filter: LineFilter)
      modifies this`sentHeaders
      ensures sentHeaders == old(sentHeaders) + SentHeaders(items, filter)
    {
      for i := 0 to |items|
        invariant sentHeaders == old(sentHeaders) + SentHeaders(items[..i], filter)
      {
        var (lang, url) := items[i];
        var header := LinkHeader(lang, url);
        header := filter(header, lang, url);
        if Truthy(header) {
          sentHeaders := sentHeaders + [header];
        }
        SentHeadersStep(items, filter, i);
      }
      assert items[..|items|] == items;
    }
  }
}
