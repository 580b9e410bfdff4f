/**
 * The link-preview responder of api/og-order.js: it looks up an order by its
 * registration number and rewrites the title, description, Open Graph and
 * Twitter meta tags of a static HTML page with escaped values.
 */
module OgOrder {
  import opened Wrappers
  import opened Text
  import opened HtmlEscape
  import opened RegexReplace

  const ApiBaseUrl := "https://cmr.api.stroyka.kz"
  const SiteUrl := "https://app.stroyka.kz"
  const LogoUrl := "https://app.stroyka.kz/logo.png"
  /** The path of the order-by-registration-number endpoint. */
  const OrderRegPath := "/rest/api/v1/order/reg/"

  const TitleLead := "Stroyka.kz - Заказ: "
  const FallbackTitle := "Stroyka.kz - Заказ на стройматериалы"
  const FallbackDescription := "Просмотрите заказ на стройматериалы в приложении Stroyka.kz"
  const DescriptionWithoutText := "Просмотрите заказ в приложении Stroyka.kz"
  const DescriptionLimit := 100

  /** `<meta attr="name" content="…">`: the opening text up to the content value, then `">`. */
  function MetaTag(attr: string, name: string): Pattern
  {
    Pattern("<meta " + attr + "=\"" + name + "\" content=\"", "\">")
  }

  /** The ten patterns the responder rewrites, in the order it applies them. */
  const TitleTag := Pattern("<title>", "</title>")
  const DescriptionTag := MetaTag("name", "description")
  const OgTitleTag := MetaTag("property", "og:title")
  const OgDescriptionTag := MetaTag("property", "og:description")
  const OgUrlTag := MetaTag("property", "og:url")
  const OgImageTag := MetaTag("property", "og:image")
  const TwitterTitleTag := MetaTag("name", "twitter:title")
  const TwitterDescriptionTag := MetaTag("name", "twitter:description")
  const TwitterUrlTag := MetaTag("name", "twitter:url")
  const TwitterImageTag := MetaTag("name", "twitter:image")

  /** The text whose presence gates the description step. */
  const DescriptionGuard := "<meta name=\"description\""

  /** The tag written in place of a match: the pattern's fixed text around the escaped value. */
  function Tag(p: Pattern, value: string): (r: string)
    ensures |r| == |p.open| + |EscapeHtml(value)| + |p.close|
    ensures StartsWith(r, p.open) && r[|r| - |p.close|..] == p.close
    ensures forall k :: |p.open| <= k < |r| - |p.close| ==> !IsMarkup(r[k])
  {
    var r := p.open + EscapeHtml(value) + p.close;
    assert r[..|p.open|] == p.open;
    r
  }

  /** One `html.replace(pattern, tag)` line of `injectMetaTags`, the tag inserted literally. */
  function Step(html: string, p: Pattern, value: string): string
  {
    ReplaceFirst(html, p, Tag(p, value))
  }

  ghost predicate HasMatch(s: string, p: Pattern)
  {
    exists i: nat, e: nat :: IsMatch(s, p, i, e)
  }

  /** The steps applied one after the other, each on the result of the one before. */
  function ApplySteps(html: string, steps: seq<(Pattern, string)>): string
    decreases |steps|
  {
    if steps == [] then html else ApplySteps(Step(html, steps[0].0, steps[0].1), steps[1..])
  }

  /**
   * `injectMetaTags(html, title, description, url, image)`: the title step, the
   * description step when the page contains the guard text, then the Open Graph
   * and Twitter steps in the source's order.
   */
  function InjectMetaTags(html: string, title: string, description: string, url: string, image: string): string
  {
    var h1 := Step(html, TitleTag, title);
    var h2 := if Contains(h1, DescriptionGuard) then Step(h1, DescriptionTag, description) else h1;
    ApplySteps(h2, [(OgTitleTag, title), (OgDescriptionTag, description), (OgUrlTag, url), (OgImageTag, image),
                    (TwitterTitleTag, title), (TwitterDescriptionTag, description), (TwitterUrlTag, url),
                    (TwitterImageTag, image)])
  }

  /** With no match for any of its patterns, a run of steps leaves the page unchanged. */
  lemma {:induction false} ApplyStepsWithoutMatches(html: string, steps: seq<(Pattern, string)>)
    requires forall k :: 0 <= k < |steps| ==> !HasMatch(html, steps[k].0)
    ensures ApplySteps(html, steps) == html
    decreases |steps|
  {
    if steps != [] {
      StepIsLocal(html, steps[0].0, steps[0].1);
      assert forall k :: 0 <= k < |steps[1..]| ==> steps[1..][k] == steps[k + 1];
      ApplyStepsWithoutMatches(html, steps[1..]);
    }
  }

  /** A page that contains none of the ten tags is served as it is. */
  lemma InjectWithoutTagsIsIdentity(html: string, title: string, description: string, url: string, image: string)
    requires !HasMatch(html, TitleTag) && !HasMatch(html, DescriptionTag)
    requires !HasMatch(html, OgTitleTag) && !HasMatch(html, OgDescriptionTag)
    requires !HasMatch(html, OgUrlTag) && !HasMatch(html, OgImageTag)
    requires !HasMatch(html, TwitterTitleTag) && !HasMatch(html, TwitterDescriptionTag)
    requires !HasMatch(html, TwitterUrlTag) && !HasMatch(html, TwitterImageTag)
    ensures InjectMetaTags(html, title, description, url, image) == html
  {
    StepIsLocal(html, TitleTag, title);
    StepIsLocal(html, DescriptionTag, description);
    ApplyStepsWithoutMatches(html, [(OgTitleTag, title), (OgDescriptionTag, description), (OgUrlTag, url),
                                    (OgImageTag, image), (TwitterTitleTag, title),
                                    (TwitterDescriptionTag, description), (TwitterUrlTag, url), (TwitterImageTag, image)]);
  }

  /**
   * A step rewrites only the first match of its pattern: the text before and
   * after it is kept, and the step leaves a page without a match unchanged.
   */
  lemma StepIsLocal(html: string, p: Pattern, value: string)
    ensures !HasMatch(html, p) ==> Step(html, p, value) == html
    ensures forall i: nat, e: nat :: IsFirstMatch(html, p, i, e) ==>
      && Step(html, p, value)[..i] == html[..i]
      && Step(html, p, value)[i..i + |Tag(p, value)|] == Tag(p, value)
      && Step(html, p, value)[i + |Tag(p, value)|..] == html[e..]
  {
    forall i: nat, e: nat | IsFirstMatch(html, p, i, e)
      ensures Step(html, p, value)[..i] == html[..i]
      ensures Step(html, p, value)[i..i + |Tag(p, value)|] == Tag(p, value)
      ensures Step(html, p, value)[i + |Tag(p, value)|..] == html[e..]
    {
      assert Step(html, p, value) == html[..i] + Tag(p, value) + html[e..];
    }
  }

  /**
   * The `includes` guard on the description step changes nothing: a page
   * without the guard text has no match for the description pattern either.
   */
  lemma DescriptionGuardRedundant(html: string, description: string)
    ensures (if Contains(html, DescriptionGuard) then Step(html, DescriptionTag, description) else html)
            == Step(html, DescriptionTag, description)
  {
    MatchShowsGuard(html);
    StepIsLocal(html, DescriptionTag, description);
  }

  /** Every match of the description pattern starts with the guard text. */
  lemma MatchShowsGuard(html: string)
    ensures HasMatch(html, DescriptionTag) ==> Contains(html, DescriptionGuard)
  {
    GuardOpensDescription();
    forall i: nat, e: nat | IsMatch(html, DescriptionTag, i, e)
      ensures Contains(html, DescriptionGuard)
    {
      PrefixOfOccurrence(html, i, DescriptionTag.open, DescriptionGuard);
    }
  }

  /** The guard text is the opening of the description pattern up to the attribute value's closing quote. */
  lemma GuardOpensDescription()
    ensures |DescriptionGuard| <= |DescriptionTag.open| && DescriptionTag.open[..|DescriptionGuard|] == DescriptionGuard
  {
    MetaTagOpening("name", "description");
    assert DescriptionGuard == "<meta " + "name" + "=\"" + "description" + "\"";
  }

  /** A meta pattern's opening starts with `<meta attr="name"`. */
  lemma MetaTagOpening(attr: string, name: string)
    ensures var lead := "<meta " + attr + "=\"" + name + "\"";
      |lead| <= |MetaTag(attr, name).open| && MetaTag(attr, name).open[..|lead|] == lead
  {
    var lead := "<meta " + attr + "=\"" + name + "\"";
    assert MetaTag(attr, name).open == lead + " content=\"";
  }

  /**
   * The shape shared by the ten patterns: the opening starts with `<` followed
   * by something other than `/` and has no other `<`; a `<` in the closing
   * text is followed by `/`.
   */
  predicate Shaped(p: Pattern)
  {
    && |p.open| >= 2 && p.open[0] == '<' && p.open[1] != '/'
    && NoLtAfterFirst(p.open) && LtBeforeSlash(p.close)
  }

  predicate NoLtAfterFirst(s: string)
  {
    forall k :: 1 <= k < |s| ==> s[k] != '<'
  }

  predicate LtBeforeSlash(s: string)
  {
    forall k :: 0 <= k < |s| && s[k] == '<' ==> k + 1 < |s| && s[k + 1] == '/'
  }

  /** Every meta pattern has the shape, whatever its attribute and name, as long as they hold no `<`. */
  lemma MetaTagShaped(attr: string, name: string)
    requires '<' !in attr && '<' !in name
    ensures Shaped(MetaTag(attr, name))
  {
    var open := MetaTag(attr, name).open;
    forall k | 1 <= k < |open| ensures open[k] != '<' {
      var a := "<meta " + attr;
      var n := "=\"" + name;
      assert open == a + n + "\" content=\"";
      if k < |a| {
        if k >= 6 { assert open[k] == attr[k - 6]; }
      } else if k < |a| + |n| {
        if k >= |a| + 2 { assert open[k] == name[k - |a| - 2]; }
      }
    }
    assert LtBeforeSlash("\">");
  }

  lemma OgPatternsShaped()
    ensures Shaped(OgTitleTag) && Shaped(OgDescriptionTag) && Shaped(OgUrlTag) && Shaped(OgImageTag)
  {
    MetaTagShaped("property", "og:title");
    MetaTagShaped("property", "og:description");
    MetaTagShaped("property", "og:url");
    MetaTagShaped("property", "og:image");
  }

  lemma TwitterPatternsShaped()
    ensures Shaped(TwitterTitleTag) && Shaped(TwitterDescriptionTag) && Shaped(TwitterUrlTag) && Shaped(TwitterImageTag)
  {
    MetaTagShaped("name", "twitter:title");
    MetaTagShaped("name", "twitter:description");
    MetaTagShaped("name", "twitter:url");
    MetaTagShaped("name", "twitter:image");
  }

  /** All ten patterns have the shape. */
  lemma MetaPatternsShaped()
    ensures Shaped(TitleTag) && Shaped(DescriptionTag)
    ensures Shaped(OgTitleTag) && Shaped(OgDescriptionTag) && Shaped(OgUrlTag) && Shaped(OgImageTag)
    ensures Shaped(TwitterTitleTag) && Shaped(TwitterDescriptionTag) && Shaped(TwitterUrlTag) && Shaped(TwitterImageTag)
  {
    assert NoLtAfterFirst(TitleTag.open) && LtBeforeSlash(TitleTag.close);
    MetaTagShaped("name", "description");
    OgPatternsShaped();
    TwitterPatternsShaped();
  }

  /**
   * Text written by a step never starts a later match: inside a written tag,
   * past its first character, no opening of any of the ten patterns occurs.
   */
  lemma WrittenTagStartsNoMatch(html: string, p: Pattern, q: Pattern, value: string, i: nat, e: nat, k: nat)
    requires Shaped(p) && Shaped(q)
    requires IsFirstMatch(html, p, i, e)
    requires i < k < i + |Tag(p, value)|
    ensures !IsPrefixAt(Step(html, p, value), k, q.open)
  {
    var t := Tag(p, value);
    var r := Step(html, p, value);
    var a := html[..i];
    assert r == a + t + html[e..];
    var j := k - i;
    assert r[k] == t[j];
    if j < |p.open| {
      assert t[j] == p.open[j];
    } else if j < |t| - |p.close| {
      assert !IsMarkup(t[j]);
    } else {
      var c := j - (|t| - |p.close|);
      assert t[j] == t[|t| - |p.close|..][c] == p.close[c];
      if p.close[c] == '<' {
        assert t[j + 1] == t[|t| - |p.close|..][c + 1] == p.close[c + 1];
        assert r[k + 1] == t[j + 1];
      }
    }
    NotPrefixAt(r, k, q.open);
  }

  /** An opening that starts `<` and a non-`/` cannot occur where the text has no `<`, or `</`. */
  lemma NotPrefixAt(r: string, k: nat, u: string)
    requires |u| >= 2 && u[0] == '<' && u[1] != '/'
    requires k < |r| && (r[k] != '<' || (k + 1 < |r| && r[k + 1] == '/'))
    ensures !IsPrefixAt(r, k, u)
  {
    if k + |u| <= |r| {
      assert r[k..k + |u|][0] == r[k];
      assert r[k..k + |u|][1] == r[k + 1];
    }
  }

  /**
   * One `html.replace(pattern, tag)` line exactly as the source runs it: the tag
   * is a replacement string, so `$&`, `` $` ``, `$'` and `$$` in the escaped value
   * are expanded (escaping leaves `$` alone).
   */
  function StepAsWritten(html: string, p: Pattern, value: string): string
  {
    ReplaceFirstAsWritten(html, p, Tag(p, value))
  }

  predicate DollarFree(s: string)
  {
    forall k :: 0 <= k < |s| ==> s[k] != '$'
  }

  /** For a value without `$` the source's step is the literal step. */
  lemma StepAsWrittenAgrees(html: string, p: Pattern, value: string)
    requires DollarFree(p.open) && DollarFree(p.close) && DollarFree(value)
    ensures StepAsWritten(html, p, value) == Step(html, p, value)
  {
    EscapeKeepsDollarFree(value);
    var t := Tag(p, value);
    assert t == p.open + EscapeHtml(value) + p.close;
    AsWrittenAgreesWithoutDollar(html, p, t);
  }

  /** The steps applied one after the other as the source runs them. */
  function ApplyStepsAsWritten(html: string, steps: seq<(Pattern, string)>): string
    decreases |steps|
  {
    if steps == [] then html else ApplyStepsAsWritten(StepAsWritten(html, steps[0].0, steps[0].1), steps[1..])
  }

  /** `injectMetaTags` exactly as the source runs it, each tag read as a replacement string. */
  function InjectMetaTagsAsWritten(html: string, title: string, description: string, url: string, image: string): string
  {
    var h1 := StepAsWritten(html, TitleTag, title);
    var h2 := if Contains(h1, DescriptionGuard) then StepAsWritten(h1, DescriptionTag, description) else h1;
    ApplyStepsAsWritten(h2, [(OgTitleTag, title), (OgDescriptionTag, description), (OgUrlTag, url), (OgImageTag, image),
                             (TwitterTitleTag, title), (TwitterDescriptionTag, description), (TwitterUrlTag, url),
                             (TwitterImageTag, image)])
  }

  /** Neither fixed text of the pattern holds a `$`. */
  predicate PatternDollarFree(p: Pattern)
  {
    DollarFree(p.open) && DollarFree(p.close)
  }

  /** Steps whose patterns and values hold no `$` run as the source runs them. */
  lemma {:induction false} ApplyStepsAsWrittenAgrees(html: string, steps: seq<(Pattern, string)>)
    requires forall k :: 0 <= k < |steps| ==> PatternDollarFree(steps[k].0) && DollarFree(steps[k].1)
    ensures ApplyStepsAsWritten(html, steps) == ApplySteps(html, steps)
    decreases |steps|
  {
    if steps != [] {
      StepAsWrittenAgrees(html, steps[0].0, steps[0].1);
      assert forall k :: 0 <= k < |steps[1..]| ==> steps[1..][k] == steps[k + 1];
      ApplyStepsAsWrittenAgrees(Step(html, steps[0].0, steps[0].1), steps[1..]);
    }
  }

  /** A meta pattern built from `$`-free names holds no `$`. */
  lemma MetaTagDollarFree(attr: string, name: string)
    requires '$' !in attr && '$' !in name
    ensures PatternDollarFree(MetaTag(attr, name))
  {
    var o := MetaTag(attr, name).open;
    var head, mid, tail := "<meta ", "=\"", "\" content=\"";
    assert o == head + attr + mid + name + tail;
    forall k | 0 <= k < |o|
      ensures o[k] != '$'
    {
      if k < |head| {
        assert o[k] in head;
      } else if k < |head| + |attr| {
        assert o[k] == attr[k - |head|];
      } else if k < |head| + |attr| + |mid| {
        assert o[k] in mid;
      } else if k < |head| + |attr| + |mid| + |name| {
        assert o[k] == name[k - |head| - |attr| - |mid|];
      } else {
        assert o[k] in tail;
      }
    }
    var c := MetaTag(attr, name).close;
    assert forall k :: 0 <= k < |c| ==> c[k] in "\">";
  }

  lemma OgPatternsDollarFree()
    ensures PatternDollarFree(OgTitleTag) && PatternDollarFree(OgDescriptionTag)
    ensures PatternDollarFree(OgUrlTag) && PatternDollarFree(OgImageTag)
  {
    MetaTagDollarFree("property", "og:title");
    MetaTagDollarFree("property", "og:description");
    MetaTagDollarFree("property", "og:url");
    MetaTagDollarFree("property", "og:image");
  }

  lemma TwitterPatternsDollarFree()
    ensures PatternDollarFree(TwitterTitleTag) && PatternDollarFree(TwitterDescriptionTag)
    ensures PatternDollarFree(TwitterUrlTag) && PatternDollarFree(TwitterImageTag)
  {
    MetaTagDollarFree("name", "twitter:title");
    MetaTagDollarFree("name", "twitter:description");
    MetaTagDollarFree("name", "twitter:url");
    MetaTagDollarFree("name", "twitter:image");
  }

  /** With `$`-free values, every step after the description step holds no `$`. */
  lemma MetaStepsDollarFree(title: string, description: string, url: string, image: string)
    requires DollarFree(title) && DollarFree(description) && DollarFree(url) && DollarFree(image)
    ensures var steps := [(OgTitleTag, title), (OgDescriptionTag, description), (OgUrlTag, url), (OgImageTag, image),
                          (TwitterTitleTag, title), (TwitterDescriptionTag, description), (TwitterUrlTag, url),
                          (TwitterImageTag, image)];
      forall k :: 0 <= k < |steps| ==> PatternDollarFree(steps[k].0) && DollarFree(steps[k].1)
  {
    OgPatternsDollarFree();
    TwitterPatternsDollarFree();
  }

  /**
   * With no `$` in the title, description, URL or image, the source's
   * `injectMetaTags` builds the same page as the literal one.
   */
  lemma InjectAsWrittenAgrees(html: string, title: string, description: string, url: string, image: string)
    requires DollarFree(title) && DollarFree(description) && DollarFree(url) && DollarFree(image)
    ensures InjectMetaTagsAsWritten(html, title, description, url, image) == InjectMetaTags(html, title, description, url, image)
  {
    TitleTagDollarFree();
    MetaTagDollarFree("name", "description");
    StepAsWrittenAgrees(html, TitleTag, title);
    var h1 := Step(html, TitleTag, title);
    StepAsWrittenAgrees(h1, DescriptionTag, description);
    var h2 := if Contains(h1, DescriptionGuard) then Step(h1, DescriptionTag, description) else h1;
    MetaStepsDollarFree(title, description, url, image);
    ApplyStepsAsWrittenAgrees(h2, [(OgTitleTag, title), (OgDescriptionTag, description), (OgUrlTag, url), (OgImageTag, image),
                                   (TwitterTitleTag, title), (TwitterDescriptionTag, description), (TwitterUrlTag, url),
                                   (TwitterImageTag, image)]);
  }

  /** The tag the title step writes for the name `$&`. */
  lemma DollarNameTag(name: string)
    requires name == "$&"
    ensures Tag(TitleTag, name) == TitleTag.open + ("$&" + ("amp;" + TitleTag.close))
  {
    assert EscapeHtml(name) == "$&amp;" by {
      assert name == ['$'] + ['&'];
      EscapeConcat(['$'], ['&']);
      assert EscapeHtml(['$']) == ['$'];
      assert EscapeHtml(['&']) == "&amp;";
    }
  }

  /** A `$&` between two `$`-free parts is read as the matched text between them. */
  lemma SubstituteAroundMatched(a: string, rest: string, html: string, i: nat, e: nat)
    requires i <= e <= |html| && DollarFree(a) && DollarFree(rest)
    ensures Substitute(a + ("$&" + rest), html, i, e) == a + (html[i..e] + rest)
  {
    SubstituteLiteralFront(a, "$&" + rest, html, i, e);
    SubstituteMatched(rest, html, i, e);
    SubstituteNoDollar(rest, html, i, e);
  }

  /** The title pattern's texts, and the tail of the escaped `$&`, hold no `$`. */
  lemma TitleTagDollarFree()
    ensures DollarFree(TitleTag.open) && DollarFree(TitleTag.close) && DollarFree("amp;" + TitleTag.close)
  {
    var tail := "amp;" + TitleTag.close;
    assert tail == "amp;</title>";
    assert forall k :: 0 <= k < |tail| ==> tail[k] in "amp;</title>";
  }

  /** How the source reads that tag as a replacement string. */
  lemma DollarNameSubstitution(html: string, name: string, i: nat, e: nat)
    requires name == "$&" && i <= e <= |html|
    ensures Substitute(Tag(TitleTag, name), html, i, e) == TitleTag.open + (html[i..e] + ("amp;" + TitleTag.close))
  {
    DollarNameTag(name);
    TitleTagDollarFree();
    SubstituteAroundMatched(TitleTag.open, "amp;" + TitleTag.close, html, i, e);
  }

  /**
   * An order named `$&`: the source writes the whole matched title tag into the
   * new title, followed by `amp;`, where the intended page carries the escaped
   * name `$&amp;`.
   */
  lemma DollarNameExpands(html: string, name: string, i: nat, e: nat)
    requires name == "$&" && IsFirstMatch(html, TitleTag, i, e)
    ensures StepAsWritten(html, TitleTag, name) == html[..i] + (TitleTag.open + (html[i..e] + ("amp;" + TitleTag.close))) + html[e..]
    ensures Step(html, TitleTag, name) == html[..i] + (TitleTag.open + ("$&" + ("amp;" + TitleTag.close))) + html[e..]
  {
    var t := Tag(TitleTag, name);
    assert StepAsWritten(html, TitleTag, name) == html[..i] + Substitute(t, html, i, e) + html[e..];
    DollarNameSubstitution(html, name, i, e);
    assert Step(html, TitleTag, name) == html[..i] + t + html[e..];
    DollarNameTag(name);
  }

  /** The sample page `<title>x</title>` has its one title match at 0..16. */
  lemma SampleTitleMatch(html: string)
    requires html == "<title>x</title>"
    ensures IsFirstMatch(html, TitleTag, 0, 16)
  {
    assert IsPrefixAt(html, 0, TitleTag.open);
    assert IsPrefixAt(html, 8, TitleTag.close);
    assert !IsPrefixAt(html, 7, TitleTag.close) by { assert html[7] == 'x'; }
  }

  /** A rendered order as the upstream API returns it; an empty text stands for a falsy field. */
  datatype Order = Order(
    name: string,
    orderAmount: Option<string>,  // the amount as rendered text, None when it is falsy
    addressName: string,
    description: string)

  /** The upstream URL `fetchWithTimeout` requests. */
  function OrderApiUrl(id: string): (r: string)
    ensures StartsWith(r, ApiBaseUrl + OrderRegPath) && r[|ApiBaseUrl + OrderRegPath|..] == id
  {
    var r := ApiBaseUrl + OrderRegPath + id;
    assert r[..|ApiBaseUrl + OrderRegPath|] == ApiBaseUrl + OrderRegPath;
    r
  }

  /** The preview title: the order's name when it has one, the generic title otherwise. */
  function Title(order: Option<Order>): (r: string)
    ensures (r != FallbackTitle) <==> (order.Some? && order.value.name != "")
    ensures r != FallbackTitle ==> StartsWith(r, TitleLead) && r[|TitleLead|..] == order.value.name
  {
    if order.Some? && order.value.name != "" then
      var r := TitleLead + order.value.name;
      assert r[18] == ':' != FallbackTitle[18];
      assert r[..|TitleLead|] == TitleLead;
      r
    else FallbackTitle
  }

  /** The part of the description before the order's own text. */
  function DescriptionLead(o: Order): string
  {
    (if o.name != "" then o.name else "Заказ")
    + (match o.orderAmount case Some(a) => " - " + a case None => "")
    + ". "
    + (if o.addressName != "" then "Город: " + o.addressName + ". " else "")
  }

  /**
   * The preview description: for a found order, its lead followed by at most the
   * first 100 characters of its description and `...`; the generic text otherwise.
   */
  function Description(order: Option<Order>): (r: string)
    ensures order.None? ==> r == FallbackDescription
    ensures order.Some? ==>
      var lead := DescriptionLead(order.value);
      var text := order.value.description;
      && |lead| + 3 <= |r| && r[..|lead|] == lead && r[|r| - 3..] == "..."
      && (text != "" ==> |r| - 3 - |lead| == Min(|text|, DescriptionLimit) && r[|lead|..|r| - 3] == text[..|r| - 3 - |lead|])
      && (text == "" ==> r[|lead|..|r| - 3] == DescriptionWithoutText)
  {
    match order
    case None => FallbackDescription
    case Some(o) =>
      var lead := DescriptionLead(o);
      var body := if o.description != "" then Truncate(o.description, DescriptionLimit) else DescriptionWithoutText;
      var r := lead + body + "...";
      assert r[..|lead|] == lead && r[|lead|..|r| - 3] == body && r[|r| - 3..] == "...";
      r
  }

  function Min(a: int, b: int): int
  {
    if a <= b then a else b
  }

  /** The canonical page address of the order. */
  function PageUrl(id: string): (r: string)
    ensures StartsWith(r, SiteUrl + "/order/") && r[|SiteUrl + "/order/"|..] == id
  {
    var r := SiteUrl + "/order/" + id;
    assert r[..|SiteUrl + "/order/"|] == SiteUrl + "/order/";
    r
  }

  /** The HTTP response the handler produces. */
  datatype Response = Response(status: int, headers: map<string, string>, body: string)

  const PageHeaders := map[
    "Content-Type" := "text/html; charset=utf-8",
    "Cache-Control" := "public, max-age=300, s-maxage=600, stale-while-revalidate=86400"]

  /**
   * The exported handler's outcome. `id` is the `id` query parameter (None when
   * absent), `fetchOrder` stands for `fetchWithTimeout`, which yields an order or
   * null and never throws, and `template` is the page read from disk (None when
   * the read throws).
   */
  function Respond(id: Option<string>, fetchOrder: string -> Option<Order>, template: Option<string>): (r: Response)
    ensures (id.None? || id.value == "") ==> r == Response(400, map[], "Missing order ID")
    ensures id.Some? && id.value != "" && template.None? ==> r == Response(500, map[], "Internal Server Error")
    ensures id.Some? && id.value != "" && template.Some? ==>
      var order := fetchOrder(OrderApiUrl(id.value));
      r == Response(200, PageHeaders,
                    InjectMetaTags(template.value, Title(order), Description(order), PageUrl(id.value), LogoUrl))
  {
    if id.None? || id.value == "" then Response(400, map[], "Missing order ID")
    else
      var order := fetchOrder(OrderApiUrl(id.value));
      var title := Title(order);
      var description := Description(order);
      var url := PageUrl(id.value);
      match template
      case None => Response(500, map[], "Internal Server Error")
      case Some(html) => Response(200, PageHeaders, InjectMetaTags(html, title, description, url, LogoUrl))
  }

  /** A missing upstream order still gives a 200 page, filled with the generic texts. */
  lemma MissingOrderFallsBack(id: string, fetchOrder: string -> Option<Order>, html: string)
    requires id != "" && fetchOrder(OrderApiUrl(id)) == None
    ensures Respond(Some(id), fetchOrder, Some(html)).status == 200
    ensures Respond(Some(id), fetchOrder, Some(html)).body
            == InjectMetaTags(html, FallbackTitle, FallbackDescription, PageUrl(id), LogoUrl)
  {
    var order := fetchOrder(OrderApiUrl(id));
    assert Title(order) == FallbackTitle && Description(order) == FallbackDescription;
  }

  /** The response object of the serverless runtime, as far as the handler touches it. */
  class ServerResponse {
    var statusCode: int
    var headers: map<string, string>
    var body: Option<string>

    constructor ()
      ensures statusCode == 200 && headers == map[] && body == None
    {
      statusCode := 200;
      headers := map[];
      body := None;
    }

    method Status(code: int)
      modifies this
      ensures statusCode == code && headers == old(headers) && body == old(body)
    {
      statusCode := code;
    }

    method SetHeader(name: string, value: string)
      modifies this
      ensures headers == old(headers)[name := value]
      ensures statusCode == old(statusCode) && body == old(body)
    {
      headers := headers[name := value];
    }

    method Send(text: string)
      modifies this
      ensures body == Some(text) && statusCode == old(statusCode) && headers == old(headers)
    {
      body := Some(text);
    }
  }

  /** The exported handler, writing its outcome to `res` step by step. */
  method Handle(id: Option<string>, fetchOrder: string -> Option<Order>, template: Option<string>, res: ServerResponse)
    requires res.statusCode == 200 && res.headers == map[] && res.body == None
    modifies res
    ensures var r := Respond(id, fetchOrder, template);
      res.statusCode == r.status && res.headers == r.headers && res.body == Some(r.body)
  {
    if id.None? || id.value == "" {
      res.Status(400);
      res.Send("Missing order ID");
      return;
    }
    var order := fetchOrder(OrderApiUrl(id.value));
    var title := Title(order);
    var description := Description(order);
    var url := PageUrl(id.value);
    if template.None? {
      res.Status(500);
      res.Send("Internal Server Error");
      return;
    }
    var html := InjectMetaTags(template.value, title, description, url, LogoUrl);
    res.SetHeader("Content-Type", "text/html; charset=utf-8");
    res.SetHeader("Cache-Control", "public, max-age=300, s-maxage=600, stale-while-revalidate=86400");
    res.Send(html);
  }
}
