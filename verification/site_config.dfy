/** The selector profiles of the scraper, looked up by the domain of a page
    URL (`_get_site_config`). The domain is the network location that Python's
    `urllib.parse.urlsplit` finds, with every "www." removed by `str.replace`. */
module SiteConfig {
  import opened Wrappers
  import opened Text

  /** The CSS selectors used on one site: for variant choices, for prices and
      for search results. */
  datatype Profile = Profile(variantSelectors: seq<string>, priceSelectors: seq<string>, searchSelectors: seq<string>)

  const DefaultKey: string := "__default__"

  const DefaultProfile: Profile := Profile(
    [ "select option", ".product-variant-selector option", ".variant-selector option",
      ".product-options select option", "input[type='radio'][name*='variant']",
      "input[type='radio'][name*='option']", ".product-form__input input[type='radio']",
      ".product-variant", ".variant-option", ".product-options__value", ".swatch-element",
      "[data-variant-selector]", ".product-options__selector", "[data-option]", "[data-variant]",
      ".product-option", ".variant-selector" ],
    [ ".product-price", ".price", ".product__price", "[itemprop='price']", ".product-single__price",
      ".price-item--regular", ".product-form__price", ".product__price--regular", "[data-price]",
      ".product-price__regular", "[data-product-price]", ".current-price", ".product-current-price",
      ".product-price__value" ],
    [ ".product-item", ".product-card", ".search-result-item", ".product", "a[href*='product']",
      ".product-link", ".product-grid-item", ".product-tile", ".product-box", ".product-list__item",
      ".product-grid__item", "[data-product]", ".search-result", ".product-result" ])

  /** `SITE_CONFIG`: only the fallback entry is filled in. */
  const Sites: map<string, Profile> := map[DefaultKey := DefaultProfile]

  // ---------------------------------------------------------------------------
  // urlsplit(url).netloc

  /** `url.lstrip()` of the C0 control characters and space. */
  function TrimControls(url: string): (r: string)
    ensures r == [] || r[0] > ' '
    ensures |r| <= |url| && r == url[|url| - |r|..]
  {
    if url == [] || url[0] > ' ' then url else TrimControls(url[1..])
  }

  /** The cleaning `urlsplit` does first: leading controls and spaces go, and
      every tab, carriage return and line feed is removed. */
  function CleanUrl(url: string): string {
    RemoveChar(RemoveChar(RemoveChar(TrimControls(url), '\t'), '\r'), '\n')
  }

  predicate IsSchemeChar(c: char) {
    IsAsciiUpper(c) || IsAsciiLower(c) || IsDigit(c) || c == '+' || c == '-' || c == '.'
  }

  /** What follows the scheme: the text after the first ':' when everything
      before it is a scheme that starts with a letter, the whole URL otherwise. */
  function AfterScheme(url: string): (r: string)
    ensures |r| <= |url|
  {
    if ':' !in url then url
    else
      var i := IndexOf(url, ':');
      if 0 < i && (IsAsciiUpper(url[0]) || IsAsciiLower(url[0])) && forall k :: 0 <= k < i ==> IsSchemeChar(url[k])
      then url[i + 1..]
      else url
  }

  predicate IsNetlocDelimiter(c: char) { c == '/' || c == '?' || c == '#' }

  /** The first delimiter of the network location at or after `i`, or the end. */
  function NetlocEnd(s: string, i: nat): (e: nat)
    requires i <= |s|
    ensures i <= e <= |s| && (e == |s| || IsNetlocDelimiter(s[e]))
    ensures forall k :: i <= k < e ==> !IsNetlocDelimiter(s[k])
    decreases |s| - i
  {
    if i == |s| || IsNetlocDelimiter(s[i]) then i else NetlocEnd(s, i + 1)
  }

  /** `urlsplit(url).netloc`: after the scheme, the text between a leading "//"
      and the next '/', '?' or '#'; empty without a leading "//". */
  function Netloc(url: string): (n: string)
    ensures forall k :: 0 <= k < |n| ==> !IsNetlocDelimiter(n[k])
  {
    var u := AfterScheme(CleanUrl(url));
    if |u| >= 2 && u[0] == '/' && u[1] == '/' then
      var e := NetlocEnd(u, 2);
      assert forall k :: 0 <= k < e - 2 ==> u[2..e][k] == u[2 + k];
      u[2..e]
    else []
  }

  /** The domain `_get_site_config` looks up, or `None` for the `ValueError`
      `urlsplit` raises when the network location has only one of '[' and ']'. */
  function Domain(url: string): (r: Option<string>)
    ensures r.Some? ==> forall k :: 0 <= k < |r.value| ==> !IsNetlocDelimiter(r.value[k])
  {
    var n := Netloc(url);
    if ('[' in n) != (']' in n) then None
    else
      ReplaceAllKeepsOut(n, "www.", "", '/');
      ReplaceAllKeepsOut(n, "www.", "", '?');
      ReplaceAllKeepsOut(n, "www.", "", '#');
      Some(ReplaceAll(n, "www.", ""))
  }

  /** `_get_site_config(url)`, or `None` for the error: the lookup never
      misses, and since only the fallback entry exists it always yields the
      fallback profile. */
  function GetSiteConfig(url: string): (r: Option<Profile>)
    ensures r.Some? <==> Domain(url).Some?
    ensures r.Some? ==> r.value == DefaultProfile
  {
    match Domain(url)
    case None => None
    case Some(domain) => Some(if domain in Sites then Sites[domain] else Sites[DefaultKey])
  }

  /** No control character and no space. */
  predicate Printable(s: string) {
    forall k :: 0 <= k < |s| ==> s[k] > ' '
  }

  /** The network location of an "https://" URL is the host name, whatever path follows it. */
  lemma {:induction false} NetlocOfHttps(host: string, path: string)
    requires Printable(host) && forall k :: 0 <= k < |host| ==> !IsNetlocDelimiter(host[k])
    requires path == [] || path[0] == '/'
    requires Printable(path)
    ensures Netloc("https://" + host + path) == host
  {
    var url := "https://" + host + path;
    var u := "//" + host + path;
    assert url == "https:" + u;
    NoBreaks(host);
    NoBreaks(path);
    assert url[0] == 'h';
    assert '\t' !in url && '\r' !in url && '\n' !in url;
    HttpsScheme(url, u);
    HostEnd(u, host, path);
    assert u[2..2 + |host|] == host;
    NetlocOfClean(url, u);
  }

  lemma {:induction false} NoBreaks(s: string)
    requires Printable(s)
    ensures '\t' !in s && '\r' !in s && '\n' !in s
  {
  }

  /** A URL that needs no cleaning has the network location its text shows. */
  lemma {:induction false} NetlocOfClean(url: string, u: string)
    requires url != [] && url[0] > ' '
    requires '\t' !in url && '\r' !in url && '\n' !in url
    requires AfterScheme(url) == u && |u| >= 2 && u[0] == '/' && u[1] == '/'
    ensures Netloc(url) == u[2..NetlocEnd(u, 2)]
  {
    CleanPrintable(url);
  }

  lemma {:induction false} CleanPrintable(url: string)
    requires url != [] && url[0] > ' '
    requires '\t' !in url && '\r' !in url && '\n' !in url
    ensures CleanUrl(url) == url
  {
    RemoveCharNoOccurrence(url, '\t');
    RemoveCharNoOccurrence(url, '\r');
    RemoveCharNoOccurrence(url, '\n');
  }

  lemma {:induction false} HttpsScheme(url: string, rest: string)
    requires url == "https:" + rest
    ensures AfterScheme(url) == rest
  {
    assert url[5] == ':';
    assert forall k :: 0 <= k < 5 ==> url[k] != ':' && IsSchemeChar(url[k]);
    assert IndexOf(url, ':') == 5;
    assert url[6..] == rest;
  }

  lemma {:induction false} HostEnd(u: string, host: string, path: string)
    requires u == "//" + host + path
    requires forall k :: 0 <= k < |host| ==> !IsNetlocDelimiter(host[k])
    requires path == [] || path[0] == '/'
    ensures NetlocEnd(u, 2) == 2 + |host|
  {
    assert forall k :: 0 <= k < |host| ==> u[2 + k] == host[k];
    assert path != [] ==> u[2 + |host|] == '/';
  }

  /** The domain of an "https://" URL is its host name with every "www." removed,
      and the profile found for it is the fallback one. */
  lemma {:induction false} DomainOfHttps(host: string, path: string)
    requires Printable(host) && forall k :: 0 <= k < |host| ==> !IsNetlocDelimiter(host[k])
    requires '[' !in host && ']' !in host
    requires path == [] || path[0] == '/'
    requires Printable(path)
    ensures Domain("https://" + host + path) == Some(ReplaceAll(host, "www.", ""))
  {
    var url := "https://" + host + path;
    NetlocOfHttps(host, path);
    DomainOfNetloc(url, host);
  }

  lemma {:induction false} DomainOfNetloc(url: string, n: string)
    requires Netloc(url) == n && '[' !in n && ']' !in n
    ensures Domain(url) == Some(ReplaceAll(n, "www.", ""))
  {
  }

  // ---------------------------------------------------------------------------
  // Removing "www."

  /** A leading "www." goes, and a host name without another one is left as is. */
  lemma {:induction false} WwwRemoved(host: string)
    requires !Contains(host, "www.")
    ensures ReplaceAll("www." + host, "www.", "") == host
  {
    var s := "www." + host;
    assert s[..4] == "www.";
    assert s[4..] == host;
    ReplaceAllAbsent(host, "www.", "");
  }

  /** `str.replace` makes one pass, so a "www." can be left over. */
  lemma {:induction false} WwwMayRemain()
    ensures ReplaceAll("wwwww.w.", "www.", "") == "www."
  {
    var s := "wwwww.w.";
    assert s[..4] != "www." by { assert s[3] == 'w'; }
    assert s[1..][..4] != "www." by { assert s[1..][3] == 'w'; }
    assert s[2..][..4] == "www.";
    assert s[1..][1..] == s[2..];
    assert s[2..][4..] == "w.";
    assert |"w."| < 4;
  }
}
