/**
 * `generateSitemap` of scripts/generate-sitemap.mjs: the choice of the site's
 * base URL, the URL of each route, and the Sitemaps 0.9 document listing
 * them. The process environment and the text of the `.env` file are inputs;
 * the document is returned rather than written to `public/sitemap.xml`.
 */
module Sitemap {
  import opened Wrappers
  import opened Strings
  import opened EnvFile

  /** The base URL used when neither the process environment nor the file sets one. */
  const FallbackSiteUrl: string := "https://gathuto.vercel.app"

  /** The variable that names the site's base URL. */
  const SiteUrlKey: string := "VITE_SITE_URL"

  /** The routes the sitemap lists, in order. */
  const Routes: seq<string> := ["/"]

  /**
   * The value of `key` in an environment, with an unset variable read as "":
   * both are falsy to `||`, which is all the generator does with the value.
   */
  function Lookup(env: map<string, string>, key: string): (v: string)
    ensures key !in env ==> v == ""
    ensures key in env ==> v == env[key]
  {
    if key in env then env[key] else ""
  }

  /** JavaScript's `a || b` on strings: `a` unless it is empty. */
  function Or(a: string, b: string): (r: string)
    ensures r == "" <==> a == "" && b == ""
    ensures a != "" ==> r == a
    ensures a == "" ==> r == b
  {
    if a != "" then a else b
  }

  /** `process.env.VITE_SITE_URL || envFromFile.VITE_SITE_URL || fallbackSiteUrl`. */
  function ChooseSiteUrl(processEnv: map<string, string>, fileEnv: map<string, string>): (url: string)
    ensures url != ""
    ensures Lookup(processEnv, SiteUrlKey) != "" ==> url == processEnv[SiteUrlKey]
    ensures Lookup(processEnv, SiteUrlKey) == "" && Lookup(fileEnv, SiteUrlKey) != "" ==> url == fileEnv[SiteUrlKey]
    ensures Lookup(processEnv, SiteUrlKey) == "" && Lookup(fileEnv, SiteUrlKey) == "" ==> url == FallbackSiteUrl
  {
    Or(Or(Lookup(processEnv, SiteUrlKey), Lookup(fileEnv, SiteUrlKey)), FallbackSiteUrl)
  }

  /** `siteUrl.replace(/\/$/, '')`: one trailing slash is removed. */
  function NormalizeSiteUrl(url: string): (r: string)
    ensures |url| > 0 && url[|url| - 1] == '/' ==> r + "/" == url
    ensures !(|url| > 0 && url[|url| - 1] == '/') ==> r == url
  {
    if |url| > 0 && url[|url| - 1] == '/' then url[..|url| - 1] else url
  }

  /** The base URL of the sitemap, from the two environments. */
  function SiteUrl(processEnv: map<string, string>, fileEnv: map<string, string>): string {
    NormalizeSiteUrl(ChooseSiteUrl(processEnv, fileEnv))
  }

  /** `routePath` without its leading slash, if it has one. */
  function RouteTail(route: string): (t: string)
    ensures StartsWith(route, "/") ==> "/" + t == route
    ensures !StartsWith(route, "/") ==> t == route
  {
    if StartsWith(route, "/") then route[1..] else route
  }

  /** `toUrlPath(baseUrl, routePath)`. */
  function ToUrlPath(base: string, route: string): (url: string)
    ensures url == base + "/" + RouteTail(route)
  {
    if route == "/" then base + "/"
    else base + (if StartsWith(route, "/") then route else "/" + route)
  }

  /** The priority of a route: the home page outranks the rest. */
  function Priority(route: string): (p: string)
    ensures route == "/" <==> p == "1.0"
    ensures route != "/" <==> p == "0.8"
  {
    if route == "/" then "1.0" else "0.8"
  }

  /** The three children of one `<url>` element. */
  datatype UrlEntry = UrlEntry(loc: string, changefreq: string, priority: string)

  /** The entry of a route under the base URL. */
  function RouteEntry(base: string, route: string): UrlEntry {
    UrlEntry(ToUrlPath(base, route), "weekly", Priority(route))
  }

  function RouteEntries(base: string, routes: seq<string>): (entries: seq<UrlEntry>)
    ensures |entries| == |routes|
  {
    if routes == [] then [] else [RouteEntry(base, routes[0])] + RouteEntries(base, routes[1..])
  }

  const ElemOpen: string := "  <url>\n    <loc>"
  const AfterLoc: string := "</loc>\n    <changefreq>"
  const AfterFreq: string := "</changefreq>\n    <priority>"
  const ElemClose: string := "</priority>\n  </url>"
  const XmlHeader: string := "<?xml version=\"1.0\" encoding=\"UTF-8\"?>\n<urlset xmlns=\"http://www.sitemaps.org/schemas/sitemap/0.9\">\n"
  const XmlFooter: string := "\n</urlset>\n"

  /** One `<url>` element, indented as the generator writes it. */
  function UrlElement(e: UrlEntry): string {
    ElemOpen + (e.loc + (AfterLoc + (e.changefreq + (AfterFreq + (e.priority + ElemClose)))))
  }

  /** `entries.map(...)`: one element per entry, in order. */
  function Elements(entries: seq<UrlEntry>): (elements: seq<string>)
    ensures |elements| == |entries|
    ensures forall i :: 0 <= i < |entries| ==> elements[i] == UrlElement(entries[i])
  {
    if entries == [] then [] else [UrlElement(entries[0])] + Elements(entries[1..])
  }

  /** The whole document: the header, the elements joined by "\n", the footer. */
  function Document(entries: seq<UrlEntry>): string {
    XmlHeader + Join(Elements(entries), "\n") + XmlFooter
  }

  /** The sitemap of `routes` under the base URL. */
  function SitemapXml(base: string, routes: seq<string>): string {
    Document(RouteEntries(base, routes))
  }

  // A reader for the documents the generator writes: it recovers the entries.

  /** The text up to the next `<`, and what follows. */
  function TakeText(s: string): (r: (string, string))
    ensures r.0 + r.1 == s
  {
    var k := IndexOf(s, '<');
    if k == -1 then (s, "") else (s[..k], s[k..])
  }

  /** The text after the prefix `p`, if `s` starts with it. */
  function Expect(p: string, s: string): (r: Option<string>)
    ensures r.Some? <==> StartsWith(s, p)
    ensures r.Some? ==> p + r.value == s
  {
    if StartsWith(s, p) then Some(s[|p|..]) else None
  }

  /** Reads one `<url>` element from the front of `s`. */
  function ParseElement(s: string): (r: Option<(UrlEntry, string)>)
    ensures r.Some? ==> |r.value.1| < |s|
  {
    match Expect(ElemOpen, s)
    case None => None
    case Some(s1) =>
      var (loc, s2) := TakeText(s1);
      match Expect(AfterLoc, s2)
      case None => None
      case Some(s3) =>
        var (freq, s4) := TakeText(s3);
        match Expect(AfterFreq, s4)
        case None => None
        case Some(s5) =>
          var (priority, s6) := TakeText(s5);
          match Expect(ElemClose, s6)
          case None => None
          case Some(rest) => Some((UrlEntry(loc, freq, priority), rest))
  }

  /** Reads one or more elements separated by "\n", making up all of `s`. */
  function ParseElementList(s: string): Option<seq<UrlEntry>>
    decreases |s|
  {
    match ParseElement(s)
    case None => None
    case Some((e, rest)) =>
      if rest == "" then Some([e])
      else if rest[0] != '\n' then None
      else
        match ParseElementList(rest[1..])
        case None => None
        case Some(es) => Some([e] + es)
  }

  /** Reads a whole document. */
  function ParseDocument(xml: string): Option<seq<UrlEntry>> {
    if |xml| < |XmlHeader| + |XmlFooter| || xml[..|XmlHeader|] != XmlHeader
       || xml[|xml| - |XmlFooter|..] != XmlFooter
    then None
    else
      var body := xml[|XmlHeader|..|xml| - |XmlFooter|];
      if body == "" then Some([]) else ParseElementList(body)
  }

  /** An entry the reader can recover: no field holds a `<`. */
  predicate Plain(e: UrlEntry) {
    '<' !in e.loc && '<' !in e.changefreq && '<' !in e.priority
  }

  lemma {:induction false} TakeTextStopsAtTag(text: string, rest: string)
    requires '<' !in text && |rest| > 0 && rest[0] == '<'
    ensures TakeText(text + rest) == (text, rest)
  {
    IndexOfAfter(text, rest, '<');
    var s := text + rest;
    assert s[..|text|] == text && s[|text|..] == rest;
  }

  lemma {:induction false} ExpectPrefix(p: string, t: string)
    ensures Expect(p, p + t) == Some(t)
  {
    assert (p + t)[..|p|] == p && (p + t)[|p|..] == t;
  }

  /** A text field followed by a tag is read back exactly. */
  lemma {:induction false} FieldThenTag(text: string, tag: string, t: string)
    requires '<' !in text && |tag| > 0 && tag[0] == '<'
    ensures TakeText(text + (tag + t)) == (text, tag + t)
    ensures Expect(tag, tag + t) == Some(t)
  {
    TakeTextStopsAtTag(text, tag + t);
    ExpectPrefix(tag, t);
  }

  /** The reader recovers an element the generator wrote, and stops right after it. */
  lemma {:induction false} ParseElementOfUrlElement(e: UrlEntry, tail: string)
    requires Plain(e)
    ensures ParseElement(UrlElement(e) + tail) == Some((e, tail))
  {
    var s6 := ElemClose + tail;
    var s5 := e.priority + s6;
    var s4 := AfterFreq + s5;
    var s3 := e.changefreq + s4;
    var s2 := AfterLoc + s3;
    var s1 := e.loc + s2;
    assert UrlElement(e) + tail == ElemOpen + s1 by {
      AppendNested(ElemOpen, e.loc, AfterLoc, e.changefreq, AfterFreq, e.priority, ElemClose, tail);
    }
    ExpectPrefix(ElemOpen, s1);
    FieldThenTag(e.loc, AfterLoc, s3);
    FieldThenTag(e.changefreq, AfterFreq, s5);
    FieldThenTag(e.priority, ElemClose, tail);
  }

  /** Re-associating the concatenation of an element and what follows it. */
  lemma {:induction false} AppendNested(a: string, b: string, c: string, d: string, e: string, f: string, g: string, t: string)
    ensures (a + (b + (c + (d + (e + (f + g)))))) + t == a + (b + (c + (d + (e + (f + (g + t))))))
  {
  }

  /** The reader recovers every element of a non-empty joined list. */
  lemma {:induction false} ParseElementListOfJoin(entries: seq<UrlEntry>)
    requires |entries| >= 1
    requires forall i :: 0 <= i < |entries| ==> Plain(entries[i])
    ensures ParseElementList(Join(Elements(entries), "\n")) == Some(entries)
  {
    var e, rest := entries[0], entries[1..];
    assert entries == [e] + rest;
    assert Elements(entries) == [UrlElement(e)] + Elements(rest);
    if rest == [] {
      assert Elements(entries) == [UrlElement(e)];
      ParseElementListOfOne(e);
      assert entries == [e];
    } else {
      var tail := Join(Elements(rest), "\n");
      ParseElementListOfJoin(rest);
      JoinCons(UrlElement(e), Elements(rest), "\n");
      assert Join(Elements(entries), "\n") == UrlElement(e) + ("\n" + tail);
      ParseElementListStep(e, tail, rest);
    }
  }

  lemma {:induction false} ParseElementListOfOne(e: UrlEntry)
    requires Plain(e)
    ensures ParseElementList(Join([UrlElement(e)], "\n")) == Some([e])
  {
    ParseElementOfUrlElement(e, "");
    assert UrlElement(e) + "" == UrlElement(e);
  }

  /** An element followed by "\n" and a readable list reads as one more entry. */
  lemma {:induction false} ParseElementListStep(e: UrlEntry, tail: string, es: seq<UrlEntry>)
    requires Plain(e) && ParseElementList(tail) == Some(es)
    ensures ParseElementList(UrlElement(e) + ("\n" + tail)) == Some([e] + es)
  {
    ParseElementOfUrlElement(e, "\n" + tail);
    assert ("\n" + tail)[1..] == tail;
  }

  lemma {:induction false} JoinCons(x: string, rest: seq<string>, sep: string)
    requires |rest| >= 1
    ensures Join([x] + rest, sep) == x + (sep + Join(rest, sep))
  {
    assert ([x] + rest)[0] == x && ([x] + rest)[1..] == rest;
  }

  /** Reading back a document the generator wrote gives its entries, in order. */
  lemma {:induction false} DocumentRoundTrip(entries: seq<UrlEntry>)
    requires forall i :: 0 <= i < |entries| ==> Plain(entries[i])
    ensures ParseDocument(Document(entries)) == Some(entries)
  {
    var body := Join(Elements(entries), "\n");
    var xml := Document(entries);
    assert xml[..|XmlHeader|] == XmlHeader;
    assert xml[|xml| - |XmlFooter|..] == XmlFooter;
    assert xml[|XmlHeader|..|xml| - |XmlFooter|] == body;
    if entries == [] {
      assert body == "";
    } else {
      ParseElementListOfJoin(entries);
      assert body != "" by {
        assert Elements(entries)[0] == UrlElement(entries[0]);
      }
    }
  }

  // Properties of the generated sitemap.

  /** A route's entry can be read back when neither the base URL nor the route holds a `<`. */
  lemma {:induction false} RouteEntryPlain(base: string, route: string)
    requires '<' !in base && '<' !in route
    ensures Plain(RouteEntry(base, route))
  {
    var t := RouteTail(route);
    assert '<' !in t by {
      if StartsWith(route, "/") {
        assert forall j :: 0 <= j < |t| ==> t[j] == route[j + 1];
      }
    }
    assert ToUrlPath(base, route) == base + ("/" + t);
  }

  /** One entry per route, in route order. */
  lemma {:induction false} RouteEntriesInOrder(base: string, routes: seq<string>)
    ensures forall i :: 0 <= i < |routes| ==> RouteEntries(base, routes)[i] == RouteEntry(base, routes[i])
  {
    if routes != [] {
      RouteEntriesInOrder(base, routes[1..]);
    }
  }

  /**
   * The sitemap lists every route, in order, each with its URL, `weekly` and
   * its priority, provided no `<` in the base URL or a route breaks the markup.
   */
  lemma {:induction false} SitemapListsEveryRoute(base: string, routes: seq<string>)
    requires '<' !in base
    requires forall i :: 0 <= i < |routes| ==> '<' !in routes[i]
    ensures var es := ParseDocument(SitemapXml(base, routes));
      && es.Some?
      && |es.value| == |routes|
      && forall i :: 0 <= i < |routes| ==>
           es.value[i] == UrlEntry(ToUrlPath(base, routes[i]), "weekly", Priority(routes[i]))
  {
    var entries := RouteEntries(base, routes);
    RouteEntriesInOrder(base, routes);
    forall i | 0 <= i < |entries|
      ensures Plain(entries[i])
    {
      RouteEntryPlain(base, routes[i]);
    }
    DocumentRoundTrip(entries);
  }

  /** The home page's URL: the base URL with exactly the one slash it had or is given. */
  lemma {:induction false} RootLocation(url: string)
    ensures ToUrlPath(NormalizeSiteUrl(url), "/")
      == if |url| > 0 && url[|url| - 1] == '/' then url else url + "/"
  {
  }

  /** `generateSitemap` without its file I/O: the base URL it picks and the document it writes. */
  method GenerateSitemap(processEnv: map<string, string>, envFile: Option<string>)
    returns (siteUrl: string, xml: string)
    ensures siteUrl == SiteUrl(processEnv, EnvFromFile(envFile))
    ensures xml == SitemapXml(siteUrl, Routes)
  {
    var envFromFile := ReadEnvFile(envFile);
    var envSiteUrl := Or(Lookup(processEnv, SiteUrlKey), Lookup(envFromFile, SiteUrlKey));
    siteUrl := NormalizeSiteUrl(Or(envSiteUrl, FallbackSiteUrl));
    var urls := Join(Elements(RouteEntries(siteUrl, Routes)), "\n");
    xml := XmlHeader + urls + XmlFooter;
  }

  /** The file line `VITE_SITE_URL=https://example.com/` sets just that variable, slash included. */
  lemma {:induction false} ExampleEnvLine()
    ensures ParseEnv("VITE_SITE_URL=https://example.com/") == map["VITE_SITE_URL" := "https://example.com/"]
  {
    var key, value := "VITE_SITE_URL", "https://example.com/";
    assert "VITE_SITE_URL=https://example.com/" == key + "=" + value;
    ExampleKeyAndValueArePlain();
    PlainLineAssigns(key, value);
  }

  lemma {:induction false} ExampleKeyAndValueArePlain()
    ensures AllVisibleAscii("VITE_SITE_URL") && '=' !in "VITE_SITE_URL"
    ensures AllVisibleAscii("https://example.com/")
  {
    var key := "VITE_SITE_URL";
    assert forall i :: 0 <= i < |key| ==> key[i] != '=';
  }

  /** The document for the site's one route, for every base URL: one `<url>` element for the home page. */
  lemma {:induction false} HomePageDocument(base: string)
    ensures SitemapXml(base, Routes) == XmlHeader + UrlElement(UrlEntry(base + "/", "weekly", "1.0")) + XmlFooter
  {
    assert RouteEntries(base, Routes) == [RouteEntry(base, "/")];
    assert RouteEntry(base, "/") == UrlEntry(base + "/", "weekly", "1.0");
    assert Elements([RouteEntry(base, "/")]) == [UrlElement(RouteEntry(base, "/"))];
  }

  /**
   * The sitemap of the site's one route: a single entry, the base URL with a
   * slash, `weekly`, priority `1.0`.
   */
  lemma {:induction false} HomePageSitemap(base: string)
    requires '<' !in base
    ensures ParseDocument(SitemapXml(base, Routes)) == Some([UrlEntry(base + "/", "weekly", "1.0")])
  {
    assert forall i :: 0 <= i < |Routes| ==> '<' !in Routes[i];
    SitemapListsEveryRoute(base, Routes);
    assert ToUrlPath(base, "/") == base + "/";
  }

  /**
   * A file setting `VITE_SITE_URL=https://example.com/`, with the variable unset
   * in the process: the base URL loses its slash, and the home page's URL, the
   * document's one `<loc>`, has it again.
   */
  lemma {:induction false} ExampleSiteUrlFromFile()
    ensures SiteUrl(map[], ParseEnv("VITE_SITE_URL=https://example.com/")) == "https://example.com"
    ensures RouteEntry("https://example.com", "/") == UrlEntry("https://example.com/", "weekly", "1.0")
  {
    ExampleEnvLine();
    ExampleHomePageEntry();
  }

  /** With that file, the written sitemap lists the home page once, with its slash restored. */
  lemma {:induction false} ExampleSitemapFromFile()
    ensures SitemapXml(SiteUrl(map[], ParseEnv("VITE_SITE_URL=https://example.com/")), Routes)
            == XmlHeader + UrlElement(UrlEntry("https://example.com/", "weekly", "1.0")) + XmlFooter
  {
    ExampleSiteUrlFromFile();
    HomePageDocument("https://example.com");
  }

  lemma {:induction false} ExampleHomePageEntry()
    ensures RouteEntry("https://example.com", "/") == UrlEntry("https://example.com/", "weekly", "1.0")
  {
  }
}
