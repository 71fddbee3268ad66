/**
 * The sitemap route: the fixed routes followed by any extra routes from the
 * site file, without repeats, each resolved against the base URL and wrapped
 * in a `<url><loc>` entry of a Sitemaps 0.9 `urlset` document. URL resolution
 * is a parameter.
 */
module Sitemap {
  import opened Wrappers
  import opened Text

  const FixedRoutes := ["/", "/schedule", "/travel", "/accommodations", "/registry", "/faqs", "/gallery", "/rsvp"]
  const DefaultBaseUrl := "http://localhost:3000"
  const XmlHeader := "<?xml version=\"1.0\" encoding=\"UTF-8\"?>\n<urlset xmlns=\"http://www.sitemaps.org/schemas/sitemap/0.9\">\n"
  const XmlFooter := "\n</urlset>"
  const ContentType := "application/xml; charset=utf-8"

  datatype SiteFile = SiteFile(sitemapExtra: Option<seq<string>>)
  datatype Response = Response(status: nat, contentType: string, body: string)

  predicate NoRepeats(s: seq<string>) {
    forall i, j :: 0 <= i < j < |s| ==> s[i] != s[j]
  }

  /** `[...new Set(s)]`: each value once, in order of its first appearance. */
  function Dedup(s: seq<string>): (r: seq<string>)
    ensures |r| <= |s|
    ensures forall x :: x in r ==> x in s
  {
    if |s| == 0 then []
    else
      var d := Dedup(s[..|s| - 1]);
      if s[|s| - 1] in d then d else d + [s[|s| - 1]]
  }

  /** The result has no repeats and holds exactly the values of the input. */
  lemma {:induction false} DedupSpec(s: seq<string>)
    ensures NoRepeats(Dedup(s))
    ensures forall x :: x in Dedup(s) <==> x in s
    ensures |Dedup(s)| <= |s|
  {
    if |s| > 0 {
      var init := s[..|s| - 1];
      DedupSpec(init);
      assert s == init + [s[|s| - 1]];
    }
  }

  /** A list without repeats is kept as it is. */
  lemma {:induction false} DedupNoRepeats(s: seq<string>)
    requires NoRepeats(s)
    ensures Dedup(s) == s
  {
    if |s| > 0 {
      var init := s[..|s| - 1];
      DedupNoRepeats(init);
    }
  }

  /** Appending to the input only appends to the result: earlier entries keep their places. */
  lemma {:induction false} DedupExtends(a: seq<string>, b: seq<string>)
    ensures |Dedup(a)| <= |Dedup(a + b)| && Dedup(a + b)[..|Dedup(a)|] == Dedup(a)
    decreases |b|
  {
    if |b| == 0 {
      assert a + b == a;
    } else {
      var b' := b[..|b| - 1];
      assert (a + b)[..|a + b| - 1] == a + b';
      DedupExtends(a, b');
    }
  }

  /** The route list: the fixed routes first, in their order, then each new extra route. */
  function Routes(extra: seq<string>): (r: seq<string>)
    ensures |r| >= |FixedRoutes| && r[..|FixedRoutes|] == FixedRoutes
    ensures forall x :: x in r ==> x in FixedRoutes || x in extra
  {
    DedupNoRepeats(FixedRoutes);
    DedupExtends(FixedRoutes, extra);
    Dedup(FixedRoutes + extra)
  }

  lemma RoutesSpec(extra: seq<string>)
    ensures var r := Routes(extra);
      NoRepeats(r)
      && |r| >= |FixedRoutes| && r[..|FixedRoutes|] == FixedRoutes
      && (forall x :: x in r <==> x in FixedRoutes || x in extra)
      && (extra == [] ==> r == FixedRoutes)
  {
    DedupSpec(FixedRoutes + extra);
    DedupNoRepeats(FixedRoutes);
    DedupExtends(FixedRoutes, extra);
    if extra == [] {
      assert FixedRoutes + extra == FixedRoutes;
    }
  }

  /** `process.env.NEXT_PUBLIC_SITE_URL || 'http://localhost:3000'` */
  function BaseUrl(env: Option<string>): (r: string)
    ensures Truthy(env) ==> r == env.value
    ensures !Truthy(env) ==> r == DefaultBaseUrl
  {
    if Truthy(env) then env.value else DefaultBaseUrl
  }

  /** One sitemap entry. */
  function Entry(loc: string): string {
    "<url><loc>" + loc + "</loc></url>"
  }

  /** `GET()`: `resolve(route, base)` stands for `new URL(route, base).toString()`. */
  function Get(site: Option<SiteFile>, env: Option<string>, resolve: (string, string) -> string): (r: Response)
    ensures r.status == 200 && r.contentType == ContentType
    ensures var routes := Routes(if site.Some? then site.value.sitemapExtra.GetOr([]) else []);
      r.body == XmlHeader + Join(Entries(routes, BaseUrl(env), resolve), "\n") + XmlFooter
  {
    var extra := if site.Some? then site.value.sitemapExtra.GetOr([]) else [];
    var urls := Entries(Routes(extra), BaseUrl(env), resolve);
    Response(200, ContentType, XmlHeader + Join(urls, "\n") + XmlFooter)
  }

  /** The entries, one per route, in route order. */
  function Entries(routes: seq<string>, base: string, resolve: (string, string) -> string): (es: seq<string>)
    ensures |es| == |routes|
    ensures forall i :: 0 <= i < |routes| ==> es[i] == Entry(resolve(routes[i], base))
  {
    seq(|routes|, i requires 0 <= i < |routes| => Entry(resolve(routes[i], base)))
  }

  /** Without a readable site file the sitemap lists exactly the eight fixed routes. */
  lemma NoExtras(env: Option<string>, resolve: (string, string) -> string)
    ensures Get(None, env, resolve).body ==
      XmlHeader + Join(Entries(FixedRoutes, BaseUrl(env), resolve), "\n") + XmlFooter
  {
    RoutesSpec([]);
  }
}
