/**
 * `loadSiteData`: the site-wide settings (navigation, titles, footer, home
 * page details) with their defaults. The content file arrives parsed, or as
 * `None` when it cannot be read or parsed; the current year is a parameter.
 */
module Site {
  import opened Wrappers
  import opened Text

  /** A navigation link; `text` is the source's `label`, a reserved word in Dafny. */
  datatype NavItem = NavItem(text: string, href: string)

  /** The settings record; on the failure path most fields are left undefined. */
  datatype SiteData = SiteData(
    title: Option<string>,
    subtitle: Option<string>,
    nav: Option<seq<NavItem>>,
    footer: Option<string>,
    names: Option<string>,
    date_display: Option<string>,
    city: Option<string>)

  const DefaultNav := [
    NavItem("Schedule", "/schedule"),
    NavItem("Travel", "/travel"),
    NavItem("Registry", "/registry"),
    NavItem("FAQs", "/faqs"),
    NavItem("Gallery", "/gallery"),
    NavItem("RSVP", "/rsvp")]

  const DefaultTitle := "Caroline & Zach"
  const FallbackTitle := "Wedding Site"
  const Unannounced := "TBA"

  /** `'© ' + year` */
  function Copyright(year: nat): string {
    "© " + NatToString(year)
  }

  /** `loadSiteData()` */
  function LoadSiteData(parsed: Option<SiteData>, year: nat): (d: SiteData)
    ensures d.nav.Some? && |d.nav.value| > 0
    ensures parsed.None? ==>
      d == SiteData(Some(FallbackTitle), None, Some(DefaultNav), Some(Copyright(year)), None, None, None)
    ensures parsed.Some? ==>
      var p := parsed.value;
      && (p.nav.Some? && |p.nav.value| > 0 ==> d.nav == p.nav)
      && (p.nav.None? || |p.nav.value| == 0 ==> d.nav == Some(DefaultNav))
      && d.title == Some(p.title.GetOr(DefaultTitle))
      && d.footer == Some(p.footer.GetOr(Copyright(year) + " " + DefaultTitle))
      && d.date_display == Some(p.date_display.GetOr(Unannounced))
      && d.city == Some(p.city.GetOr(Unannounced))
      && d.subtitle == p.subtitle && d.names == p.names
  {
    match parsed
    case None =>
      SiteData(Some(FallbackTitle), None, Some(DefaultNav), Some(Copyright(year)), None, None, None)
    case Some(p) =>
      SiteData(
        Some(OrElse(p.title, Some(DefaultTitle)).value),
        p.subtitle,
        Some(if p.nav.Some? && |p.nav.value| > 0 then p.nav.value else DefaultNav),
        Some(OrElse(p.footer, Some(Copyright(year) + " " + DefaultTitle)).value),
        p.names,
        Some(OrElse(p.date_display, Some(Unannounced)).value),
        Some(OrElse(p.city, Some(Unannounced)).value))
  }

  /**
   * The default navigation has six entries, all distinct, each starting with a
   * slash, and the RSVP page last.
   */
  lemma DefaultNavShape()
    ensures |DefaultNav| == 6 && DefaultNav[5] == NavItem("RSVP", "/rsvp")
    ensures forall i, j :: 0 <= i < j < |DefaultNav| ==> DefaultNav[i].href != DefaultNav[j].href
    ensures forall i :: 0 <= i < |DefaultNav| ==> |DefaultNav[i].href| > 1 && DefaultNav[i].href[0] == '/'
  {
  }

  /** The default footers begin with the copyright sign and the year. */
  lemma FooterStartsWithYear(parsed: Option<SiteData>, year: nat)
    requires parsed.None? || parsed.value.footer.None?
    ensures var f := LoadSiteData(parsed, year).footer.value;
      IsPrefix(Copyright(year), f)
  {
    var c := Copyright(year);
    if parsed.Some? {
      assert (c + " " + DefaultTitle)[..|c|] == c;
    }
  }
}
