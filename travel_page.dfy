/**
 * The travel page's loader: venues and hotels from their files, the travel
 * block taken from the site file first and the venues file second, and hotel
 * and airport images with their rooted legacy prefix removed. A file that
 * cannot be read or parsed arrives as `None`.
 */
module TravelPage {
  import opened Wrappers
  import opened Text
  import opened TravelContent

  datatype VenuesFile = VenuesFile(venues: Option<seq<Venue>>, travel: Option<TravelInfo>)
  datatype HotelsFile = HotelsFile(hotels: Option<seq<Hotel>>)
  datatype SiteFile = SiteFile(travel: Option<TravelInfo>)

  datatype TravelData = TravelData(
    title: string,
    intro: Option<string>,
    venues: seq<Venue>,
    hotels: seq<Hotel>,
    airports: seq<Airport>,
    rideshare: Option<string>,
    weather: Option<string>)

  /** `file?.travel` */
  function SiteTravel(site: Option<SiteFile>): Option<TravelInfo> {
    if site.Some? then site.value.travel else None
  }

  function VenuesTravel(venues: Option<VenuesFile>): Option<TravelInfo> {
    if venues.Some? then venues.value.travel else None
  }

  /** `t?.airports`, `t?.rideshare`, `t?.weather`, `t?.intro` */
  function Airports(t: Option<TravelInfo>): Option<seq<Airport>> {
    if t.Some? then t.value.airports else None
  }

  function Rideshare(t: Option<TravelInfo>): Option<string> {
    if t.Some? then t.value.rideshare else None
  }

  function Weather(t: Option<TravelInfo>): Option<string> {
    if t.Some? then t.value.weather else None
  }

  function Intro(t: Option<TravelInfo>): Option<string> {
    if t.Some? then t.value.intro else None
  }

  /** `loadTravelData()`, given what each of the three files parsed to. */
  function LoadTravelData(venues: Option<VenuesFile>, hotels: Option<HotelsFile>, site: Option<SiteFile>): (d: TravelData)
    ensures d.title == "Travel"
    ensures venues.Some? && venues.value.venues.Some? ==> d.venues == venues.value.venues.value
    ensures venues.None? || venues.value.venues.None? ==> d.venues == []
    ensures hotels.None? || hotels.value.hotels.None? ==> d.hotels == []
    ensures hotels.Some? && hotels.value.hotels.Some? ==>
      |d.hotels| == |hotels.value.hotels.value|
      && forall i :: 0 <= i < |d.hotels| ==>
        d.hotels[i] == hotels.value.hotels.value[i].(image := StripImage(hotels.value.hotels.value[i].image))
    ensures d.intro == Intro(SiteTravel(site))
    ensures var listed := OrElse(Airports(SiteTravel(site)), Airports(VenuesTravel(venues))).GetOr([]);
      |d.airports| == |listed| && forall i :: 0 <= i < |listed| ==> d.airports[i] == StripAirport(listed[i])
  {
    var siteT := SiteTravel(site);
    var venuesT := VenuesTravel(venues);
    TravelData(
      "Travel",
      Intro(siteT),
      if venues.Some? then venues.value.venues.GetOr([]) else [],
      StripHotels(if hotels.Some? then hotels.value.hotels.GetOr([]) else []),
      StripAirports(OrElse(Airports(siteT), Airports(venuesT)).GetOr([])),
      OrElse(Rideshare(siteT), Rideshare(venuesT)),
      OrElse(Weather(siteT), Weather(venuesT)))
  }

  /**
   * Airports come from the site file's list whenever it is defined, even
   * empty; otherwise from the venues file's list; otherwise there are none.
   * Rideshare and weather follow the same precedence. The intro comes only
   * from the site file.
   */
  lemma TravelFallbacks(venues: Option<VenuesFile>, hotels: Option<HotelsFile>, site: Option<SiteFile>)
    ensures var d := LoadTravelData(venues, hotels, site);
      var siteA := Airports(SiteTravel(site));
      var venuesA := Airports(VenuesTravel(venues));
      && (siteA.Some? ==> d.airports == StripAirports(siteA.value))
      && (siteA.None? && venuesA.Some? ==> d.airports == StripAirports(venuesA.value))
      && (siteA.None? && venuesA.None? ==> d.airports == [])
      && (Rideshare(SiteTravel(site)).Some? ==> d.rideshare == Rideshare(SiteTravel(site)))
      && (Rideshare(SiteTravel(site)).None? ==> d.rideshare == Rideshare(VenuesTravel(venues)))
      && (Weather(SiteTravel(site)).Some? ==> d.weather == Weather(SiteTravel(site)))
      && (Weather(SiteTravel(site)).None? ==> d.weather == Weather(VenuesTravel(venues)))
      && d.intro == Intro(SiteTravel(site))
      && d.title == "Travel"
  {
  }

  /** Unreadable venue and hotel files leave the page with no venues and no hotels. */
  lemma UnreadableFiles(site: Option<SiteFile>)
    ensures var d := LoadTravelData(None, None, site);
      d.venues == [] && d.hotels == []
      && (Airports(SiteTravel(site)).None? ==> d.airports == [])
  {
  }

  /** Hotels keep their count, order and other fields; only images change. */
  lemma HotelsPreserved(venues: Option<VenuesFile>, hotels: HotelsFile, site: Option<SiteFile>)
    ensures var d := LoadTravelData(venues, Some(hotels), site);
      var hs := hotels.hotels.GetOr([]);
      |d.hotels| == |hs|
      && forall i :: 0 <= i < |hs| ==>
        d.hotels[i].(image := hs[i].image) == hs[i] && d.hotels[i].image == StripImage(hs[i].image)
  {
  }

  /**
   * The venue cards in the order the page lists them: the chapel, then the
   * club, then the rest, each venue once.
   */
  function VenueOrder(d: TravelData): (vs: seq<Venue>)
    ensures SortedBy(Rank, vs) && multiset(vs) == multiset(d.venues)
  {
    SortVenues(d.venues)
  }

  /** Sections are rendered only when they have entries. */
  predicate ShowAirports(d: TravelData) {
    |d.airports| > 0
  }

  predicate ShowVenues(d: TravelData) {
    |d.venues| > 0
  }

  predicate ShowHotels(d: TravelData) {
    |d.hotels| > 0
  }

  /**
   * Which sections the page renders, in terms of the files: venues and hotels
   * iff their file lists at least one, airports iff the list chosen by the
   * site-then-venues precedence has one.
   */
  lemma SectionsShown(venues: Option<VenuesFile>, hotels: Option<HotelsFile>, site: Option<SiteFile>)
    ensures var d := LoadTravelData(venues, hotels, site);
      && (ShowVenues(d) <==> venues.Some? && venues.value.venues.Some? && |venues.value.venues.value| > 0)
      && (ShowHotels(d) <==> hotels.Some? && hotels.value.hotels.Some? && |hotels.value.hotels.value| > 0)
      && (ShowAirports(d) <==> |OrElse(Airports(SiteTravel(site)), Airports(VenuesTravel(venues))).GetOr([])| > 0)
  {
  }
}
