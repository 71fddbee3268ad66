/**
 * The accommodations page's loader: hotels from the hotels file and the
 * travel block from the venues file only, with the same image-prefix rule as
 * the travel page.
 */
module AccommodationsPage {
  import opened Wrappers
  import opened Text
  import opened TravelContent

  datatype HotelsFile = HotelsFile(hotels: Option<seq<Hotel>>)
  datatype VenuesFile = VenuesFile(travel: Option<TravelInfo>)

  datatype AccommodationsData = AccommodationsData(
    intro: Option<string>,
    hotels: seq<Hotel>,
    airports: seq<Airport>,
    rideshare: Option<string>,
    weather: Option<string>)

  /** `venues?.travel` */
  function Travel(venues: Option<VenuesFile>): Option<TravelInfo> {
    if venues.Some? then venues.value.travel else None
  }

  /** `loadAccommodationsData()`, given what each file parsed to. */
  function LoadAccommodationsData(hotels: Option<HotelsFile>, venues: Option<VenuesFile>): (d: AccommodationsData)
    ensures hotels.None? || hotels.value.hotels.None? ==> d.hotels == []
    ensures hotels.Some? && hotels.value.hotels.Some? ==> d.hotels == StripHotels(hotels.value.hotels.value)
    ensures Travel(venues).None? ==> d.airports == [] && d.intro.None? && d.rideshare.None? && d.weather.None?
    ensures Travel(venues).Some? ==>
      var t := Travel(venues).value;
      d.intro == t.intro && d.rideshare == t.rideshare && d.weather == t.weather
      && d.airports == StripAirports(t.airports.GetOr([]))
  {
    var t := Travel(venues);
    AccommodationsData(
      if t.Some? then t.value.intro else None,
      StripHotels(if hotels.Some? then hotels.value.hotels.GetOr([]) else []),
      StripAirports(if t.Some? then t.value.airports.GetOr([]) else []),
      if t.Some? then t.value.rideshare else None,
      if t.Some? then t.value.weather else None)
  }

  /**
   * Hotels and airports keep their count, order and other fields; each present
   * image loses a rooted legacy prefix, and an absent or empty one is kept.
   */
  lemma ListsPreserved(hotels: HotelsFile, t: TravelInfo)
    ensures var d := LoadAccommodationsData(Some(hotels), Some(VenuesFile(Some(t))));
      var hs := hotels.hotels.GetOr([]);
      var as_ := t.airports.GetOr([]);
      |d.hotels| == |hs| && |d.airports| == |as_|
      && (forall i :: 0 <= i < |hs| ==>
            d.hotels[i].(image := hs[i].image) == hs[i]
            && d.hotels[i].image == StripImage(hs[i].image))
      && (forall i :: 0 <= i < |as_| ==>
            d.airports[i].(image := as_[i].image) == as_[i]
            && d.airports[i].image == StripImage(as_[i].image))
  {
  }
}
