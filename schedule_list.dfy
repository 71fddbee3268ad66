/**
 * `ScheduleList`: one card per schedule event. What is modelled is what each
 * card shows: the image source, its alt text, the list key, the two
 * "a • b" badge lines, the location line, and which optional parts appear.
 */
module ScheduleList {
  import opened Wrappers
  import opened Text
  import opened ImagePaths

  /** A schedule event as read from the schedule data; every field is optional. */
  datatype Event = Event(
    id: Option<string>,
    day: Option<string>,
    title: Option<string>,
    date: Option<string>,
    time: Option<string>,
    dress: Option<string>,
    location: Option<string>,
    address: Option<string>,
    mapUrl: Option<string>,
    parking: Option<string>,
    description: Option<string>,
    note: Option<string>,
    image: Option<string>,
    alt: Option<string>)

  const ImagesRoot := "/images/"
  const Separator := " • "
  const Pin := "📍 "

  /** The image source: the legacy prefix removed, placed under `/images/`; none without an image. */
  function ImageSrc(image: Option<string>): (r: Option<string>)
    ensures r.Some? <==> Truthy(image)
    ensures r.Some? ==> r.value == ImagesRoot + StripLegacy(image.value)
  {
    if Truthy(image) then Some(ImagesRoot + StripLegacy(image.value)) else None
  }

  /** A `${x}` interpolation: an absent value renders as `undefined`. */
  function Interpolated(s: Option<string>): string {
    if s.Some? then s.value else "undefined"
  }

  /** `e.id ?? `${e.title}-${e.time}``: an id, even an empty one, wins. */
  function Key(e: Event): (k: string)
    ensures e.id.Some? ==> k == e.id.value
    ensures e.id.None? ==> k == Interpolated(e.title) + "-" + Interpolated(e.time)
  {
    if e.id.Some? then e.id.value else Interpolated(e.title) + "-" + Interpolated(e.time)
  }

  /** `e.alt ?? e.title ?? 'Event image'`: an empty alt or title still wins. */
  function Alt(e: Event): (r: string)
    ensures e.alt.Some? ==> r == e.alt.value
    ensures e.alt.None? && e.title.Some? ==> r == e.title.value
    ensures e.alt.None? && e.title.None? ==> r == "Event image"
  {
    OrElse(e.alt, e.title).GetOr("Event image")
  }

  /** `[a, b].filter(Boolean).join(' • ')` */
  function Badge(a: Option<string>, b: Option<string>): string {
    Join(PresentValues([a, b]), Separator)
  }

  /**
   * A badge line is rendered iff one of its two values is present, and then it
   * is not blank; with both present it is `a • b`, with one present just that one.
   */
  lemma BadgeSpec(a: Option<string>, b: Option<string>)
    ensures Badge(a, b) != "" <==> Truthy(a) || Truthy(b)
    ensures Truthy(a) && Truthy(b) ==> Badge(a, b) == a.value + Separator + b.value
    ensures Truthy(a) && !Truthy(b) ==> Badge(a, b) == a.value
    ensures !Truthy(a) && Truthy(b) ==> Badge(a, b) == b.value
  {
    PresentValuesEmptyIff([a, b]);
    JoinEmptyIff(PresentValues([a, b]), Separator);
  }

  /** The day/time badge: shown iff a day or a time is present, day first. */
  function DayTime(e: Event): (r: Option<string>)
    ensures r.Some? <==> Truthy(e.day) || Truthy(e.time)
    ensures Truthy(e.day) && Truthy(e.time) ==> r == Some(e.day.value + Separator + e.time.value)
    ensures Truthy(e.day) && !Truthy(e.time) ==> r == Some(e.day.value)
    ensures !Truthy(e.day) && Truthy(e.time) ==> r == Some(e.time.value)
  {
    BadgeSpec(e.day, e.time);
    if Truthy(e.time) || Truthy(e.day) then Some(Badge(e.day, e.time)) else None
  }

  /** The date/dress badge: shown iff a date or a dress code is present, date first. */
  function DateDress(e: Event): (r: Option<string>)
    ensures r.Some? <==> Truthy(e.date) || Truthy(e.dress)
    ensures Truthy(e.date) && Truthy(e.dress) ==> r == Some(e.date.value + Separator + e.dress.value)
    ensures Truthy(e.date) && !Truthy(e.dress) ==> r == Some(e.date.value)
    ensures !Truthy(e.date) && Truthy(e.dress) ==> r == Some(e.dress.value)
  {
    BadgeSpec(e.date, e.dress);
    if Truthy(e.date) || Truthy(e.dress) then Some(Badge(e.date, e.dress)) else None
  }

  /** The location line, with the address after a bullet when there is one. */
  function LocationLine(e: Event): (r: Option<string>)
    ensures r.Some? <==> Truthy(e.location)
    ensures r.Some? ==> IsPrefix(Pin + e.location.value + " ", r.value)
    ensures r.Some? ==> (r.value == Pin + e.location.value + " " <==> !Truthy(e.address))
    ensures r.Some? && Truthy(e.address) ==> r.value[|Pin + e.location.value + " "|..] == "• " + e.address.value
  {
    if Truthy(e.location) then
      Some(Pin + e.location.value + " " + (if Truthy(e.address) then "• " + e.address.value else ""))
    else None
  }

  /** The parts of one card. */
  datatype Card = Card(
    key: string,
    image: Option<(string, string)>,
    title: Option<string>,
    dayTime: Option<string>,
    dateDress: Option<string>,
    location: Option<string>,
    description: Option<string>,
    note: Option<string>,
    mapLink: Option<string>)

  /** The card an event renders as. */
  function CardOf(e: Event): (c: Card)
    ensures c.image.Some? <==> Truthy(e.image)
    ensures c.image.Some? ==> c.image.value == (ImagesRoot + StripLegacy(e.image.value), Alt(e))
    ensures c.dayTime.Some? ==> c.dayTime.value != ""
    ensures c.dateDress.Some? ==> c.dateDress.value != ""
    ensures c.description.Some? <==> Truthy(e.description)
    ensures c.note.Some? <==> Truthy(e.note)
    ensures c.mapLink.Some? <==> Truthy(e.mapUrl)
  {
    BadgeSpec(e.day, e.time);
    BadgeSpec(e.date, e.dress);
    var src := ImageSrc(e.image);
    Card(
      Key(e),
      if src.Some? then Some((src.value, Alt(e))) else None,
      e.title,
      DayTime(e),
      DateDress(e),
      LocationLine(e),
      if Truthy(e.description) then e.description else None,
      if Truthy(e.note) then e.note else None,
      if Truthy(e.mapUrl) then e.mapUrl else None)
  }

  /** `ScheduleList`: the cards, one per event, in the order given. */
  function Cards(events: seq<Event>): (cs: seq<Card>)
    ensures |cs| == |events|
    ensures forall i :: 0 <= i < |events| ==> cs[i] == CardOf(events[i])
  {
    seq(|events|, i requires 0 <= i < |events| => CardOf(events[i]))
  }
}
