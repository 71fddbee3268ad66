/**
 * The schedule page: it rewrites each event's image path to the organised
 * image folders (events, story, gallery, or the images root) before handing
 * the events to `ScheduleList`.
 */
module SchedulePage {
  import opened Wrappers
  import opened Text
  import opened ImagePaths
  import opened ScheduleList

  const EventWords := {"rehearsal", "ceremony", "reception", "brunch"}
  const StoryWords := {"story"}
  const GalleryWords := {"gallery"}

  /** The schedule data: optional events, title and intro. */
  datatype ScheduleData = ScheduleData(events: Option<seq<Event>>, title: Option<string>, intro: Option<string>)

  /** The filename left once the legacy prefix is removed and the ends trimmed. */
  function Filename(image: string): string {
    Trim(StripLegacy(image))
  }

  /** The folder a filename belongs in, with its trailing slash; "" for the root. */
  function Folder(f: string): string {
    if NamedImage(f, EventWords) then "events/"
    else if NumberedImage(f, StoryWords) then "story/"
    else if NumberedImage(f, GalleryWords) then "gallery/"
    else ""
  }

  /**
   * The normalised image of one event: absent when the image is absent, empty,
   * or nothing but a legacy prefix and blanks; otherwise the filename under the
   * folder its name selects.
   */
  function NormalizeImage(image: Option<string>): (r: Option<string>)
    ensures r.None? <==> !Truthy(image) || Filename(image.value) == ""
    ensures r.Some? ==> r.value == Folder(Filename(image.value)) + Filename(image.value)
  {
    if !Truthy(image) then None
    else
      var f := Filename(image.value);
      if f == "" then None else Some(Folder(f) + f)
  }

  /**
   * The folder is chosen by the first of the three patterns the filename
   * matches: an event name, `story-<digits>`, or `gallery-<digits>`, each with
   * an image extension in any letter case.
   */
  lemma FolderSpec(f: string)
    ensures Folder(f) == "events/" <==> NamedImageSplit(f, EventWords)
    ensures Folder(f) == "story/" <==> !NamedImageSplit(f, EventWords) && NumberedImageSplit(f, StoryWords)
    ensures Folder(f) == "gallery/" <==>
      !NamedImageSplit(f, EventWords) && !NumberedImageSplit(f, StoryWords) && NumberedImageSplit(f, GalleryWords)
    ensures Folder(f) == "" <==>
      !NamedImageSplit(f, EventWords) && !NumberedImageSplit(f, StoryWords) && !NumberedImageSplit(f, GalleryWords)
  {
    NamedImageIff(f, EventWords);
    NumberedImageIff(f, StoryWords);
    NumberedImageIff(f, GalleryWords);
  }

  /** Each event keeps every field except its image, which is normalised. */
  function NormalizeEvent(e: Event): (r: Event)
    ensures r.image == NormalizeImage(e.image)
    ensures r.(image := e.image) == e
  {
    e.(image := NormalizeImage(e.image))
  }

  /** The events the page lists: none when the data has no events. */
  function PageEvents(data: ScheduleData): (r: seq<Event>)
    ensures data.events.None? ==> r == []
    ensures data.events.Some? ==> |r| == |data.events.value|
    ensures data.events.Some? ==>
      forall i :: 0 <= i < |r| ==> r[i] == NormalizeEvent(data.events.value[i])
  {
    var events := data.events.GetOr([]);
    seq(|events|, i requires 0 <= i < |events| => NormalizeEvent(events[i]))
  }

  /** The heading: the data's title, or `Schedule`. */
  function Heading(data: ScheduleData): (h: string)
    ensures data.title.Some? ==> h == data.title.value
    ensures data.title.None? ==> h == "Schedule"
  {
    data.title.GetOr("Schedule")
  }

  /**
   * A normalised event, story or gallery image survives the list's own
   * legacy-prefix stripping: the list shows it at `/images/<folder>/<file>`.
   */
  lemma ListShowsFolder(image: Option<string>)
    requires NormalizeImage(image).Some? && Folder(Filename(image.value)) != ""
    ensures ImageSrc(NormalizeImage(image)) ==
      Some(ImagesRoot + Folder(Filename(image.value)) + Filename(image.value))
  {
    var folder := Folder(Filename(image.value));
    var r := NormalizeImage(image).value;
    assert r[0] == folder[0];
    StripLegacyKeeps(r);
    assert ImagesRoot + r == ImagesRoot + folder + Filename(image.value);
  }
}
