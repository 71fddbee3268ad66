/**
 * The gallery page: each photo's source loses its legacy prefix (a missing
 * source becomes empty) before the photos reach the grid.
 */
module GalleryPage {
  import opened Wrappers
  import opened Text
  import opened ImagePaths
  import GalleryGrid

  /** A photo as read from the content file; its source may be missing. */
  datatype RawPhoto = RawPhoto(
    src: Option<string>,
    alt: Option<string>,
    caption: Option<string>,
    width: Option<int>,
    height: Option<int>)

  datatype GalleryData = GalleryData(title: Option<string>, intro: Option<string>, photos: Option<seq<RawPhoto>>)

  /** `p.src ? strip(p.src) : ''` */
  function PhotoSrc(src: Option<string>): (r: string)
    ensures !Truthy(src) ==> r == ""
    ensures Truthy(src) ==> r == StripLegacy(src.value)
  {
    if Truthy(src) then StripLegacy(src.value) else ""
  }

  /** A photo with its source cleaned and its other fields kept. */
  function CleanPhoto(p: RawPhoto): (r: GalleryGrid.Photo)
    ensures r.src == PhotoSrc(p.src)
    ensures r.alt == p.alt && r.caption == p.caption && r.width == p.width && r.height == p.height
  {
    GalleryGrid.Photo(PhotoSrc(p.src), p.alt, p.caption, p.width, p.height)
  }

  /** The photos passed to the grid: all of them, in order; none without a list. */
  function SelectedPhotos(data: GalleryData): (r: seq<GalleryGrid.Photo>)
    ensures data.photos.None? ==> r == []
    ensures data.photos.Some? ==>
      (|r| == |data.photos.value| && forall i :: 0 <= i < |r| ==> r[i] == CleanPhoto(data.photos.value[i]))
  {
    var photos := data.photos.GetOr([]);
    seq(|photos|, i requires 0 <= i < |photos| => CleanPhoto(photos[i]))
  }

  /** The heading: the data's title, or `Gallery`. */
  function Heading(data: GalleryData): (h: string)
    ensures data.title.Some? ==> h == data.title.value
    ensures data.title.None? ==> h == "Gallery"
  {
    data.title.GetOr("Gallery")
  }

  /**
   * Cleaning the source first does not change where the grid points a legacy
   * photo: the grid would have removed the same prefix itself.
   */
  lemma CleanThenNormalize(d: nat, b: bool, rest: string)
    requires d <= 2 && StripLegacy(rest) == rest
    ensures GalleryGrid.Normalize(PhotoSrc(Some(LegacyPrefix(d, b) + rest))) == GalleryGrid.Normalize(rest)
    ensures GalleryGrid.Normalize(LegacyPrefix(d, b) + rest) == GalleryGrid.Normalize(rest)
  {
    var s := LegacyPrefix(d, b) + rest;
    StripLegacySpec(s);
    assert IsPrefix(LegacyPrefix(d, b), s);
    assert s[|LegacyPrefix(d, b)|..] == rest;
    GalleryGrid.LegacyAgrees(d, b, rest);
  }
}
