/**
 * `Timeline`: each item's image path (already relative to the images root,
 * with a leftover bare `assets/images/` removed once), its alt text, and which
 * optional parts are shown.
 */
module Timeline {
  import opened Wrappers
  import opened Text
  import opened ImagePaths

  const ImagesRoot := "/images/"

  /** A story item; `text` stands for the rendered body, present or not. */
  datatype Item = Item(
    date: Option<string>,
    title: Option<string>,
    text: Option<string>,
    image: Option<string>,
    alt: Option<string>)

  /** The path of an item's image under `/images/`, or none. */
  function ImageSrc(image: Option<string>): (r: Option<string>)
    ensures r.None? <==> image.GetOr("") == "" || image.GetOr("") == AssetsImages
    ensures r.Some? ==> IsPrefix(ImagesRoot, r.value)
  {
    var rel := StripBare(image.GetOr(""));
    if rel != "" then Some(ImagesRoot + rel) else None
  }

  /**
   * A path under the bare prefix loses it exactly once; any other path, the
   * dotted and rooted legacy spellings included, is used as it is; an empty
   * result shows no image.
   */
  lemma ImageSrcSpec(image: Option<string>)
    ensures var raw := image.GetOr("");
      && (IsPrefix(AssetsImages, raw) ==>
           ImageSrc(image) == (if |raw| == |AssetsImages| then None else Some(ImagesRoot + raw[|AssetsImages|..])))
      && (!IsPrefix(AssetsImages, raw) ==>
           ImageSrc(image) == (if raw == "" then None else Some(ImagesRoot + raw)))
  {
  }

  /**
   * An organised path and its bare-prefixed spelling give the same image; the
   * prefix is removed only once, so a doubled prefix keeps its second copy.
   */
  lemma BarePrefixAgrees(rel: string)
    ensures !IsPrefix(AssetsImages, rel) ==> ImageSrc(Some(AssetsImages + rel)) == ImageSrc(Some(rel))
    ensures IsPrefix(AssetsImages, rel) ==> ImageSrc(Some(AssetsImages + rel)) == Some(ImagesRoot + rel)
  {
    assert (AssetsImages + rel)[..|AssetsImages|] == AssetsImages;
    assert (AssetsImages + rel)[|AssetsImages|..] == rel;
  }

  /** `it.alt ?? it.title ?? 'Timeline image'`: an empty alt or title still wins. */
  function Alt(it: Item): (r: string)
    ensures it.alt.Some? ==> r == it.alt.value
    ensures it.alt.None? && it.title.Some? ==> r == it.title.value
    ensures it.alt.None? && it.title.None? ==> r == "Timeline image"
  {
    OrElse(it.alt, it.title).GetOr("Timeline image")
  }

  /** What an item shows. */
  datatype Entry = Entry(date: Option<string>, image: Option<(string, string)>, title: Option<string>, text: Option<string>)

  function EntryOf(it: Item): (e: Entry)
    ensures e.date.Some? <==> Truthy(it.date)
    ensures e.title.Some? <==> Truthy(it.title)
    ensures e.text.Some? <==> Truthy(it.text)
    ensures e.image.Some? <==> ImageSrc(it.image).Some?
    ensures e.image.Some? ==> e.image.value == (ImageSrc(it.image).value, Alt(it))
  {
    var src := ImageSrc(it.image);
    Entry(
      if Truthy(it.date) then it.date else None,
      if src.Some? then Some((src.value, Alt(it))) else None,
      if Truthy(it.title) then it.title else None,
      if Truthy(it.text) then it.text else None)
  }

  /** The timeline: one entry per item, in order. */
  function Entries(items: seq<Item>): (es: seq<Entry>)
    ensures |es| == |items|
    ensures forall i :: 0 <= i < |items| ==> es[i] == EntryOf(items[i])
  {
    seq(|items|, i requires 0 <= i < |items| => EntryOf(items[i]))
  }
}
