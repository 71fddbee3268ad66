/**
 * `GalleryGrid`: the path normaliser shared with the lightbox, and the image
 * each photo tile shows (source, alt text, size, loading priority, heading).
 */
module GalleryGrid {
  import opened Wrappers
  import opened Text
  import opened ImagePaths

  const ImagesRoot := "/images/"
  const GalleryFolder := "gallery/"
  const PhotoWords := {"gallery", "engagement"}
  const DefaultWidth := 1200
  const DefaultHeight := 1600

  /** A photo entry: a source path relative to the images root, and optional extras. */
  datatype Photo = Photo(
    src: string,
    alt: Option<string>,
    caption: Option<string>,
    width: Option<int>,
    height: Option<int>)

  /** The filename once a legacy prefix is removed and the ends trimmed. */
  function Filename(rel: string): string {
    Trim(StripLegacy(rel))
  }

  /**
   * `normalize(rel)`: the filename under `/images/`, inside `gallery/` when it is
   * a bare `gallery-<digits>` or `engagement-<digits>` image.
   */
  function Normalize(rel: string): (r: string)
    ensures IsPrefix(ImagesRoot, r)
    ensures NumberedImage(Filename(rel), PhotoWords) ==> r == ImagesRoot + GalleryFolder + Filename(rel)
    ensures !NumberedImage(Filename(rel), PhotoWords) ==> r == ImagesRoot + Filename(rel)
  {
    Placed(Filename(rel))
  }

  /** A filename under `/images/`, inside `gallery/` when it matches the photo pattern. */
  function Placed(f: string): (r: string)
    ensures IsPrefix(ImagesRoot, r)
    ensures NumberedImage(f, PhotoWords) ==> r == ImagesRoot + GalleryFolder + f
    ensures !NumberedImage(f, PhotoWords) ==> r == ImagesRoot + f
  {
    var placed := if NumberedImage(f, PhotoWords) then GalleryFolder + f else f;
    assert (ImagesRoot + placed)[..|ImagesRoot|] == ImagesRoot;
    ImagesRoot + placed
  }

  /** The `gallery/` folder is added exactly when the name matches the photo pattern. */
  lemma NormalizeFolderIff(rel: string)
    ensures Normalize(rel) == ImagesRoot + GalleryFolder + Filename(rel) <==>
      NumberedImageSplit(Filename(rel), PhotoWords)
  {
    PlacedIff(Filename(rel));
  }

  /** The folder decision for one filename, free of how the filename was obtained. */
  lemma PlacedIff(f: string)
    ensures NumberedImage(f, PhotoWords) <==> NumberedImageSplit(f, PhotoWords)
    ensures ImagesRoot + f != ImagesRoot + GalleryFolder + f
  {
    NumberedImageIff(f, PhotoWords);
    assert |ImagesRoot + f| < |ImagesRoot + GalleryFolder + f|;
  }

  /**
   * A legacy path and the same name without its prefix normalise alike: every
   * spelling `assets/images/`, `/assets/images/`, `./…` and `../…` is removed.
   */
  lemma LegacyAgrees(d: nat, b: bool, rest: string)
    requires d <= 2 && StripLegacy(rest) == rest
    ensures Normalize(LegacyPrefix(d, b) + rest) == Normalize(rest)
  {
    var s := LegacyPrefix(d, b) + rest;
    StripLegacySpec(s);
    assert IsPrefix(LegacyPrefix(d, b), s);
    assert s[|LegacyPrefix(d, b)|..] == rest;
  }

  /**
   * A path already in its folder passes through: `gallery/<name>` for a trimmed
   * photo name gives `/images/gallery/<name>`, as the bare name does.
   */
  lemma FolderPathPassesThrough(f: string)
    requires NumberedImage(f, PhotoWords) && Trim(f) == f
    ensures Normalize(GalleryFolder + f) == ImagesRoot + GalleryFolder + f
    ensures Normalize(f) == Normalize(GalleryFolder + f)
  {
    NameStartsPlain(f);
    StripLegacyKeeps(f);
    assert Filename(f) == f;
    var s := GalleryFolder + f;
    assert s[0] == 'g';
    StripLegacyKeeps(s);
    FolderedTrimmed(f);
    assert Filename(s) == s;
    FolderedNotNumbered(f);
    assert ImagesRoot + s == ImagesRoot + GalleryFolder + f;
  }

  /** Putting a trimmed name behind `gallery/` keeps it trimmed. */
  lemma FolderedTrimmed(f: string)
    requires |f| > 0 && Trim(f) == f
    ensures Trim(GalleryFolder + f) == GalleryFolder + f
  {
    TrimSpec(f);
    TrimOfTrimmed(GalleryFolder + f);
  }

  /** Behind `gallery/` a name no longer matches: its stem contains a slash. */
  lemma FolderedNotNumbered(f: string)
    ensures !NumberedImage(GalleryFolder + f, PhotoWords)
  {
    var s := GalleryFolder + f;
    var j := IndexOf(s, '-');
    assert forall i :: 0 <= i < 8 ==> s[i] == GalleryFolder[i];
    if j >= 8 {
      assert Lower(s[..j])[7] == '/';
    }
  }

  /** A name that matches the photo pattern starts with `g` or `e`, in either case. */
  lemma NameStartsPlain(f: string)
    requires NumberedImage(f, PhotoWords)
    ensures |f| > 0 && f[0] != '.' && f[0] != '/' && f[0] != 'a'
  {
    var j := IndexOf(f, '-');
    assert Lower(f[..j]) in PhotoWords;
    assert Lower(f[..j])[0] == 'g' || Lower(f[..j])[0] == 'e';
  }

  /** `x || default` for an optional number: absent and zero fall back. */
  function OrDefault(n: Option<int>, default: int): int {
    if n.Some? && n.value != 0 then n.value else default
  }

  /** `a || b || default` for optional strings. */
  function FirstPresent(a: Option<string>, b: Option<string>, default: string): (r: string)
    ensures Truthy(a) ==> r == a.value
    ensures !Truthy(a) && Truthy(b) ==> r == b.value
    ensures !Truthy(a) && !Truthy(b) ==> r == default
  {
    if Truthy(a) then a.value else if Truthy(b) then b.value else default
  }

  const AltSuffix := " of Caroline and Zach"

  /** The fallback alt text of the photo at position `idx` (counted from zero). */
  function DefaultAlt(kind: string, idx: nat): string {
    kind + " photo " + NatToString(idx + 1) + AltSuffix
  }

  /** What one tile shows. */
  datatype Tile = Tile(src: string, alt: string, width: int, height: int, priority: bool, heading: Option<string>)

  /**
   * The tile of an engagement photo: the caption, else the alt text, else the
   * numbered fallback is its alt; the first three load eagerly.
   */
  function EngagementTile(p: Photo, idx: nat): (t: Tile)
    ensures t.src == Normalize(p.src)
    ensures Truthy(p.caption) ==> t.alt == p.caption.value
    ensures !Truthy(p.caption) && Truthy(p.alt) ==> t.alt == p.alt.value
    ensures !Truthy(p.caption) && !Truthy(p.alt) ==> t.alt == DefaultAlt("Engagement", idx)
    ensures t.priority <==> idx < 3
    ensures t.width == OrDefault(p.width, DefaultWidth) && t.height == OrDefault(p.height, DefaultHeight)
    ensures t.heading.None?
  {
    Tile(Normalize(p.src), FirstPresent(p.caption, p.alt, DefaultAlt("Engagement", idx)),
      OrDefault(p.width, DefaultWidth), OrDefault(p.height, DefaultHeight), idx < 3, None)
  }

  /**
   * The tile of a gallery photo: alt as for engagement photos with the
   * "Wedding photo" fallback; the first six load eagerly, and it has a heading.
   */
  function GalleryTile(p: Photo, idx: nat): (t: Tile)
    ensures t.src == Normalize(p.src)
    ensures Truthy(p.caption) ==> t.alt == p.caption.value
    ensures !Truthy(p.caption) && Truthy(p.alt) ==> t.alt == p.alt.value
    ensures !Truthy(p.caption) && !Truthy(p.alt) ==> t.alt == DefaultAlt("Wedding", idx)
    ensures t.priority <==> idx < 6
    ensures t.width == OrDefault(p.width, DefaultWidth) && t.height == OrDefault(p.height, DefaultHeight)
    ensures t.heading == Some(FirstPresent(p.caption, p.alt, "Photo " + NatToString(idx + 1)))
  {
    Tile(Normalize(p.src), FirstPresent(p.caption, p.alt, DefaultAlt("Wedding", idx)),
      OrDefault(p.width, DefaultWidth), OrDefault(p.height, DefaultHeight), idx < 6,
      Some(FirstPresent(p.caption, p.alt, "Photo " + NatToString(idx + 1))))
  }

  /** The two grids: engagement photos first, then the gallery photos. */
  function Grid(photos: seq<Photo>, engagement: seq<Photo>): (g: (seq<Tile>, seq<Tile>))
    ensures |g.0| == |engagement| && |g.1| == |photos|
    ensures forall i :: 0 <= i < |engagement| ==> g.0[i] == EngagementTile(engagement[i], i)
    ensures forall i :: 0 <= i < |photos| ==> g.1[i] == GalleryTile(photos[i], i)
  {
    (seq(|engagement|, i requires 0 <= i < |engagement| => EngagementTile(engagement[i], i)),
     seq(|photos|, i requires 0 <= i < |photos| => GalleryTile(photos[i], i)))
  }

  /** The eagerly loaded tiles are a prefix: at most three, resp. six, of them. */
  lemma PriorityPrefix(photos: seq<Photo>, engagement: seq<Photo>)
    ensures var g := Grid(photos, engagement);
      (forall i, j :: 0 <= i < j < |g.0| && g.0[j].priority ==> g.0[i].priority)
      && (forall i, j :: 0 <= i < j < |g.1| && g.1[j].priority ==> g.1[i].priority)
      && (forall i :: 3 <= i < |g.0| ==> !g.0[i].priority)
      && (forall i :: 6 <= i < |g.1| ==> !g.1[i].priority)
  {
  }
}
