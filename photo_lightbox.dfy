/**
 * `PhotoLightbox`: wrap-around previous/next navigation over the photo list,
 * the keys it answers while open, and what it shows for the current photo.
 * Its path normaliser is the gallery grid's.
 */
module PhotoLightbox {
  import opened Wrappers
  import opened Text
  import opened GalleryGrid

  /** `currentIndex > 0 ? currentIndex - 1 : photos.length - 1` */
  function PrevIndex(current: int, n: nat): (r: int)
    ensures 0 <= current < n ==> 0 <= r < n && r == (current - 1) % n
  {
    if current > 0 then current - 1 else n - 1
  }

  /** `currentIndex < photos.length - 1 ? currentIndex + 1 : 0` */
  function NextIndex(current: int, n: nat): (r: int)
    ensures 0 <= current < n ==> 0 <= r < n && r == (current + 1) % n
  {
    if current < n - 1 then current + 1 else 0
  }

  /** Within the list, previous and next undo each other. */
  lemma PrevNextInverse(current: int, n: nat)
    requires 0 <= current < n
    ensures NextIndex(PrevIndex(current, n), n) == current
    ensures PrevIndex(NextIndex(current, n), n) == current
  {
  }

  /** `k` presses of "next" from position `i`. */
  function NextTimes(i: int, n: nat, k: nat): int {
    if k == 0 then i else NextIndex(NextTimes(i, n, k - 1), n)
  }

  /** Before the end of the list, `k` presses move exactly `k` places. */
  lemma {:induction false} NextTimesAdvance(i: int, n: nat, k: nat)
    requires 0 <= i && i + k < n
    ensures NextTimes(i, n, k) == i + k
  {
    if k > 0 {
      NextTimesAdvance(i, n, k - 1);
    }
  }

  /** Presses compose: `a` presses and then `b` more are `a + b` presses. */
  lemma {:induction false} NextTimesAdd(i: int, n: nat, a: nat, b: nat)
    ensures NextTimes(i, n, a + b) == NextTimes(NextTimes(i, n, a), n, b)
  {
    if b > 0 {
      NextTimesAdd(i, n, a, b - 1);
    }
  }

  /** A full round of "next" presses comes back to the starting photo. */
  lemma FullRound(i: int, n: nat)
    requires 0 <= i < n
    ensures NextTimes(i, n, n) == i
  {
    NextTimesAdvance(i, n, n - i - 1);
    assert NextTimes(i, n, n - i) == 0;
    NextTimesAdd(i, n, n - i, i);
    if i > 0 {
      NextTimesAdvance(0, n, i);
    }
  }

  datatype Key = Escape | ArrowLeft | ArrowRight | OtherKey
  datatype Effect = Close | Navigate(index: int) | NoEffect

  /** The keyboard handler; it is registered only while the lightbox is open. */
  function OnKey(isOpen: bool, key: Key, current: int, n: nat): (e: Effect)
    ensures !isOpen ==> e == NoEffect
    ensures isOpen ==> (key == Escape <==> e == Close)
    ensures isOpen && key == ArrowLeft ==> e == Navigate(PrevIndex(current, n))
    ensures isOpen && key == ArrowRight ==> e == Navigate(NextIndex(current, n))
    ensures isOpen && key == OtherKey ==> e == NoEffect
    ensures isOpen && 0 <= current < n && e.Navigate? ==> 0 <= e.index < n
  {
    if !isOpen then NoEffect
    else match key
      case Escape => Close
      case ArrowLeft => Navigate(PrevIndex(current, n))
      case ArrowRight => Navigate(NextIndex(current, n))
      case OtherKey => NoEffect
  }

  /** What the open lightbox shows. */
  datatype View = View(
    src: string,
    alt: string,
    width: int,
    height: int,
    counter: string,
    caption: Option<string>,
    showNav: bool)

  /**
   * The rendered lightbox: nothing when closed or when there is no photo at
   * `current`; otherwise the photo, its `i of n` counter, its caption when it
   * has one, and the arrows only when there is more than one photo.
   */
  function Render(photos: seq<Photo>, current: int, isOpen: bool): (v: Option<View>)
    ensures v.Some? <==> isOpen && 0 <= current < |photos|
    ensures v.Some? ==> v.value.src == Normalize(photos[current].src)
    ensures v.Some? ==>
      v.value.alt == FirstPresent(photos[current].caption, photos[current].alt, "Photo " + NatToString(current + 1))
    ensures v.Some? ==>
      v.value.width == OrDefault(photos[current].width, DefaultWidth)
      && v.value.height == OrDefault(photos[current].height, DefaultHeight)
    ensures v.Some? ==> v.value.counter == NatToString(current + 1) + " of " + NatToString(|photos|)
    ensures v.Some? ==> (v.value.showNav <==> |photos| > 1)
    ensures v.Some? ==> (v.value.caption.Some? <==> Truthy(photos[current].caption) || Truthy(photos[current].alt))
    ensures v.Some? && v.value.caption.Some? ==>
      v.value.caption.value == FirstPresent(photos[current].caption, photos[current].alt, "")
  {
    if !isOpen || !(0 <= current < |photos|) then None
    else
      var p := photos[current];
      Some(View(
        Normalize(p.src),
        FirstPresent(p.caption, p.alt, "Photo " + NatToString(current + 1)),
        OrDefault(p.width, DefaultWidth),
        OrDefault(p.height, DefaultHeight),
        NatToString(current + 1) + " of " + NatToString(|photos|),
        if Truthy(p.caption) || Truthy(p.alt) then Some(FirstPresent(p.caption, p.alt, "")) else None,
        |photos| > 1))
  }

  /** Navigating from a shown photo always lands on a photo that is shown. */
  lemma NavigationStaysVisible(photos: seq<Photo>, current: int, key: Key)
    requires Render(photos, current, true).Some?
    ensures var e := OnKey(true, key, current, |photos|);
      e.Navigate? ==> Render(photos, e.index, true).Some?
  {
  }
}
