/**
 * The travel content shared by the travel and accommodations pages: hotels,
 * airports and venues as read from the content files, the image-prefix rule
 * both pages apply to hotel and airport images, and the venue order.
 */
module TravelContent {
  import opened Wrappers
  import opened Text
  import opened ImagePaths

  datatype Block = Block(name: Option<string>, code: Option<string>, deadline: Option<string>)

  datatype Hotel = Hotel(
    name: Option<string>,
    address: Option<string>,
    distance: Option<string>,
    rating: Option<real>,
    link: Option<string>,
    mapUrl: Option<string>,
    image: Option<string>,
    alt: Option<string>,
    notes: Option<string>,
    block: Option<Block>)

  datatype Airport = Airport(
    code: Option<string>,
    name: Option<string>,
    notes: Option<string>,
    image: Option<string>,
    alt: Option<string>)

  datatype Venue = Venue(
    name: Option<string>,
    address: Option<string>,
    map_link: Option<string>,
    embed_src: Option<string>,
    parking: Option<string>,
    arrival: Option<string>,
    notes: Option<string>)

  /** The `travel` object of a content file. */
  datatype TravelInfo = TravelInfo(
    airports: Option<seq<Airport>>,
    rideshare: Option<string>,
    weather: Option<string>,
    intro: Option<string>)

  /**
   * `image ? image.replace(/^\.?\.?\/assets\/images\//, '') : image`: a present,
   * non-empty image loses a rooted legacy prefix; an absent or empty one is kept.
   */
  function StripImage(image: Option<string>): (r: Option<string>)
    ensures !Truthy(image) ==> r == image
    ensures Truthy(image) ==> r == Some(StripRooted(image.value))
  {
    if Truthy(image) then Some(StripRooted(image.value)) else image
  }

  /**
   * The prefix rule needs the slash before `assets`: `../`, `./` and `/` spellings
   * are removed, the bare `assets/images/` spelling is kept as it is.
   */
  lemma StripImageSpellings(d: nat, rest: string)
    requires d <= 2
    ensures StripImage(Some(LegacyPrefix(d, true) + rest)) == Some(rest)
    ensures StripImage(Some(AssetsImages + rest)) == Some(AssetsImages + rest)
  {
    var s := LegacyPrefix(d, true) + rest;
    StripRootedSpec(s);
    assert IsPrefix(LegacyPrefix(d, true), s);
    assert s[|LegacyPrefix(d, true)|..] == rest;
    var t := AssetsImages + rest;
    StripRootedSpec(t);
    forall d': nat | d' <= 2 ensures !IsPrefix(LegacyPrefix(d', true), t) {
      var p := LegacyPrefix(d', true);
      assert p[0] == '.' || p[0] == '/';
    }
  }

  /** A hotel with its image prefix removed and every other field kept. */
  function StripHotel(h: Hotel): (r: Hotel)
    ensures r.image == StripImage(h.image) && r.(image := h.image) == h
  {
    h.(image := StripImage(h.image))
  }

  /** An airport with its image prefix removed and every other field kept. */
  function StripAirport(a: Airport): (r: Airport)
    ensures r.image == StripImage(a.image) && r.(image := a.image) == a
  {
    a.(image := StripImage(a.image))
  }

  function StripHotels(hs: seq<Hotel>): (r: seq<Hotel>)
    ensures |r| == |hs| && forall i :: 0 <= i < |hs| ==> r[i] == StripHotel(hs[i])
  {
    seq(|hs|, i requires 0 <= i < |hs| => StripHotel(hs[i]))
  }

  function StripAirports(as_: seq<Airport>): (r: seq<Airport>)
    ensures |r| == |as_| && forall i :: 0 <= i < |as_| ==> r[i] == StripAirport(as_[i])
  {
    seq(|as_|, i requires 0 <= i < |as_| => StripAirport(as_[i]))
  }

  const ChapelName := "First Presbyterian Church — The Chapel"
  const ClubName := "The Piedmont Club"

  /**
   * A venue's place in the fixed order: the chapel, then the club, then every
   * other venue (an unnamed one included) at rank 99.
   */
  function Rank(v: Venue): (r: nat)
    ensures r == 0 <==> OrEmpty(v.name) == ChapelName
    ensures r == 1 <==> OrEmpty(v.name) == ClubName
    ensures r == 0 || r == 1 || r == 99
  {
    var name := OrEmpty(v.name);
    if name == ChapelName then 0 else if name == ClubName then 1 else 99
  }

  /*
   * The sort below is stated for any ranking `rank`; the page sorts by `Rank`.
   */

  /** Ranks ascending. */
  predicate SortedBy(rank: Venue -> nat, vs: seq<Venue>) {
    forall i, j :: 0 <= i < j < |vs| ==> rank(vs[i]) <= rank(vs[j])
  }

  /** The venues of rank `r`, in the order given. */
  function OfRank(rank: Venue -> nat, r: nat, vs: seq<Venue>): seq<Venue> {
    if |vs| == 0 then []
    else OfRank(rank, r, vs[..|vs| - 1]) + (if rank(vs[|vs| - 1]) == r then [vs[|vs| - 1]] else [])
  }

  /**
   * Inserts `v` into a rank-sorted list after every venue of rank at most its
   * own, as a stable comparison sort with comparator `rank(a) - rank(b)` does.
   */
  function Insert(rank: Venue -> nat, v: Venue, sorted: seq<Venue>): seq<Venue> {
    if |sorted| == 0 || rank(sorted[|sorted| - 1]) <= rank(v) then sorted + [v]
    else Insert(rank, v, sorted[..|sorted| - 1]) + [sorted[|sorted| - 1]]
  }

  /** A stable sort by `rank`: a sorted copy. */
  function SortBy(rank: Venue -> nat, vs: seq<Venue>): seq<Venue> {
    if |vs| == 0 then [] else Insert(rank, vs[|vs| - 1], SortBy(rank, vs[..|vs| - 1]))
  }

  /** `[...venues].sort(byRank)` */
  function SortVenues(vs: seq<Venue>): (r: seq<Venue>)
    ensures SortedBy(Rank, r) && multiset(r) == multiset(vs)
  {
    SortBySpec(Rank, vs);
    SortBy(Rank, vs)
  }

  /** Selecting by rank distributes over concatenation. */
  lemma {:induction false} OfRankAppend(rank: Venue -> nat, r: nat, a: seq<Venue>, b: seq<Venue>)
    ensures OfRank(rank, r, a + b) == OfRank(rank, r, a) + OfRank(rank, r, b)
    decreases |b|
  {
    if |b| == 0 {
      assert a + b == a;
    } else {
      assert (a + b)[..|a + b| - 1] == a + b[..|b| - 1];
      assert (a + b)[|a + b| - 1] == b[|b| - 1];
      OfRankAppend(rank, r, a, b[..|b| - 1]);
    }
  }

  /** Insertion keeps every venue and adds `v`. */
  lemma {:induction false} InsertMultiset(rank: Venue -> nat, v: Venue, sorted: seq<Venue>)
    ensures multiset(Insert(rank, v, sorted)) == multiset(sorted) + multiset{v}
  {
    if !(|sorted| == 0 || rank(sorted[|sorted| - 1]) <= rank(v)) {
      var init := sorted[..|sorted| - 1];
      InsertMultiset(rank, v, init);
      assert sorted == init + [sorted[|sorted| - 1]];
    }
  }

  /** Insertion into a sorted list keeps it sorted. */
  lemma {:induction false} InsertSorted(rank: Venue -> nat, v: Venue, sorted: seq<Venue>)
    requires SortedBy(rank, sorted)
    ensures SortedBy(rank, Insert(rank, v, sorted))
  {
    if !(|sorted| == 0 || rank(sorted[|sorted| - 1]) <= rank(v)) {
      var init := sorted[..|sorted| - 1];
      var x := sorted[|sorted| - 1];
      assert sorted == init + [x];
      assert SortedBy(rank, init) by {
        forall i, j | 0 <= i < j < |init| ensures rank(init[i]) <= rank(init[j]) {
          assert init[i] == sorted[i] && init[j] == sorted[j];
        }
      }
      InsertSorted(rank, v, init);
      InsertMultiset(rank, v, init);
      var ins := Insert(rank, v, init);
      var res := ins + [x];
      forall i, j | 0 <= i < j < |res| ensures rank(res[i]) <= rank(res[j]) {
        if j == |ins| {
          InsertBound(rank, v, init, x, i);
          assert res[i] == ins[i] && res[j] == x;
        } else {
          assert res[i] == ins[i] && res[j] == ins[j];
        }
      }
      assert Insert(rank, v, sorted) == res;
    }
  }

  /** Every element of an insertion into a sorted prefix ranks no higher than a larger last element. */
  lemma InsertBound(rank: Venue -> nat, v: Venue, init: seq<Venue>, x: Venue, i: nat)
    requires SortedBy(rank, init + [x]) && rank(v) < rank(x)
    requires multiset(Insert(rank, v, init)) == multiset(init) + multiset{v}
    requires i < |Insert(rank, v, init)|
    ensures rank(Insert(rank, v, init)[i]) <= rank(x)
  {
    var y := Insert(rank, v, init)[i];
    assert y in multiset(Insert(rank, v, init));
    assert y in multiset(init) || y == v;
    if y != v {
      var k :| 0 <= k < |init| && init[k] == y;
      assert (init + [x])[k] == y && (init + [x])[|init|] == x;
    }
  }

  /** Insertion puts `v` after the venues of its own rank. */
  lemma {:induction false} InsertOfRank(rank: Venue -> nat, v: Venue, sorted: seq<Venue>, r: nat)
    ensures OfRank(rank, r, Insert(rank, v, sorted)) == OfRank(rank, r, sorted) + OfRank(rank, r, [v])
  {
    if |sorted| == 0 || rank(sorted[|sorted| - 1]) <= rank(v) {
      OfRankAppend(rank, r, sorted, [v]);
    } else {
      var init := sorted[..|sorted| - 1];
      var x := sorted[|sorted| - 1];
      InsertOfRank(rank, v, init, r);
      OfRankAppend(rank, r, Insert(rank, v, init), [x]);
      OfRankAppend(rank, r, init, [x]);
      assert sorted == init + [x];
      assert OfRank(rank, r, [x]) == (if rank(x) == r then [x] else []);
      assert OfRank(rank, r, [v]) == (if rank(v) == r then [v] else []);
    }
  }

  /**
   * The sort is sorted by rank, a permutation of its input, and stable:
   * venues of one rank keep their relative order.
   */
  lemma {:induction false} SortBySpec(rank: Venue -> nat, vs: seq<Venue>)
    ensures SortedBy(rank, SortBy(rank, vs))
    ensures multiset(SortBy(rank, vs)) == multiset(vs)
    ensures forall r: nat :: OfRank(rank, r, SortBy(rank, vs)) == OfRank(rank, r, vs)
  {
    if |vs| > 0 {
      var init := vs[..|vs| - 1];
      var last := vs[|vs| - 1];
      SortBySpec(rank, init);
      InsertSorted(rank, last, SortBy(rank, init));
      InsertMultiset(rank, last, SortBy(rank, init));
      assert vs == init + [last];
      forall r: nat ensures OfRank(rank, r, SortBy(rank, vs)) == OfRank(rank, r, vs) {
        InsertOfRank(rank, last, SortBy(rank, init), r);
        OfRankAppend(rank, r, init, [last]);
      }
    }
  }

  /**
   * The venue order: the chapel first, then the club, then the rest, as a
   * permutation of the input that keeps venues of one rank in their order.
   */
  lemma SortVenuesSpec(vs: seq<Venue>)
    ensures SortedBy(Rank, SortVenues(vs))
    ensures multiset(SortVenues(vs)) == multiset(vs)
    ensures forall r: nat :: OfRank(Rank, r, SortVenues(vs)) == OfRank(Rank, r, vs)
  {
    SortBySpec(Rank, vs);
  }
}
