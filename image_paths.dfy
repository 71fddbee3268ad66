/**
 * The legacy image paths of the site's content files (`../assets/images/x.jpg`)
 * and the filename classes that decide which `/public/images` sub-folder a file
 * belongs to. Each prefix rule is written as the regular expression matcher
 * proceeds and is proved equal to the list of literal prefixes the expression
 * denotes.
 */
module ImagePaths {
  import opened Text

  const AssetsImages: string := "assets/images/"

  /** The number of leading dots of `s`, at most two (`\.{0,2}` or `\.?\.?`). */
  function LeadingDots(s: string): (d: nat)
    ensures d <= 2 && d <= |s|
    ensures forall k :: 0 <= k < d ==> s[k] == '.'
    ensures d < 2 && d < |s| ==> s[d] != '.'
  {
    if |s| > 0 && s[0] == '.' then
      if |s| > 1 && s[1] == '.' then 2 else 1
    else 0
  }

  /** One of the literal prefixes the two legacy expressions denote. */
  function LegacyPrefix(dots: nat, slash: bool): string
    requires dots <= 2
  {
    seq(dots, _ => '.') + (if slash then "/" else "") + AssetsImages
  }

  /**
   * `s.replace(/^\.{0,2}\/?assets\/images\//, '')`: up to two dots, an optional
   * slash, then `assets/images/` are removed from the front when all are there.
   */
  function StripLegacy(s: string): string {
    var rest := s[LeadingDots(s)..];
    var rest' := if |rest| > 0 && rest[0] == '/' then rest[1..] else rest;
    if IsPrefix(AssetsImages, rest') then rest'[|AssetsImages|..] else s
  }

  /**
   * `s.replace(/^\.?\.?\/assets\/images\//, '')`: as `StripLegacy`, but the slash
   * before `assets` is required.
   */
  function StripRooted(s: string): string {
    var rest := s[LeadingDots(s)..];
    if IsPrefix("/" + AssetsImages, rest) then rest[|AssetsImages| + 1..] else s
  }

  /** `s.replace(/^assets\/images\//, '')` */
  function StripBare(s: string): string {
    if IsPrefix(AssetsImages, s) then s[|AssetsImages|..] else s
  }

  /** A matching literal prefix is fixed by the input: its dots and its slash. */
  lemma PrefixDetermined(d: nat, b: bool, s: string)
    requires d <= 2 && IsPrefix(LegacyPrefix(d, b), s)
    ensures d < |s| && LeadingDots(s) == d && b == (s[d] == '/')
  {
    var p := LegacyPrefix(d, b);
    assert forall k :: 0 <= k < |p| ==> s[k] == p[k];
    assert s[d] == p[d];
  }

  /**
   * `StripLegacy` removes exactly the one literal prefix (no, one or two dots, an
   * optional `/`, then `assets/images/`) that the input begins with, and returns
   * any other input unchanged.
   */
  lemma {:induction false} StripLegacySpec(s: string)
    ensures forall d: nat, b: bool | d <= 2 && IsPrefix(LegacyPrefix(d, b), s) ::
      StripLegacy(s) == s[|LegacyPrefix(d, b)|..]
    ensures (forall d: nat, b: bool | d <= 2 :: !IsPrefix(LegacyPrefix(d, b), s)) ==>
      StripLegacy(s) == s
  {
    var d := LeadingDots(s);
    var rest := s[d..];
    var slash := |rest| > 0 && rest[0] == '/';
    var rest' := if slash then rest[1..] else rest;
    var p := LegacyPrefix(d, slash);
    if IsPrefix(AssetsImages, rest') {
      assert s[..d] == seq(d, _ => '.');
      assert s[..|p|] == s[..d] + (if slash then "/" else "") + rest'[..|AssetsImages|];
      assert IsPrefix(p, s);
    }
    forall d': nat, b': bool | d' <= 2 && IsPrefix(LegacyPrefix(d', b'), s)
      ensures StripLegacy(s) == s[|LegacyPrefix(d', b')|..]
    {
      PrefixDetermined(d', b', s);
      assert LegacyPrefix(d', b') == p;
      var off := |p| - |AssetsImages|;
      assert rest' == s[off..];
      assert rest'[..|AssetsImages|] == s[..|p|][off..];
      assert p[off..] == AssetsImages;
    }
  }

  /**
   * `StripRooted` removes exactly `../`, `./` or `/` followed by `assets/images/`
   * from the front; an input without such a prefix, `assets/images/x` among them,
   * is returned unchanged.
   */
  lemma {:induction false} StripRootedSpec(s: string)
    ensures forall d: nat | d <= 2 && IsPrefix(LegacyPrefix(d, true), s) ::
      StripRooted(s) == s[|LegacyPrefix(d, true)|..]
    ensures (forall d: nat | d <= 2 :: !IsPrefix(LegacyPrefix(d, true), s)) ==>
      StripRooted(s) == s
  {
    var d := LeadingDots(s);
    var rest := s[d..];
    var p := LegacyPrefix(d, true);
    if IsPrefix("/" + AssetsImages, rest) {
      assert s[..d] == seq(d, _ => '.');
      assert s[..|p|] == s[..d] + rest[..|AssetsImages| + 1];
      assert IsPrefix(p, s);
    }
    forall d': nat | d' <= 2 && IsPrefix(LegacyPrefix(d', true), s)
      ensures StripRooted(s) == s[|LegacyPrefix(d', true)|..]
    {
      PrefixDetermined(d', true, s);
      var p' := LegacyPrefix(d', true);
      assert rest[..|AssetsImages| + 1] == s[..|p'|][d'..];
    }
  }

  /** A path with no legacy prefix: it starts with neither a dot, a slash nor `a`. */
  lemma StripLegacyKeeps(s: string)
    requires |s| > 0 && s[0] != '.' && s[0] != '/' && s[0] != 'a'
    ensures StripLegacy(s) == s
  {
    StripLegacySpec(s);
    forall d: nat, b: bool | d <= 2 ensures !IsPrefix(LegacyPrefix(d, b), s) {
      var p := LegacyPrefix(d, b);
      assert p[0] == '.' || p[0] == '/' || p[0] == 'a';
    }
  }

  /** An image file extension, matched case-insensitively: `jpe?g|png|webp|avif`. */
  predicate IsImageExt(e: string) {
    Lower(e) in {"jpg", "jpeg", "png", "webp", "avif"}
  }

  /** Words that contain neither a dot nor a dash: the stems the patterns name. */
  predicate PlainWords(words: set<string>) {
    forall w :: w in words ==> '.' !in w && '-' !in w
  }

  /**
   * `^(w1|w2|…)\.(jpe?g|png|webp|avif)$` with the `i` flag: one of `words`, a dot
   * and an image extension.
   */
  predicate NamedImage(s: string, words: set<string>) {
    var k := IndexOf(s, '.');
    k < |s| && Lower(s[..k]) in words && IsImageExt(s[k + 1..])
  }

  /**
   * `^(w1|w2|…)-\d+\.(jpe?g|png|webp|avif)$` with the `i` flag: one of `words`, a
   * dash, one or more digits, a dot and an image extension.
   */
  predicate NumberedImage(s: string, words: set<string>) {
    var k := IndexOf(s, '.');
    var j := IndexOf(s, '-');
    j + 1 < k < |s| && Lower(s[..j]) in words && AllDigits(s[j + 1..k])
      && IsImageExt(s[k + 1..])
  }

  /** The same patterns stated as "there is a way to split the name". */
  ghost predicate NamedImageSplit(s: string, words: set<string>) {
    exists k :: 0 <= k < |s| && s[k] == '.' && Lower(s[..k]) in words && IsImageExt(s[k + 1..])
  }

  ghost predicate NumberedImageSplit(s: string, words: set<string>) {
    exists j, k :: 0 <= j && j + 1 < k < |s| && s[j] == '-' && s[k] == '.'
      && Lower(s[..j]) in words && AllDigits(s[j + 1..k]) && IsImageExt(s[k + 1..])
  }

  lemma LowerKeeps(s: string, c: char)
    requires c == '.' || c == '-'
    ensures c in s <==> c in Lower(s)
  {
    if c in s {
      var k :| 0 <= k < |s| && s[k] == c;
      assert Lower(s)[k] == c;
    }
    if c in Lower(s) {
      var k :| 0 <= k < |s| && Lower(s)[k] == c;
      assert s[k] == c;
    }
  }

  /** The first-dot test is exactly the regular expression's match. */
  lemma NamedImageIff(s: string, words: set<string>)
    requires PlainWords(words)
    ensures NamedImage(s, words) <==> NamedImageSplit(s, words)
  {
    if NamedImage(s, words) {
      NamedGivesSplit(s, words);
    }
    if NamedImageSplit(s, words) {
      var k :| 0 <= k < |s| && s[k] == '.' && Lower(s[..k]) in words && IsImageExt(s[k + 1..]);
      NamedSplitAt(s, words, k);
    }
  }

  /** The first dot of a matching name is a split point. */
  lemma NamedGivesSplit(s: string, words: set<string>)
    requires NamedImage(s, words)
    ensures NamedImageSplit(s, words)
  {
    var k := IndexOf(s, '.');
    assert 0 <= k < |s| && s[k] == '.' && Lower(s[..k]) in words && IsImageExt(s[k + 1..]);
  }

  /** A split at a dot after one of the words is the split at the first dot. */
  lemma NamedSplitAt(s: string, words: set<string>, k: nat)
    requires PlainWords(words)
    requires k < |s| && s[k] == '.' && Lower(s[..k]) in words && IsImageExt(s[k + 1..])
    ensures IndexOf(s, '.') == k && NamedImage(s, words)
  {
    AbsentBefore(s, k, '.', words);
    FirstIndexAt(s, '.', k);
  }

  /** The first occurrence of `c` is at `m` when `c` is at `m` and nowhere before. */
  lemma FirstIndexAt(s: string, c: char, m: nat)
    requires m < |s| && s[m] == c
    requires forall i :: 0 <= i < m ==> s[i] != c
    ensures IndexOf(s, c) == m
  {
  }

  /** A character that case folding leaves alone is absent from a stem's input. */
  lemma AbsentBefore(s: string, m: nat, c: char, words: set<string>)
    requires m <= |s| && PlainWords(words) && Lower(s[..m]) in words
    requires c == '.' || c == '-'
    ensures forall i :: 0 <= i < m ==> s[i] != c
  {
    LowerKeeps(s[..m], c);
    assert forall i :: 0 <= i < m ==> s[..m][i] == s[i];
  }

  lemma NumberedImageIff(s: string, words: set<string>)
    requires PlainWords(words)
    ensures NumberedImage(s, words) <==> NumberedImageSplit(s, words)
  {
    if NumberedImage(s, words) {
      var k := IndexOf(s, '.');
      var j := IndexOf(s, '-');
      assert s[j] == '-' && s[k] == '.';
    }
    forall j, k | 0 <= j && j + 1 < k < |s| && s[j] == '-' && s[k] == '.'
      && Lower(s[..j]) in words && AllDigits(s[j + 1..k]) && IsImageExt(s[k + 1..])
      ensures NumberedImage(s, words)
    {
      NumberedSplitAt(s, words, j, k);
    }
  }

  lemma NumberedSplitAt(s: string, words: set<string>, j: nat, k: nat)
    requires PlainWords(words)
    requires j + 1 < k < |s| && s[j] == '-' && s[k] == '.'
    requires Lower(s[..j]) in words && AllDigits(s[j + 1..k])
    ensures IndexOf(s, '-') == j && IndexOf(s, '.') == k
  {
    AbsentBefore(s, j, '-', words);
    AbsentBefore(s, j, '.', words);
    FirstIndexAt(s, '-', j);
    forall i | j < i < k ensures s[i] != '.' {
      assert s[j + 1..k][i - j - 1] == s[i];
      assert IsDigit(s[i]);
    }
    FirstIndexAt(s, '.', k);
  }
}
