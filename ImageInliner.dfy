/**
 * Inlining the remote images of the rendered markup
 * (itinerary-builder/src/utils/pdfGenerator.ts, imageToBase64,
 * getPlaceholderImage and processImages, lines 6-85).
 *
 * The markup is scanned for `<img ... src="...">` tags; the distinct
 * sources starting with "http" are collected in the order they are first
 * seen; each is resolved to image data or to a fixed placeholder, never to
 * a failure; and every occurrence of each source is then replaced by its
 * resolution.
 */
module ImageInliner {
  import opened Wrappers

  // ---------------------------------------------------------------------------
  // Resolving one source (imageToBase64)
  // ---------------------------------------------------------------------------

  /**
   * How loading one image ends: it loads and the canvas encodes it, the
   * browser reports an error, the 10-second timer fires first, or encoding
   * the loaded image throws.
   */
  datatype LoadOutcome = Loaded(data: string) | LoadError | Timeout | ProcessingError

  /** The fixed placeholder: a grey 200x200 SVG labelled "Image", as a base64 data URL. */
  const Placeholder: string := DataScheme + "image/svg+xml;base64,PHN2ZyB3aWR0aD0iMjAwIiBoZWlnaHQ9IjIwMCIgeG1sbnM9Imh0dHA6Ly93d3cudzMub3JnLzIwMDAvc3ZnIj48cmVjdCB3aWR0aD0iMTAwJSIgaGVpZ2h0PSIxMDAlIiBmaWxsPSIjZjNmNGY2Ii8+PHRleHQgeD0iNTAlIiB5PSI1MCUiIGZvbnQtZmFtaWx5PSJBcmlhbCIgZm9udC1zaXplPSIxNCIgZmlsbD0iIzk5YTNhZiIgdGV4dC1hbmNob3I9Im1pZGRsZSIgZHk9Ii4zZW0iPkltYWdlPC90ZXh0Pjwvc3ZnPg=="

  const DataScheme: string := "data:"

  /** A self-contained `data:` URL, which needs no fetch to display. */
  predicate IsDataUrl(s: string) {
    |DataScheme| <= |s| && s[..|DataScheme|] == DataScheme
  }

  /** The resolution of one source: the encoded image when it loaded, otherwise the placeholder. */
  function Resolve(outcome: LoadOutcome): (r: string)
    ensures outcome.Loaded? ==> r == outcome.data
    ensures !outcome.Loaded? ==> r == Placeholder
  {
    match outcome
    case Loaded(data) => data
    case LoadError => Placeholder
    case Timeout => Placeholder
    case ProcessingError => Placeholder
  }

  /**
   * Resolution never fails and never yields a remote reference: as long as
   * the canvas hands back a data URL, every outcome resolves to a data URL.
   */
  lemma ResolvedIsDataUrl(outcome: LoadOutcome)
    requires outcome.Loaded? ==> IsDataUrl(outcome.data)
    ensures IsDataUrl(Resolve(outcome))
  {
    assert Placeholder[..|DataScheme|] == DataScheme;
  }

  // ---------------------------------------------------------------------------
  // Scanning the markup for image sources (the `imgRegex.exec` loop)
  // ---------------------------------------------------------------------------

  predicate StartsWithAt(s: string, i: nat, p: string) {
    i + |p| <= |s| && s[i..i + |p|] == p
  }

  predicate IsHttp(u: string) {
    StartsWithAt(u, 0, "http")
  }

  /** The first index at or after `from` that holds `c`. */
  function FindChar(s: string, c: char, from: nat): (r: Option<nat>)
    decreases |s| - from
    ensures r.Some? ==> from <= r.value < |s| && s[r.value] == c
    ensures r.Some? ==> forall k :: from <= k < r.value ==> s[k] != c
    ensures r.None? ==> forall k :: from <= k < |s| ==> s[k] != c
  {
    if from >= |s| then None
    else if s[from] == c then Some(from)
    else FindChar(s, c, from + 1)
  }

  /** The first index k with from <= k and k + 5 <= limit where `src="` starts. */
  function FindSrcAttr(s: string, from: nat, limit: nat): (r: Option<nat>)
    requires limit <= |s|
    decreases limit - from
    ensures r.Some? ==> from <= r.value && r.value + 5 <= limit && StartsWithAt(s, r.value, "src=\"")
    ensures r.Some? ==> forall k :: from <= k < r.value ==> !StartsWithAt(s, k, "src=\"")
    ensures r.None? ==> forall k :: from <= k && k + 5 <= limit ==> !StartsWithAt(s, k, "src=\"")
  {
    if from + 5 > limit then None
    else if StartsWithAt(s, from, "src=\"") then Some(from)
    else FindSrcAttr(s, from + 1, limit)
  }

  /**
   * One image tag: its source is `s[valueStart..valueEnd]`, and the scan
   * resumes at `end`, just after the tag's closing `>`.
   */
  datatype ImgMatch = ImgMatch(valueStart: nat, valueEnd: nat, end: nat)

  /**
   * The image tag that starts at index i, if any: `<img`, at least one
   * character that is not `>`, `src="`, a non-empty value up to the next
   * quote, and a `>` somewhere after it. The tag's first `src="` is taken.
   */
  function MatchAt(s: string, i: nat): (r: Option<ImgMatch>)
    ensures r.Some? ==> i < r.value.valueStart < r.value.valueEnd < r.value.end <= |s|
  {
    if !StartsWithAt(s, i, "<img") then None
    else match FindChar(s, '>', i + 4)
      case None => None
      case Some(close) =>
        match FindSrcAttr(s, i + 5, close)
        case None => None
        case Some(k) =>
          match FindChar(s, '"', k + 5)
          case None => None
          case Some(q) =>
            if q == k + 5 then None
            else match FindChar(s, '>', q + 1)
              case None => None
              case Some(gt) => Some(ImgMatch(k + 5, q, gt + 1))
  }

  /** The leftmost image tag at or after `from` (one `exec` of the global regular expression). */
  function NextMatch(s: string, from: nat): (r: Option<ImgMatch>)
    decreases |s| - from
    ensures r.Some? ==> from < r.value.valueStart < r.value.valueEnd < r.value.end <= |s|
  {
    if from >= |s| then None
    else match MatchAt(s, from)
      case Some(m) => Some(m)
      case None => NextMatch(s, from + 1)
  }

  /** Every image source from `from` on, in document order, repetitions included. */
  function Sources(s: string, from: nat): seq<string>
    decreases |s| - from
  {
    match NextMatch(s, from)
    case None => []
    case Some(m) => [s[m.valueStart..m.valueEnd]] + Sources(s, m.end)
  }

  /** Every collected source is a non-empty part of the markup, and at most one source starts at each position. */
  lemma {:induction false} SourcesNonEmpty(s: string, from: nat)
    decreases |s| - from
    ensures forall u :: u in Sources(s, from) ==> 0 < |u| < |s|
    ensures from <= |s| ==> |Sources(s, from)| <= |s| - from
  {
    match NextMatch(s, from)
    case None =>
    case Some(m) =>
      SourcesNonEmpty(s, m.end);
      assert Sources(s, from) == [s[m.valueStart..m.valueEnd]] + Sources(s, m.end);
  }

  /**
   * The reference definition of the collected list: the sources that start
   * with "http", each kept only at its first occurrence.
   */
  function FirstHttpOccurrences(srcs: seq<string>): seq<string>
  {
    if srcs == [] then []
    else
      var init, last := srcs[..|srcs| - 1], srcs[|srcs| - 1];
      FirstHttpOccurrences(init) + (if IsHttp(last) && last !in init then [last] else [])
  }

  lemma FirstHttpOccurrencesSnoc(srcs: seq<string>, x: string)
    ensures FirstHttpOccurrences(srcs + [x])
            == FirstHttpOccurrences(srcs) + (if IsHttp(x) && x !in srcs then [x] else [])
  {
    assert (srcs + [x])[..|srcs|] == srcs;
  }

  /** One `exec` step: a found tag contributes its source and scanning resumes after it; no tag ends the list. */
  lemma SourcesStep(s: string, from: nat)
    ensures NextMatch(s, from).None? ==> Sources(s, from) == []
    ensures NextMatch(s, from).Some? ==>
              var m := NextMatch(s, from).value;
              Sources(s, from) == [s[m.valueStart..m.valueEnd]] + Sources(s, m.end)
  {
  }

  /** The URLs processImages collects from the markup. */
  function ImageUrls(content: string): (r: seq<string>)
  {
    FirstHttpOccurrencesMembers(Sources(content, 0));
    FirstHttpOccurrencesDistinct(Sources(content, 0));
    FirstHttpOccurrences(Sources(content, 0))
  }

  lemma {:induction false} FirstHttpOccurrencesMembers(srcs: seq<string>)
    ensures forall u :: u in FirstHttpOccurrences(srcs) <==> u in srcs && IsHttp(u)
  {
    if srcs != [] {
      FirstHttpOccurrencesMembers(srcs[..|srcs| - 1]);
      assert srcs == srcs[..|srcs| - 1] + [srcs[|srcs| - 1]];
    }
  }

  lemma FirstHttpOccurrencesMember(srcs: seq<string>, u: string)
    ensures u in FirstHttpOccurrences(srcs) <==> u in srcs && IsHttp(u)
  {
    FirstHttpOccurrencesMembers(srcs);
  }

  lemma {:induction false} FirstHttpOccurrencesDistinct(srcs: seq<string>)
    ensures forall i, j :: 0 <= i < j < |FirstHttpOccurrences(srcs)| ==>
              FirstHttpOccurrences(srcs)[i] != FirstHttpOccurrences(srcs)[j]
  {
    if srcs != [] {
      var init := srcs[..|srcs| - 1];
      FirstHttpOccurrencesDistinct(init);
      FirstHttpOccurrencesMembers(init);
    }
  }

  /** The index of the first occurrence of u in srcs. */
  function FirstIndex(srcs: seq<string>, u: string): (k: nat)
    requires u in srcs
    ensures k < |srcs| && srcs[k] == u && u !in srcs[..k]
  {
    if srcs[0] == u then 0
    else
      var k := FirstIndex(srcs[1..], u) + 1;
      assert srcs[..k] == [srcs[0]] + srcs[1..][..k - 1];
      k
  }

  lemma FirstIndexOfPrefix(srcs: seq<string>, n: nat, u: string)
    requires n <= |srcs| && u in srcs[..n]
    ensures FirstIndex(srcs, u) == FirstIndex(srcs[..n], u)
  {
    var k := FirstIndex(srcs[..n], u);
    var k' := FirstIndex(srcs, u);
    assert srcs[..n][..k] == srcs[..k];
  }

  /** The collected list keeps the order in which the sources were first seen. */
  lemma {:induction false} FirstHttpOccurrencesOrder(srcs: seq<string>)
    ensures forall u :: u in FirstHttpOccurrences(srcs) ==> u in srcs
    ensures forall i, j :: 0 <= i < j < |FirstHttpOccurrences(srcs)| ==>
              FirstIndex(srcs, FirstHttpOccurrences(srcs)[i]) < FirstIndex(srcs, FirstHttpOccurrences(srcs)[j])
  {
    FirstHttpOccurrencesMembers(srcs);
    if srcs != [] {
      var n := |srcs| - 1;
      var init, last := srcs[..n], srcs[n];
      var d := FirstHttpOccurrences(init);
      FirstHttpOccurrencesOrder(init);
      FirstHttpOccurrencesMembers(init);
      assert init == srcs[..n];
      forall u | u in d ensures FirstIndex(srcs, u) == FirstIndex(init, u) {
        FirstIndexOfPrefix(srcs, n, u);
      }
      if IsHttp(last) && last !in init {
        assert FirstIndex(srcs, last) == n;
      }
    }
  }

  // ---------------------------------------------------------------------------
  // Replacing every occurrence of a source (`String.prototype.replace` with a global pattern)
  // ---------------------------------------------------------------------------

  /** Does `pat` occur in s? */
  predicate Occurs(pat: string, s: string) {
    exists k :: 0 <= k <= |s| && StartsWithAt(s, k, pat)
  }

  /**
   * Replace every occurrence of `pat`, scanning left to right without
   * overlaps.
   */
  function ReplaceAll(s: string, pat: string, rep: string): string
    requires |pat| > 0
    decreases |s|
  {
    if |s| < |pat| then s
    else if s[..|pat|] == pat then rep + ReplaceAll(s[|pat|..], pat, rep)
    else [s[0]] + ReplaceAll(s[1..], pat, rep)
  }

  /**
   * A replacement at least as long as the pattern never shortens the
   * string, and one of the same length keeps its length.
   */
  lemma {:induction false} ReplaceAllLength(s: string, pat: string, rep: string)
    requires |pat| > 0
    ensures |rep| >= |pat| ==> |ReplaceAll(s, pat, rep)| >= |s|
    ensures |rep| == |pat| ==> |ReplaceAll(s, pat, rep)| == |s|
  {
    if |s| >= |pat| {
      if s[..|pat|] == pat {
        ReplaceAllLength(s[|pat|..], pat, rep);
      } else {
        ReplaceAllLength(s[1..], pat, rep);
      }
    }
  }

  /** A string in which the pattern does not occur is left as it is. */
  lemma {:induction false} ReplaceAllAbsent(s: string, pat: string, rep: string)
    requires |pat| > 0 && !Occurs(pat, s)
    ensures ReplaceAll(s, pat, rep) == s
  {
    if |s| >= |pat| {
      assert !StartsWithAt(s, 0, pat);
      assert s[..|pat|] != pat;
      forall k | 0 <= k && StartsWithAt(s[1..], k, pat) ensures false {
        assert s[k + 1..k + 1 + |pat|] == s[1..][k..k + |pat|];
        assert StartsWithAt(s, k + 1, pat);
      }
      ReplaceAllAbsent(s[1..], pat, rep);
      assert s == [s[0]] + s[1..];
    }
  }

  /** Replacing a pattern by itself changes nothing. */
  lemma {:induction false} ReplaceAllByItself(s: string, pat: string)
    requires |pat| > 0
    ensures ReplaceAll(s, pat, pat) == s
  {
    if |s| >= |pat| {
      if s[..|pat|] == pat {
        ReplaceAllByItself(s[|pat|..], pat);
        assert s == s[..|pat|] + s[|pat|..];
      } else {
        ReplaceAllByItself(s[1..], pat);
        assert s == [s[0]] + s[1..];
      }
    }
  }


  /** The markup after each URL, in turn, has been replaced by its resolution. */
  function ReplaceEach(content: string, urls: seq<string>, load: string -> LoadOutcome): string
    requires forall u :: u in urls ==> |u| > 0
    decreases |urls|
  {
    if urls == [] then content
    else ReplaceEach(ReplaceAll(content, urls[0], Resolve(load(urls[0]))), urls[1..], load)
  }

  lemma ReplaceEachStep(content: string, urls: seq<string>, load: string -> LoadOutcome)
    requires urls != [] && forall u :: u in urls ==> |u| > 0
    ensures ReplaceEach(content, urls, load)
            == ReplaceEach(ReplaceAll(content, urls[0], Resolve(load(urls[0]))), urls[1..], load)
  {
  }

  /** What the collected list promises about the sources in the markup. */
  lemma CollectedUrls(content: string)
    ensures forall u :: u in ImageUrls(content) ==> IsHttp(u)
    ensures forall u :: u in ImageUrls(content) <==> u in Sources(content, 0) && IsHttp(u)
    ensures forall i, j :: 0 <= i < j < |ImageUrls(content)| ==> ImageUrls(content)[i] != ImageUrls(content)[j]
    ensures forall i, j :: 0 <= i < j < |ImageUrls(content)| ==>
              FirstIndex(Sources(content, 0), ImageUrls(content)[i]) < FirstIndex(Sources(content, 0), ImageUrls(content)[j])
  {
    FirstHttpOccurrencesMembers(Sources(content, 0));
    FirstHttpOccurrencesDistinct(Sources(content, 0));
    FirstHttpOccurrencesOrder(Sources(content, 0));
  }

  /** What one turn of the scanning loop preserves. */
  lemma CollectStep(content: string, from: nat, seen: seq<string>, urls: seq<string>)
    requires NextMatch(content, from).Some?
    requires Sources(content, 0) == seen + Sources(content, from)
    requires urls == FirstHttpOccurrences(seen)
    ensures var m := NextMatch(content, from).value;
            var src := content[m.valueStart..m.valueEnd];
            && Sources(content, 0) == (seen + [src]) + Sources(content, m.end)
            && FirstHttpOccurrences(seen + [src]) == if IsHttp(src) && src !in urls then urls + [src] else urls
  {
    var m := NextMatch(content, from).value;
    var src := content[m.valueStart..m.valueEnd];
    SourcesStep(content, from);
    AppendAssoc(seen, [src], Sources(content, m.end));
    DedupStep(seen, src);
  }

  lemma AppendAssoc<T>(a: seq<T>, b: seq<T>, c: seq<T>)
    ensures (a + b) + c == a + (b + c)
  {
  }

  lemma DedupStep(seen: seq<string>, src: string)
    ensures FirstHttpOccurrences(seen + [src])
            == if IsHttp(src) && src !in FirstHttpOccurrences(seen) then FirstHttpOccurrences(seen) + [src]
               else FirstHttpOccurrences(seen)
  {
    FirstHttpOccurrencesMember(seen, src);
    FirstHttpOccurrencesSnoc(seen, src);
  }

  /** The scanning loop of processImages: `exec` the tag pattern until it finds no more tags. */
  method CollectImageUrls(content: string) returns (imageUrls: seq<string>)
    ensures imageUrls == ImageUrls(content)
  {
    imageUrls := [];
    ghost var seen: seq<string> := [];
    var lastIndex := 0;
    var found := NextMatch(content, lastIndex);
    while found.Some?
      invariant lastIndex <= |content|
      invariant found == NextMatch(content, lastIndex)
      invariant Sources(content, 0) == seen + Sources(content, lastIndex)
      invariant imageUrls == FirstHttpOccurrences(seen)
      decreases |content| - lastIndex
    {
      var originalSrc := content[found.value.valueStart..found.value.valueEnd];
      CollectStep(content, lastIndex, seen, imageUrls);
      if IsHttp(originalSrc) && originalSrc !in imageUrls {
        imageUrls := imageUrls + [originalSrc];
      }
      seen := seen + [originalSrc];
      lastIndex := found.value.end;
      found := NextMatch(content, lastIndex);
    }
    SourcesStep(content, lastIndex);
    assert seen + [] == seen;
  }

  /**
   * processImages: collect the distinct http sources, resolve each one
   * (the loads run concurrently in the source and all of them settle as
   * fulfilled), then replace every occurrence of each source by its
   * resolution, in the order the sources were collected. `isPattern(u)`
   * says whether `new RegExp(u, 'g')` accepts u; at the first collected URL
   * it rejects, the constructor throws and the whole call rejects (None).
   */
  method ProcessImages(content: string, load: string -> LoadOutcome, isPattern: string -> bool)
    returns (processed: Option<string>)
    ensures forall u :: u in ImageUrls(content) ==> |u| > 0
    ensures processed.None? <==> exists u :: u in ImageUrls(content) && !isPattern(u)
    ensures processed.Some? ==> processed.value == ReplaceEach(content, ImageUrls(content), load)
    ensures ImageUrls(content) == [] ==> processed == Some(content)
  {
    var imageUrls := CollectImageUrls(content);
    CollectedUrls(content);
    assert forall u :: u in imageUrls ==> |u| > 0;

    // Resolve every URL; none of them fails.
    var resolved := seq(|imageUrls|, k requires 0 <= k < |imageUrls| => Resolve(load(imageUrls[k])));

    // Substitute the collected URLs one after another.
    var current := content;
    var i := 0;
    while i < |imageUrls|
      invariant i <= |imageUrls|
      invariant forall u :: u in imageUrls[i..] ==> |u| > 0
      invariant forall k :: 0 <= k < i ==> isPattern(imageUrls[k])
      invariant ReplaceEach(content, imageUrls, load) == ReplaceEach(current, imageUrls[i..], load)
    {
      if !isPattern(imageUrls[i]) {
        return None;
      }
      ReplaceEachStep(current, imageUrls[i..], load);
      assert imageUrls[i..][0] == imageUrls[i] && imageUrls[i..][1..] == imageUrls[i + 1..];
      current := ReplaceAll(current, imageUrls[i], resolved[i]);
      i := i + 1;
    }
    assert forall u :: u in imageUrls ==> isPattern(u) by {
      forall u | u in imageUrls ensures isPattern(u) {
        var k :| 0 <= k < |imageUrls| && imageUrls[k] == u;
      }
    }
    processed := Some(current);
  }

}
