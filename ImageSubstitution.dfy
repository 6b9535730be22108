/**
 * Where processImages goes wrong when one image URL extends another, and the
 * positional replacement the export uses instead.
 *
 * processImages replaces every occurrence of each collected URL across the
 * whole markup, one URL after the other. When a collected URL is a proper
 * prefix of a later one, replacing the shorter URL also rewrites the front
 * of the longer one, which is then never found: that image's source
 * becomes the first image's data followed by the rest of its own URL. The
 * corrected inliner writes each tag's own resolution in place of that tag's
 * source and keeps every other character.
 */
module ImageSubstitution {
  import opened Wrappers
  import opened ImageInliner

  // ---------------------------------------------------------------------------
  // The scanner on tags written as `<img src="u">`
  // ---------------------------------------------------------------------------

  const Open: string := "<img src=\""
  const Close: string := "\">"

  function Tag(u: string): (t: string)
    ensures |t| == |u| + 12
  {
    Open + u + Close
  }

  predicate PlainUrl(u: string) {
    |u| > 0 && forall k :: 0 <= k < |u| ==> u[k] != '"' && u[k] != '>'
  }

  /** The first c at or after `from` is at p. */
  lemma FindCharIs(s: string, c: char, from: nat, p: nat)
    requires from <= p < |s| && s[p] == c
    requires forall k :: from <= k < p ==> s[k] != c
    ensures FindChar(s, c, from) == Some(p)
  {
  }

  /** The scanner reads `<img src="` + n plain characters + `">` at index i as one tag. */
  lemma MatchAtChars(s: string, i: nat, n: nat)
    requires 0 < n && i + 12 + n <= |s|
    requires s[i] == '<' && s[i + 1] == 'i' && s[i + 2] == 'm' && s[i + 3] == 'g' && s[i + 4] == ' '
    requires s[i + 5] == 's' && s[i + 6] == 'r' && s[i + 7] == 'c' && s[i + 8] == '=' && s[i + 9] == '"'
    requires forall k :: i + 10 <= k < i + 10 + n ==> s[k] != '"' && s[k] != '>'
    requires s[i + 10 + n] == '"' && s[i + 11 + n] == '>'
    ensures MatchAt(s, i) == Some(ImgMatch(i + 10, i + 10 + n, i + 12 + n))
  {
    assert s[i..i + 4] == "<img";
    assert s[i + 5..i + 10] == "src=\"";
    FindCharIs(s, '>', i + 4, i + 11 + n);
    FindCharIs(s, '"', i + 10, i + 10 + n);
    FindCharIs(s, '>', i + 11 + n, i + 11 + n);
  }

  /** The characters of a tag found at index i. */
  lemma TagChars(s: string, i: nat, u: string)
    requires StartsWithAt(s, i, Tag(u))
    ensures i + 12 + |u| <= |s|
    ensures s[i] == '<' && s[i + 1] == 'i' && s[i + 2] == 'm' && s[i + 3] == 'g' && s[i + 4] == ' '
    ensures s[i + 5] == 's' && s[i + 6] == 'r' && s[i + 7] == 'c' && s[i + 8] == '=' && s[i + 9] == '"'
    ensures forall k :: 0 <= k < |u| ==> s[i + 10 + k] == u[k]
    ensures s[i + 10 + |u|] == '"' && s[i + 11 + |u|] == '>'
    ensures s[i + 10..i + 10 + |u|] == u
  {
    var t := Tag(u);
    assert s[i..i + |t|] == t;
    forall k | 0 <= k < |t| ensures s[i + k] == t[k] {
      assert s[i..i + |t|][k] == s[i + k];
    }
    assert forall k :: 0 <= k < 10 ==> t[k] == Open[k];
    assert forall k :: 0 <= k < |u| ==> t[10 + k] == u[k];
    assert t[10 + |u|] == '"' && t[11 + |u|] == '>';
  }

  /** A tag of a plain source at index i is matched whole, and its source read back. */
  lemma MatchAtTag(s: string, i: nat, u: string)
    requires PlainUrl(u) && StartsWithAt(s, i, Tag(u))
    ensures MatchAt(s, i) == Some(ImgMatch(i + 10, i + 10 + |u|, i + 12 + |u|))
    ensures s[i + 10..i + 10 + |u|] == u
  {
    TagChars(s, i, u);
    MatchAtChars(s, i, |u|);
  }

  /** A tag at the scan position is the next match. */
  lemma NextMatchAtTag(s: string, i: nat, u: string)
    requires PlainUrl(u) && StartsWithAt(s, i, Tag(u))
    ensures NextMatch(s, i) == Some(ImgMatch(i + 10, i + 10 + |u|, i + 12 + |u|))
    ensures s[i + 10..i + 10 + |u|] == u
  {
    MatchAtTag(s, i, u);
  }

  /** A match at the scan position contributes its source, and the scan resumes after it. */
  lemma SourcesAtMatch(s: string, i: nat, m: ImgMatch, u: string)
    requires NextMatch(s, i) == Some(m) && m.valueStart <= m.valueEnd <= |s| && s[m.valueStart..m.valueEnd] == u
    ensures Sources(s, i) == [u] + Sources(s, m.end)
  {
    SourcesStep(s, i);
  }

  /** Markup of two plain tags has exactly their two sources. */
  lemma TwoTagSources(u1: string, u2: string)
    requires PlainUrl(u1) && PlainUrl(u2)
    ensures Sources(Tag(u1) + Tag(u2), 0) == [u1, u2]
  {
    TwoTags(u1, u2);
    SourcesOfTags([], [u1, u2]);
    assert [] + Tags([u1, u2]) == Tags([u1, u2]);
  }

  /** Markup after `pre` made of plain tags has exactly their sources, in order. */
  lemma {:induction false} SourcesOfTags(pre: string, us: seq<string>)
    requires forall k :: 0 <= k < |us| ==> PlainUrl(us[k])
    ensures Sources(pre + Tags(us), |pre|) == us
    decreases |us|
  {
    var s := pre + Tags(us);
    if us == [] {
      assert s == pre;
      assert NextMatch(s, |pre|) == None;
    } else {
      var u, rest := us[0], us[1..];
      var t := Tag(u);
      var s' := pre + t;
      assert Tags(us) == t + Tags(rest);
      assert s == pre + t + Tags(rest) == s' + Tags(rest);
      StartsWithAtMiddle(pre, t, Tags(rest));
      NextMatchAtTag(s, |pre|, u);
      SourcesAtMatch(s, |pre|, ImgMatch(|pre| + 10, |pre| + 10 + |u|, |s'|), u);
      SourcesOfTags(s', rest);
      assert Sources(s, |s'|) == rest;
      assert us == [u] + rest;
    }
  }

  lemma StartsWithAtMiddle(a: string, b: string, c: string)
    ensures StartsWithAt(a + b + c, |a|, b)
  {
    assert (a + b + c)[|a|..|a| + |b|] == b;
  }

  // ---------------------------------------------------------------------------
  // The literal replace-all on such markup
  // ---------------------------------------------------------------------------

  /** No character of t is c. */
  predicate NoneIs(t: string, c: char) {
    forall k :: 0 <= k < |t| ==> t[k] != c
  }

  /** Text in which the pattern's first character never appears passes through unchanged. */
  lemma {:induction false} ReplaceAllSkip(t: string, y: string, pat: string, rep: string)
    requires |pat| > 0 && NoneIs(t, pat[0])
    ensures ReplaceAll(t + y, pat, rep) == t + ReplaceAll(y, pat, rep)
    decreases |t|
  {
    if t == [] {
      assert t + y == y;
    } else {
      var s := t + y;
      if |s| < |pat| {
        assert |y| < |pat|;
      } else {
        assert s[..|pat|][0] == t[0];
        assert s[1..] == t[1..] + y;
        ReplaceAllSkip(t[1..], y, pat, rep);
        assert t == [t[0]] + t[1..];
      }
    }
  }

  /** An occurrence at the front is replaced, and scanning resumes after it. */
  lemma ReplaceAllHit(pat: string, y: string, rep: string)
    requires |pat| > 0
    ensures ReplaceAll(pat + y, pat, rep) == rep + ReplaceAll(y, pat, rep)
  {
    assert (pat + y)[..|pat|] == pat;
    assert (pat + y)[|pat|..] == y;
  }

  /** The fixed parts of a tag hold no `h`, the first letter of every http URL. */
  lemma MarkupHasNoH(x: string)
    requires NoneIs(x, 'h')
    ensures NoneIs(Open, 'h') && NoneIs(Close + Open, 'h') && NoneIs(x + Close, 'h')
  {
  }

  /** Two tags, the second source extending the first, cut at the two copies of u. */
  lemma TwoTagsSplit(u: string, x: string)
    ensures Tag(u) + Tag(u + x) == Open + (u + ((Close + Open) + (u + (x + Close))))
  {
  }

  /** Replacing u also rewrites the front of the second tag's source u + x. */
  lemma PrefixRewritten(u: string, x: string, d: string)
    requires |u| > 0 && u[0] == 'h' && NoneIs(x, 'h')
    ensures ReplaceAll(Tag(u) + Tag(u + x), u, d) == Tag(d) + Tag(d + x)
  {
    var mid, rest := Close + Open, x + Close;
    MarkupHasNoH(x);
    TwoTagsSplit(u, x);
    TwoTagsSplit(d, x);
    var r4 := ReplaceAll(rest, u, d);
    ReplaceAllSkip(rest, [], u, d);
    assert rest + [] == rest;
    var r3 := ReplaceAll(u + rest, u, d);
    ReplaceAllHit(u, rest, d);
    assert r3 == d + rest;
    var r2 := ReplaceAll(mid + (u + rest), u, d);
    ReplaceAllSkip(mid, u + rest, u, d);
    assert r2 == mid + (d + rest);
    var r1 := ReplaceAll(u + (mid + (u + rest)), u, d);
    ReplaceAllHit(u, mid + (u + rest), d);
    assert r1 == d + (mid + (d + rest));
    ReplaceAllSkip(Open, u + (mid + (u + rest)), u, d);
  }

  /** Text without an `h` holds no occurrence of a pattern that starts with one. */
  lemma NothingToReplace(t: string, pat: string, rep: string)
    requires |pat| > 0 && pat[0] == 'h' && NoneIs(t, 'h')
    ensures ReplaceAll(t, pat, rep) == t
  {
    ReplaceAllSkip(t, [], pat, rep);
    assert t + [] == t;
  }

  // ---------------------------------------------------------------------------
  // The discrepancy, on a concrete input
  // ---------------------------------------------------------------------------

  const ShortUrl: string := "http://i/a"
  const LongUrl: string := "http://i/ab"
  const ImageData: string := "data:,"

  /** A loader under which every image loads as the same small data URL. */
  function LoadsAsImageData(url: string): (r: LoadOutcome)
    ensures Resolve(r) == ImageData
  {
    Loaded(ImageData)
  }

  /** The long URL extends the short one; both are plain http sources. */
  lemma ExampleFacts()
    ensures LongUrl == ShortUrl + "b" && ShortUrl != LongUrl
    ensures PlainUrl(ShortUrl) && PlainUrl(LongUrl) && IsHttp(ShortUrl) && IsHttp(LongUrl)
    ensures ShortUrl[0] == 'h' && NoneIs("b", 'h') && NoneIs(ImageData, 'h') && NoneIs(ImageData + "b", 'h')
  {
  }

  /** Two tags whose sources hold no `h` hold no `h` at all. */
  lemma NoHInTags(a: string, b: string)
    requires NoneIs(a, 'h') && NoneIs(b, 'h')
    ensures NoneIs(Tag(a) + Tag(b), 'h')
  {
    MarkupHasNoH(b);
    TwoTagsSplit(a, []);
    assert Tag(a) + Tag(b) == Open + a + (Close + Open) + b + Close;
  }

  /**
   * Two images, the second URL extending the first: processImages collects
   * both, yet the second image ends up with the source "data:,b", the
   * first image's data followed by the tail of its own URL, where each
   * image should have read "data:,".
   */
  lemma PrefixUrlCorrupted()
    ensures ImageUrls(Tag(ShortUrl) + Tag(LongUrl)) == [ShortUrl, LongUrl]
    ensures ReplaceEach(Tag(ShortUrl) + Tag(LongUrl), [ShortUrl, LongUrl], LoadsAsImageData)
            == Tag(ImageData) + Tag(ImageData + "b")
    ensures Tag(ImageData) + Tag(ImageData + "b")
            != Tag(Resolve(LoadsAsImageData(ShortUrl))) + Tag(Resolve(LoadsAsImageData(LongUrl)))
  {
    var content := Tag(ShortUrl) + Tag(LongUrl);
    ExampleFacts();
    TwoTagSources(ShortUrl, LongUrl);
    FirstHttpOccurrencesSnoc([], ShortUrl);
    assert [] + [ShortUrl] == [ShortUrl];
    FirstHttpOccurrencesSnoc([ShortUrl], LongUrl);
    assert [ShortUrl] + [LongUrl] == [ShortUrl, LongUrl];

    var urls := [ShortUrl, LongUrl];
    var once := ReplaceAll(content, ShortUrl, ImageData);
    PrefixRewritten(ShortUrl, "b", ImageData);
    assert once == Tag(ImageData) + Tag(ImageData + "b");
    NoHInTags(ImageData, ImageData + "b");
    NothingToReplace(once, LongUrl, ImageData);
    ReplaceEachStep(content, urls, LoadsAsImageData);
    assert urls[1..] == [LongUrl];
    ReplaceEachStep(once, [LongUrl], LoadsAsImageData);
    assert [LongUrl][1..] == [];
    assert |Tag(ImageData) + Tag(ImageData + "b")| != |Tag(ImageData) + Tag(ImageData)|;
  }

  // ---------------------------------------------------------------------------
  // The corrected inliner: each tag's source replaced in place
  // ---------------------------------------------------------------------------

  /**
   * The markup from `from` on with each tag's source rewritten by `f`, in
   * place: the text between and around the sources is kept as it is.
   */
  function InlineFrom(s: string, from: nat, f: string -> string): string
    decreases |s| - from
  {
    match NextMatch(s, from)
    case None => if from <= |s| then s[from..] else []
    case Some(m) => s[from..m.valueStart] + f(s[m.valueStart..m.valueEnd]) + s[m.valueEnd..m.end] + InlineFrom(s, m.end, f)
  }

  /** A rewrite that leaves every source as it is gives back the markup: nothing but sources is touched. */
  lemma {:induction false} InlineFromKeeps(s: string, from: nat, f: string -> string)
    requires from <= |s|
    requires forall u :: u in Sources(s, from) ==> f(u) == u
    ensures InlineFrom(s, from, f) == s[from..]
    decreases |s| - from
  {
    match NextMatch(s, from)
    case None =>
    case Some(m) =>
      var src := s[m.valueStart..m.valueEnd];
      SourcesStep(s, from);
      assert src in Sources(s, from);
      assert forall u :: u in Sources(s, m.end) ==> u in Sources(s, from);
      InlineFromKeeps(s, m.end, f);
      assert InlineFrom(s, from, f) == s[from..m.valueStart] + f(src) + s[m.valueEnd..m.end] + InlineFrom(s, m.end, f);
      SplitAt(s, from, m.valueStart, m.valueEnd, m.end);
  }

  lemma SplitAt(s: string, a: nat, b: nat, c: nat, d: nat)
    requires a <= b <= c <= d <= |s|
    ensures s[a..] == s[a..b] + s[b..c] + s[c..d] + s[d..]
  {
  }

  /** Image tags one after another. */
  function Tags(us: seq<string>): (t: string)
    ensures us == [] ==> t == []
  {
    if us == [] then [] else Tag(us[0]) + Tags(us[1..])
  }

  /** Each URL rewritten by f. */
  function MapUrls(us: seq<string>, f: string -> string): (r: seq<string>)
    ensures |r| == |us| && forall k :: 0 <= k < |us| ==> r[k] == f(us[k])
  {
    if us == [] then [] else [f(us[0])] + MapUrls(us[1..], f)
  }

  /** A tag found at index i, cut into its opening, its source and its closing. */
  lemma TagSlices(s: string, i: nat, u: string)
    requires StartsWithAt(s, i, Tag(u))
    ensures s[i..i + 10] == Open && s[i + 10..i + 10 + |u|] == u && s[i + 10 + |u|..i + 12 + |u|] == Close
  {
    var t := Tag(u);
    assert t[..10] == Open && t[10..10 + |u|] == u && t[10 + |u|..] == Close;
    assert s[i..i + 10] == s[i..i + |t|][..10];
    assert s[i + 10..i + 10 + |u|] == s[i..i + |t|][10..10 + |u|];
    assert s[i + 10 + |u|..i + 12 + |u|] == s[i..i + |t|][10 + |u|..];
  }

  /** One tag at the scan position: its source is rewritten and the rest of the tag kept. */
  lemma InlineAtTag(s: string, i: nat, u: string, f: string -> string)
    requires PlainUrl(u) && StartsWithAt(s, i, Tag(u))
    ensures InlineFrom(s, i, f) == Tag(f(u)) + InlineFrom(s, i + |Tag(u)|, f)
  {
    var n := |u|;
    NextMatchAtTag(s, i, u);
    InlineStep(s, i, f);
    TagSlices(s, i, u);
    var rest := InlineFrom(s, i + 12 + n, f);
    assert InlineFrom(s, i, f) == s[i..i + 10] + f(s[i + 10..i + 10 + n]) + s[i + 10 + n..i + 12 + n] + rest;
    assert InlineFrom(s, i, f) == Open + f(u) + Close + rest;
  }

  /** On markup made of plain tags, every tag gets its own source rewritten, whatever the sources have in common. */
  lemma {:induction false} InlineTags(pre: string, us: seq<string>, f: string -> string)
    requires forall k :: 0 <= k < |us| ==> PlainUrl(us[k])
    ensures InlineFrom(pre + Tags(us), |pre|, f) == Tags(MapUrls(us, f))
    decreases |us|
  {
    var s := pre + Tags(us);
    if us == [] {
      assert s == pre;
      assert NextMatch(s, |pre|) == None;
      assert InlineFrom(s, |pre|, f) == [];
    } else {
      var u, rest := us[0], us[1..];
      var t := Tag(u);
      var s' := pre + t;
      assert Tags(us) == t + Tags(rest);
      assert s == pre + t + Tags(rest) == s' + Tags(rest);
      StartsWithAtMiddle(pre, t, Tags(rest));
      InlineAtTag(s, |pre|, u, f);
      var b := InlineFrom(s, |s'|, f);
      assert InlineFrom(s, |pre|, f) == Tag(f(u)) + b;
      InlineTags(s', rest, f);
      assert b == Tags(MapUrls(rest, f));
      var r := MapUrls(us, f);
      assert r[0] == f(u) && r[1..] == MapUrls(rest, f);
      assert Tags(r) == Tag(f(u)) + Tags(MapUrls(rest, f));
    }
  }

  /** What one tag's source becomes: its resolution when it starts with http, otherwise itself. */
  function Substituted(load: string -> LoadOutcome, u: string): (r: string)
    ensures IsHttp(u) ==> r == Resolve(load(u))
    ensures !IsHttp(u) ==> r == u
  {
    if IsHttp(u) then Resolve(load(u)) else u
  }

  /** Substituted, as the rewrite handed to InlineFrom. */
  function Rewrite(load: string -> LoadOutcome): (f: string -> string)
    ensures forall u :: f(u) == Substituted(load, u)
  {
    u => Substituted(load, u)
  }

  /** The resolution of each collected URL, as the settled results of the loads. */
  function Resolutions(urls: seq<string>, load: string -> LoadOutcome): (r: map<string, string>)
    ensures forall u :: u in urls ==> u in r && r[u] == Resolve(load(u))
  {
    map u | u in urls :: Resolve(load(u))
  }

  /** The markup with each tag's http source replaced, in place, by that source's own resolution. */
  function Inlined(content: string, load: string -> LoadOutcome): (r: string)
  {
    InlineFrom(content, 0, Rewrite(load))
  }

  /** Markup without an http image source comes back unchanged, as from processImages. */
  lemma InlinedWithoutHttp(content: string, load: string -> LoadOutcome)
    requires ImageUrls(content) == []
    ensures Inlined(content, load) == content
  {
    CollectedUrls(content);
    InlineFromKeeps(content, 0, Rewrite(load));
  }

  /** Two plain tags: each one's source is rewritten on its own. */
  lemma InlineTwoTags(u1: string, u2: string, f: string -> string)
    requires PlainUrl(u1) && PlainUrl(u2)
    ensures InlineFrom(Tag(u1) + Tag(u2), 0, f) == Tag(f(u1)) + Tag(f(u2))
  {
    var us := [u1, u2];
    TwoTags(u1, u2);
    InlineTags([], us, f);
    assert [] + Tags(us) == Tags(us);
    assert MapUrls(us, f) == [f(u1), f(u2)];
    TwoTags(f(u1), f(u2));
  }

  lemma TwoTags(u1: string, u2: string)
    ensures Tags([u1, u2]) == Tag(u1) + Tag(u2)
  {
    assert [u1, u2][1..] == [u2] && [u2][1..] == [];
  }

  /**
   * On the same two images, the positional replacement gives each image its
   * own resolution, and differs from what processImages produces.
   */
  lemma PositionalInlineExample()
    ensures Inlined(Tag(ShortUrl) + Tag(LongUrl), LoadsAsImageData) == Tag(ImageData) + Tag(ImageData)
  {
    ExampleFacts();
    var f := Rewrite(LoadsAsImageData);
    InlineTwoTags(ShortUrl, LongUrl, f);
    assert f(ShortUrl) == ImageData && f(LongUrl) == ImageData;
  }

  /** On that input the corrected inliner and processImages disagree. */
  lemma CorrectionDiffers()
    ensures ImageUrls(Tag(ShortUrl) + Tag(LongUrl)) == [ShortUrl, LongUrl]
    ensures Inlined(Tag(ShortUrl) + Tag(LongUrl), LoadsAsImageData)
            != ReplaceEach(Tag(ShortUrl) + Tag(LongUrl), [ShortUrl, LongUrl], LoadsAsImageData)
  {
    PositionalInlineExample();
    PrefixUrlCorrupted();
    assert |Tag(ImageData) + Tag(ImageData + "b")| != |Tag(ImageData) + Tag(ImageData)|;
  }

  /** One tag found at or after `from`: its source is rewritten and scanning resumes after the tag. */
  lemma InlineStep(s: string, from: nat, f: string -> string)
    requires NextMatch(s, from).Some?
    ensures var m := NextMatch(s, from).value;
            InlineFrom(s, from, f)
            == s[from..m.valueStart] + f(s[m.valueStart..m.valueEnd]) + s[m.valueEnd..m.end] + InlineFrom(s, m.end, f)
  {
  }

  /** One turn of the replacing loop: the tag's source is among the sources seen, and collected when it is http. */
  lemma SourceSeen(content: string, from: nat, seen: seq<string>)
    requires NextMatch(content, from).Some?
    requires Sources(content, 0) == seen + Sources(content, from)
    ensures var m := NextMatch(content, from).value;
            var src := content[m.valueStart..m.valueEnd];
            && Sources(content, 0) == (seen + [src]) + Sources(content, m.end)
            && (IsHttp(src) ==> src in ImageUrls(content))
  {
    var m := NextMatch(content, from).value;
    var src := content[m.valueStart..m.valueEnd];
    SourcesStep(content, from);
    AppendAssoc(seen, [src], Sources(content, m.end));
    FirstHttpOccurrencesMember(Sources(content, 0), src);
  }

  /** One turn of the replacing loop: the output grows by the text before the tag, the rewritten source and the rest of the tag. */
  lemma ReplaceStep(content: string, from: nat, done: string, f: string -> string, written: string)
    requires NextMatch(content, from).Some?
    requires InlineFrom(content, 0, f) == done + InlineFrom(content, from, f)
    requires var m := NextMatch(content, from).value; written == f(content[m.valueStart..m.valueEnd])
    ensures var m := NextMatch(content, from).value;
            InlineFrom(content, 0, f)
            == (done + (content[from..m.valueStart] + written + content[m.valueEnd..m.end])) + InlineFrom(content, m.end, f)
  {
    var m := NextMatch(content, from).value;
    InlineStep(content, from, f);
    AppendAssoc(done, content[from..m.valueStart] + written + content[m.valueEnd..m.end], InlineFrom(content, m.end, f));
  }

  /**
   * The corrected processImages: collect and resolve the distinct http
   * sources as before, then scan the tags once more and write each tag's
   * own resolution in place of its source.
   */
  method InlineImages(content: string, load: string -> LoadOutcome) returns (processed: string)
    ensures processed == Inlined(content, load)
  {
    var imageUrls := CollectImageUrls(content);
    var resolutions := Resolutions(imageUrls, load);
    ghost var f := Rewrite(load);

    processed := "";
    var lastIndex := 0;
    var found := NextMatch(content, lastIndex);
    ghost var seen: seq<string> := [];
    while found.Some?
      invariant lastIndex <= |content|
      invariant found == NextMatch(content, lastIndex)
      invariant Sources(content, 0) == seen + Sources(content, lastIndex)
      invariant InlineFrom(content, 0, f) == processed + InlineFrom(content, lastIndex, f)
      decreases |content| - lastIndex
    {
      var m := found.value;
      var src := content[m.valueStart..m.valueEnd];
      SourceSeen(content, lastIndex, seen);
      var written := src;
      if IsHttp(src) {
        written := resolutions[src];
      }
      assert written == Substituted(load, src);
      ReplaceStep(content, lastIndex, processed, f, written);
      processed := processed + (content[lastIndex..m.valueStart] + written + content[m.valueEnd..m.end]);
      seen := seen + [src];
      lastIndex := m.end;
      found := NextMatch(content, lastIndex);
    }
    processed := processed + content[lastIndex..];
  }
}
