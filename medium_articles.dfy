/** The blog-post grid: cleaning of Medium CDN image URLs, the choice of an
    image from an article's HTML, the thumbnail fallback applied to every
    feed item, and the tag-stripping excerpt.

    The regular expressions that find candidate images in the HTML are not
    modelled: their results come in through `Scanners`. The two size-segment
    patterns of `cleanImageUrl` and the tag pattern of `truncateText` are
    modelled exactly. */
module MediumArticles {
  import opened Wrappers
  import opened Strings

  const CdnHost := "cdn-images-1.medium.com"
  const MiroHost := "miro.medium.com"
  const DefaultThumbnail := "/images/default-article.jpg"
  const SizeSegment800 := "/max/800/"

  // ---------------------------------------------------------------------------
  // cleanImageUrl

  predicate IsDigit(c: char) {
    '0' <= c <= '9'
  }

  predicate IsW(c: char) {
    c == 'w'
  }

  /** The end of the longest run of characters satisfying `w` from index `j`. */
  function SpanEnd(s: string, j: nat, w: char -> bool): (k: nat)
    requires j <= |s|
    decreases |s| - j
    ensures j <= k <= |s|
    ensures forall t :: j <= t < k ==> w(s[t])
    ensures k < |s| ==> !w(s[k])
  {
    if j == |s| || !w(s[j]) then j else SpanEnd(s, j + 1, w)
  }

  /** The two size-segment patterns: `/\/max\/\d+\//` (line 41) and
      `/\/w+\d+\//` (line 42). */
  datatype Segment = MaxSegment | WidthSegment

  /** The end (exclusive) of the match of `seg` that starts at index `i`, if any.
      Both patterns have at most one match per start: the runs are maximal
      and must be followed by a slash. */
  function SegmentEnd(seg: Segment, s: string, i: nat): (r: Option<nat>)
    requires i <= |s|
    ensures r.Some? ==> i < r.value <= |s| && s[i] == '/' && s[r.value - 1] == '/'
  {
    match seg
    case MaxSegment =>
      if OccursAt(s, "/max/", i) then
        assert s[i] == s[i..i + 5][0];
        var k := SpanEnd(s, i + 5, IsDigit);
        if i + 5 < k < |s| && s[k] == '/' then Some(k + 1) else None
      else None
    case WidthSegment =>
      if i < |s| && s[i] == '/' then
        var p := SpanEnd(s, i + 1, IsW);
        var k := SpanEnd(s, p, IsDigit);
        if i + 1 < p < k < |s| && s[k] == '/' then Some(k + 1) else None
      else None
  }

  /** The leftmost match of `seg` at or after `i`, as (start, end). */
  function FirstSegment(seg: Segment, s: string, i: nat): (r: Option<(nat, nat)>)
    requires i <= |s|
    decreases |s| - i
    ensures r.Some? ==> i <= r.value.0 < r.value.1 <= |s| && SegmentEnd(seg, s, r.value.0) == Some(r.value.1)
    ensures r.Some? ==> forall j :: i <= j < r.value.0 ==> SegmentEnd(seg, s, j).None?
    ensures r.None? ==> forall j :: i <= j < |s| ==> SegmentEnd(seg, s, j).None?
  {
    if i == |s| then None
    else match SegmentEnd(seg, s, i)
      case Some(k) => Some((i, k))
      case None => FirstSegment(seg, s, i + 1)
  }

  /** `s.replace(pattern, '/')`: the leftmost match becomes a single slash. */
  function StripSegment(seg: Segment, s: string): (r: string)
    ensures FirstSegment(seg, s, 0).None? ==> r == s
    ensures s != "" ==> r != ""
    ensures |r| <= |s|
  {
    match FirstSegment(seg, s, 0)
    case None => s
    case Some((i, k)) => s[..i] + "/" + s[k..]
  }

  /** The URL after both size segments are stripped (lines 41-42). */
  function StripSizes(url: string): (r: string)
    ensures FirstSegment(MaxSegment, url, 0).None? && FirstSegment(WidthSegment, url, 0).None? ==> r == url
    ensures url != "" ==> r != ""
    ensures |r| <= |url|
  {
    StripSegment(WidthSegment, StripSegment(MaxSegment, url))
  }

  /** A run of characters satisfying `w` from `j` that stops at `n` is spanned exactly. */
  lemma SpanEndAt(s: string, j: nat, n: nat, w: char -> bool)
    requires j <= n <= |s|
    requires forall t :: j <= t < n ==> w(s[t])
    requires n < |s| ==> !w(s[n])
    ensures SpanEnd(s, j, w) == n
  {
  }

  /** A match at `m` with none before it is the leftmost one. */
  lemma FirstSegmentAt(seg: Segment, s: string, m: nat, e: nat)
    requires m <= |s| && SegmentEnd(seg, s, m) == Some(e)
    requires forall j :: 0 <= j < m ==> SegmentEnd(seg, s, j).None?
    ensures FirstSegment(seg, s, 0) == Some((m, e))
  {
  }

  /** No `/max/\d+/` match starts inside a prefix that has no `/max/`, even
      one that overlaps the segment after it. */
  lemma NoMaxBefore(a: string, ds: string, b: string, j: nat)
    requires j < |a| && !Contains(a, "/max/")
    ensures SegmentEnd(MaxSegment, a + "/max/" + ds + "/" + b, j).None?
  {
    var s := a + "/max/" + ds + "/" + b;
    if OccursAt(s, "/max/", j) {
      if j + 5 <= |a| {
        assert a[j..j + 5] == s[j..j + 5];
        OccursThenContains(a, "/max/", j);
      } else {
        // the `/` at |a| must line up with the last `/` of "/max/"
        assert "/max/"[|a| - j] == s[j..j + 5][|a| - j] == s[|a|] == '/';
        assert j == |a| - 4;
        assert s[j + 5] == 'm';
        SpanEndAt(s, j + 5, j + 5, IsDigit);
      }
    }
  }

  /** `url.replace(/\/max\/\d+\//, '/')` on a URL whose first `/max/` is
      followed by digits and a slash: that segment becomes a single slash. */
  lemma StripMaxAt(a: string, ds: string, b: string)
    requires ds != [] && forall c :: c in ds ==> IsDigit(c)
    requires !Contains(a, "/max/")
    ensures StripSegment(MaxSegment, a + "/max/" + ds + "/" + b) == a + "/" + b
  {
    var s := a + "/max/" + ds + "/" + b;
    var m := |a|;
    var k := m + 5 + |ds|;
    assert s[m..m + 5] == "/max/";
    forall t | m + 5 <= t < k ensures IsDigit(s[t]) {
      assert s[t] == ds[t - m - 5];
    }
    assert s[k] == '/';
    SpanEndAt(s, m + 5, k, IsDigit);
    assert SegmentEnd(MaxSegment, s, m) == Some(k + 1);
    forall j | 0 <= j < m ensures SegmentEnd(MaxSegment, s, j).None? {
      NoMaxBefore(a, ds, b, j);
    }
    FirstSegmentAt(MaxSegment, s, m, k + 1);
    assert s[..m] == a && s[k + 1..] == b;
  }

  /** No `/w+\d+/` match starts inside a prefix that has no `/w`. */
  lemma NoWidthBefore(a: string, rest: string, j: nat)
    requires j < |a| && !Contains(a, "/w") && rest != [] && rest[0] == '/'
    ensures SegmentEnd(WidthSegment, a + rest, j).None?
  {
    var s := a + rest;
    if s[j] == '/' && SpanEnd(s, j + 1, IsW) > j + 1 {
      assert s[j + 1] == 'w';
      if j + 1 < |a| {
        assert a[j..j + 2] == "/w";
        OccursThenContains(a, "/w", j);
      }
    }
  }

  /** The width pattern matches a run of `w`s, then digits, then a slash. */
  lemma WidthSegmentAt(a: string, ws: string, ds: string, b: string)
    requires ws != [] && forall c :: c in ws ==> IsW(c)
    requires ds != [] && forall c :: c in ds ==> IsDigit(c)
    ensures SegmentEnd(WidthSegment, a + "/" + ws + ds + "/" + b, |a|) == Some(|a| + |ws| + |ds| + 2)
  {
    var s := a + "/" + ws + ds + "/" + b;
    var p := |a| + 1 + |ws|;
    var k := p + |ds|;
    forall t | |a| + 1 <= t < p ensures IsW(s[t]) {
      assert s[t] == ws[t - |a| - 1];
    }
    assert s[p] == ds[0] && ds[0] in ds;
    SpanEndAt(s, |a| + 1, p, IsW);
    forall t | p <= t < k ensures IsDigit(s[t]) {
      assert s[t] == ds[t - p];
    }
    assert s[k] == '/';
    SpanEndAt(s, p, k, IsDigit);
  }

  /** `cleaned.replace(/\/w+\d+\//, '/')` on a URL whose first `/w` starts
      a run of `w`s, then digits, then a slash: that segment becomes a single slash. */
  lemma StripWidthAt(a: string, ws: string, ds: string, b: string)
    requires ws != [] && forall c :: c in ws ==> IsW(c)
    requires ds != [] && forall c :: c in ds ==> IsDigit(c)
    requires !Contains(a, "/w")
    ensures StripSegment(WidthSegment, a + "/" + ws + ds + "/" + b) == a + "/" + b
  {
    var rest := "/" + ws + ds + "/" + b;
    var s := a + "/" + ws + ds + "/" + b;
    assert s == a + rest;
    var e := |a| + |ws| + |ds| + 2;
    WidthSegmentAt(a, ws, ds, b);
    forall j | 0 <= j < |a| ensures SegmentEnd(WidthSegment, s, j).None? {
      NoWidthBefore(a, rest, j);
    }
    FirstSegmentAt(WidthSegment, s, |a|, e);
    assert s[..|a|] == a && s[e..] == b;
  }

  /** Text without `/w` has no width segment to strip. */
  lemma NoWidthSegment(t: string)
    requires !Contains(t, "/w")
    ensures FirstSegment(WidthSegment, t, 0).None?
  {
    var r := FirstSegment(WidthSegment, t, 0);
    if r.Some? {
      var j := r.value.0;
      assert t[j] == '/' && SpanEnd(t, j + 1, IsW) > j + 1;
      assert t[j..j + 2] == "/w";
      OccursThenContains(t, "/w", j);
    }
  }

  /** Both strips together: a URL with one `/max/<digits>/` segment and no
      width segment loses exactly that segment, leaving a slash. */
  lemma StripSizesAt(a: string, ds: string, b: string)
    requires ds != [] && forall c :: c in ds ==> IsDigit(c)
    requires !Contains(a, "/max/") && !Contains(a + "/" + b, "/w")
    ensures StripSizes(a + "/max/" + ds + "/" + b) == a + "/" + b
  {
    StripMaxAt(a, ds, b);
    NoWidthSegment(a + "/" + b);
  }

  predicate IsMediumCdn(url: string) {
    Contains(url, CdnHost) || Contains(url, MiroHost)
  }

  /** Lines 45-47: a CDN URL without a `/max/` segment gets `/max/800/`
      after the first host-and-slash. */
  function WithDefaultSize(cleaned: string): (r: string)
    ensures Contains(cleaned, "/max/") || !Contains(cleaned, CdnHost) ==> r == cleaned
    ensures |r| >= |cleaned|
  {
    if Contains(cleaned, CdnHost) && !Contains(cleaned, "/max/") then
      ReplaceFirst(cleaned, CdnHost + "/", CdnHost + SizeSegment800)
    else cleaned
  }

  /** `cleanImageUrl` (lines 35-53). */
  function CleanImageUrl(url: string): (r: string)
    ensures url == "" ==> r == ""
    ensures url != "" ==> r != ""
    ensures !IsMediumCdn(url) ==> r == url
  {
    if url == "" then ""
    else if IsMediumCdn(url) then WithDefaultSize(StripSizes(url))
    else url
  }

  /** A CDN URL that has no `/max/` gets `/max/800/` right after the
      first occurrence of the host followed by a slash. */
  lemma SizeInserted(c: string, k: nat)
    requires !Contains(c, "/max/")
    requires FindFrom(c, CdnHost + "/", 0) == Some(k)
    ensures WithDefaultSize(c) == c[..k] + CdnHost + SizeSegment800 + c[k + |CdnHost| + 1..]
    ensures OccursAt(WithDefaultSize(c), CdnHost + SizeSegment800, k)
  {
    OccursPrefix(c, CdnHost, "/", k);
    OccursThenContains(c, CdnHost, k);
    ReplaceFirstAt(c, CdnHost + "/", CdnHost + SizeSegment800, k);
  }

  /** So a CDN URL that has no `/max/` left after stripping is given one
      after its host. */
  lemma CdnSizeInserted(url: string, k: nat)
    requires Contains(url, CdnHost)
    requires !Contains(StripSizes(url), "/max/")
    requires FindFrom(StripSizes(url), CdnHost + "/", 0) == Some(k)
    ensures var c := StripSizes(url);
            CleanImageUrl(url) == c[..k] + CdnHost + SizeSegment800 + c[k + |CdnHost| + 1..]
    ensures OccursAt(CleanImageUrl(url), CdnHost + SizeSegment800, k)
  {
    var j := FindFrom(url, CdnHost, 0).value;
    assert url != "" by { assert OccursAt(url, CdnHost, j); }
    SizeInserted(StripSizes(url), k);
  }

  /** Otherwise a Medium URL is only stripped of its size segments. */
  lemma MediumUrlOnlyStripped(url: string)
    requires IsMediumCdn(url)
    requires Contains(StripSizes(url), "/max/") || !Contains(StripSizes(url), CdnHost + "/")
    ensures CleanImageUrl(url) == StripSizes(url)
  {
    if !Contains(StripSizes(url), "/max/") && Contains(StripSizes(url), CdnHost) {
      assert !Contains(StripSizes(url), CdnHost + "/");
    }
  }

  // ---------------------------------------------------------------------------
  // extractImageFromContent

  /** `/\.(jpg|jpeg|png|gif|webp)/i`. */
  predicate HasImageExtension(url: string) {
    var l := LowerAll(url);
    Contains(l, ".jpg") || Contains(l, ".jpeg") || Contains(l, ".png") || Contains(l, ".gif") || Contains(l, ".webp")
  }

  /** The candidate filter of lines 97-106. */
  predicate Accepted(url: string) {
    && url != ""
    && StartsWith(url, "https://")
    && (HasImageExtension(url) || Contains(url, "cdn-images") || Contains(url, "miro.medium"))
    && Utf16Length(url) <= 500
  }

  function Filter<T>(s: seq<T>, p: T -> bool): (r: seq<T>)
    ensures |r| <= |s|
    ensures forall x :: x in r ==> x in s && p(x)
  {
    if s == [] then []
    else if p(s[0]) then [s[0]] + Filter(s[1..], p)
    else Filter(s[1..], p)
  }

  function Map<T, U>(s: seq<T>, f: T -> U): (r: seq<U>)
    ensures |r| == |s|
    ensures forall i :: 0 <= i < |s| ==> r[i] == f(s[i])
  {
    if s == [] then [] else [f(s[0])] + Map(s[1..], f)
  }

  predicate NonEmpty(url: string) {
    |url| > 0
  }

  /** `validImages` (lines 96-108): filter, clean, drop empty results. */
  function ValidImages(sources: seq<string>): (r: seq<string>)
    ensures |r| <= |sources|
    ensures forall x :: x in r ==> x != ""
  {
    Filter(Map(Filter(sources, Accepted), CleanImageUrl), NonEmpty)
  }

  /** `validImages[0] || null`. */
  function SelectImage(sources: seq<string>): (r: Option<string>)
    ensures r.Some? ==> r.value != "" && r.value in ValidImages(sources)
  {
    var v := ValidImages(sources);
    if |v| > 0 then Some(v[0]) else None
  }

  /** The results of the regular-expression scans of lines 60-93, which are
      not modelled: the og:image URL, and the `src` of every image inside a
      figure and of every img tag, in document order. */
  datatype ContentImages = ContentImages(ogImage: Option<string>, figureImages: seq<string>, imgImages: seq<string>)

  /** The scans: of the content, and of the description for a bare image URL. */
  datatype Scanners = Scanners(content: string -> ContentImages, description: string -> Option<string>)

  /** `imgSources` as the pushes of lines 57-93 leave it. */
  function Sources(content: string, description: string, sc: Scanners): (r: seq<string>)
    ensures var found := sc.content(content);
            var scanned := found.figureImages + found.imgImages;
            && |scanned| <= |r| <= |scanned| + 2
            && r[|r| - |scanned|..] == scanned
            && (found.ogImage.Some? ==> |r| > |scanned| && r[0] == found.ogImage.value)
  {
    var found := sc.content(content);
    var og := if found.ogImage.Some? then [found.ogImage.value] else [];
    var desc := if description != "" && sc.description(description).Some? then [sc.description(description).value] else [];
    og + desc + found.figureImages + found.imgImages
  }

  /** `extractImageFromContent`. */
  function ExtractImageFromContent(content: string, description: string, sc: Scanners): Option<string> {
    SelectImage(Sources(content, description, sc))
  }

  lemma {:induction false} FilterFirst<T>(s: seq<T>, p: T -> bool, i: nat)
    requires i < |s| && p(s[i])
    requires forall j :: 0 <= j < i ==> !p(s[j])
    ensures |Filter(s, p)| > 0 && Filter(s, p)[0] == s[i]
  {
    if i > 0 {
      assert !p(s[0]);
      FilterFirst(s[1..], p, i - 1);
    }
  }

  lemma {:induction false} FilterKeepsAll<T>(s: seq<T>, p: T -> bool)
    requires forall i :: 0 <= i < |s| ==> p(s[i])
    ensures Filter(s, p) == s
  {
    if s != [] {
      FilterKeepsAll(s[1..], p);
    }
  }

  /** The last filter of the chain never removes anything: an accepted URL
      is non-empty and cleaning keeps it non-empty. */
  lemma CleanedAcceptedNonEmpty(sources: seq<string>)
    ensures ValidImages(sources) == Map(Filter(sources, Accepted), CleanImageUrl)
  {
    var m := Map(Filter(sources, Accepted), CleanImageUrl);
    forall i | 0 <= i < |m| ensures NonEmpty(m[i]) {
      assert Filter(sources, Accepted)[i] in Filter(sources, Accepted);
    }
    FilterKeepsAll(m, NonEmpty);
  }

  lemma {:induction false} FilterNonEmpty<T>(s: seq<T>, p: T -> bool, i: nat)
    requires i < |s| && p(s[i])
    ensures |Filter(s, p)| > 0
  {
    if i > 0 && !p(s[0]) {
      FilterNonEmpty(s[1..], p, i - 1);
    }
  }

  /** The chosen image is the cleaned form of the first accepted candidate,
      and there is one exactly when some candidate is accepted. */
  lemma SelectImageIsFirstAccepted(sources: seq<string>)
    ensures SelectImage(sources).Some? <==> exists i :: 0 <= i < |sources| && Accepted(sources[i])
    ensures forall i :: 0 <= i < |sources| && Accepted(sources[i]) && (forall j :: 0 <= j < i ==> !Accepted(sources[j])) ==>
              SelectImage(sources) == Some(CleanImageUrl(sources[i]))
  {
    CleanedAcceptedNonEmpty(sources);
    var f := Filter(sources, Accepted);
    if |f| > 0 {
      assert f[0] in f;
    }
    if exists i :: 0 <= i < |sources| && Accepted(sources[i]) {
      var i :| 0 <= i < |sources| && Accepted(sources[i]);
      FilterNonEmpty(sources, Accepted, i);
    }
    forall i | 0 <= i < |sources| && Accepted(sources[i]) && (forall j :: 0 <= j < i ==> !Accepted(sources[j]))
      ensures SelectImage(sources) == Some(CleanImageUrl(sources[i]))
    {
      FilterFirst(sources, Accepted, i);
    }
  }

  /** The og:image candidate, when accepted, wins over every other one. */
  lemma OgImageWins(content: string, description: string, sc: Scanners)
    requires sc.content(content).ogImage.Some? && Accepted(sc.content(content).ogImage.value)
    ensures ExtractImageFromContent(content, description, sc) == Some(CleanImageUrl(sc.content(content).ogImage.value))
  {
    var sources := Sources(content, description, sc);
    assert sources[0] == sc.content(content).ogImage.value;
    SelectImageIsFirstAccepted(sources);
  }

  /** Without an accepted og:image, an accepted image found in the
      description wins over every image of the content. */
  lemma DescriptionWins(content: string, description: string, sc: Scanners)
    requires sc.content(content).ogImage.None? || !Accepted(sc.content(content).ogImage.value)
    requires description != "" && sc.description(description).Some? && Accepted(sc.description(description).value)
    ensures ExtractImageFromContent(content, description, sc) == Some(CleanImageUrl(sc.description(description).value))
  {
    var sources := Sources(content, description, sc);
    var i := if sc.content(content).ogImage.Some? then 1 else 0;
    assert sources[i] == sc.description(description).value;
    SelectImageIsFirstAccepted(sources);
  }

  lemma {:induction false} FilterSkip<T>(s: seq<T>, p: T -> bool, n: nat)
    requires n <= |s| && forall j :: 0 <= j < n ==> !p(s[j])
    ensures Filter(s, p) == Filter(s[n..], p)
  {
    if n > 0 {
      assert !p(s[0]);
      FilterSkip(s[1..], p, n - 1);
      assert s[1..][n - 1..] == s[n..];
    }
  }

  /** With neither an accepted og:image nor an accepted description image,
      the choice is made among the figure images, then the img tags. */
  lemma ScannedImagesOtherwise(content: string, description: string, sc: Scanners)
    requires sc.content(content).ogImage.None? || !Accepted(sc.content(content).ogImage.value)
    requires description == "" || sc.description(description).None? || !Accepted(sc.description(description).value)
    ensures ExtractImageFromContent(content, description, sc) ==
              SelectImage(sc.content(content).figureImages + sc.content(content).imgImages)
  {
    var found := sc.content(content);
    var scanned := found.figureImages + found.imgImages;
    var sources := Sources(content, description, sc);
    var n := |sources| - |scanned|;
    assert sources[n..] == scanned;
    FilterSkip(sources, Accepted, n);
  }

  // ---------------------------------------------------------------------------
  // The thumbnail pipeline of the feed items

  /** One feed item as the rss2json service returns it; a field may be
      missing, which `None` stands for. */
  datatype Article = Article(
    title: string,
    link: string,
    pubDate: string,
    thumbnail: Option<string>,
    categories: seq<string>,
    content: Option<string>,
    description: Option<string>)

  /** A thumbnail value that the pipeline treats as absent (lines 152 and 166). */
  predicate IsPlaceholder(t: Option<string>) {
    t.None? || t.value == "" || t.value == "null" || t.value == "undefined"
  }

  /** `x || ''`. */
  function OrEmpty(t: Option<string>): string {
    if t.Some? then t.value else ""
  }

  /** Lines 160-168 for a present thumbnail: clean it unless it is already
      the default image, then fall back to the default if nothing usable is left. */
  function Polished(t: string): (r: string)
    ensures !IsPlaceholder(Some(r))
    ensures t == DefaultThumbnail ==> r == DefaultThumbnail
    ensures !IsPlaceholder(Some(t)) && !IsMediumCdn(t) ==> r == t
  {
    var cleaned := if t != "" && t != DefaultThumbnail then CleanImageUrl(t) else t;
    if IsPlaceholder(Some(cleaned)) then DefaultThumbnail else cleaned
  }

  /** A size strip either leaves the URL as it is or leaves a slash in it. */
  lemma StripSegmentKeepsOrSlash(seg: Segment, s: string)
    ensures StripSegment(seg, s) == s || '/' in StripSegment(seg, s)
  {
    match FirstSegment(seg, s, 0)
    case None =>
    case Some((i, k)) =>
      assert StripSegment(seg, s)[i] == '/';
  }

  /** Both strips leave the URL as it is or leave a slash in it. */
  lemma StripSizesKeepsOrSlash(t: string)
    ensures StripSizes(t) == t || '/' in StripSizes(t)
  {
    StripSegmentKeepsOrSlash(MaxSegment, t);
    StripSegmentKeepsOrSlash(WidthSegment, StripSegment(MaxSegment, t));
  }

  lemma StrippedNotPlaceholder(t: string)
    requires !IsPlaceholder(Some(t))
    ensures !IsPlaceholder(Some(StripSizes(t)))
  {
    StripSizesKeepsOrSlash(t);
    assert '/' !in "null" && '/' !in "undefined";
  }

  lemma SizedNotPlaceholder(w: string, k: nat)
    requires !Contains(w, "/max/")
    requires FindFrom(w, CdnHost + "/", 0) == Some(k)
    ensures !IsPlaceholder(Some(WithDefaultSize(w)))
  {
    SizeInserted(w, k);
  }

  /** Cleaning a real thumbnail never yields a placeholder word. */
  lemma CleanedNotPlaceholder(t: string)
    requires !IsPlaceholder(Some(t))
    ensures !IsPlaceholder(Some(CleanImageUrl(t)))
  {
    if IsMediumCdn(t) {
      var w := StripSizes(t);
      if Contains(w, "/max/") || !Contains(w, CdnHost + "/") {
        MediumUrlOnlyStripped(t);
        StrippedNotPlaceholder(t);
      } else {
        SizedNotPlaceholder(w, FindFrom(w, CdnHost + "/", 0).value);
      }
    }
  }

  /** A real thumbnail other than the default image is replaced by its
      cleaned form. */
  lemma PolishedCleans(t: string)
    requires !IsPlaceholder(Some(t)) && t != DefaultThumbnail
    ensures Polished(t) == CleanImageUrl(t)
  {
    CleanedNotPlaceholder(t);
  }

  /** The thumbnail an item ends up with. */
  function ThumbnailFor(a: Article, sc: Scanners): (r: string)
    ensures !IsPlaceholder(Some(r))
    ensures !IsPlaceholder(a.thumbnail) ==> r == Polished(a.thumbnail.value)
    ensures IsPlaceholder(a.thumbnail) && ExtractImageFromContent(OrEmpty(a.content), OrEmpty(a.description), sc).None? ==>
              r == DefaultThumbnail
    ensures IsPlaceholder(a.thumbnail) && ExtractImageFromContent(OrEmpty(a.content), OrEmpty(a.description), sc).Some? ==>
              r == Polished(ExtractImageFromContent(OrEmpty(a.content), OrEmpty(a.description), sc).value)
  {
    if IsPlaceholder(a.thumbnail) then
      match ExtractImageFromContent(OrEmpty(a.content), OrEmpty(a.description), sc)
      case Some(e) => Polished(e)
      case None => DefaultThumbnail
    else Polished(a.thumbnail.value)
  }

  /** The extraction is consulted only for a missing or placeholder
      thumbnail: two items with the same real thumbnail get the same result
      whatever their content and description. */
  lemma ExtractionOnlyForPlaceholders(a: Article, b: Article, sc: Scanners, sc': Scanners)
    requires !IsPlaceholder(a.thumbnail) && b.thumbnail == a.thumbnail
    ensures ThumbnailFor(a, sc) == ThumbnailFor(b, sc')
  {
  }

  /** The `data.items.map` callback (lines 138-168), which reassigns
      `thumbnail` step by step. */
  method ResolveThumbnail(a: Article, sc: Scanners) returns (thumbnail: string)
    ensures thumbnail == ThumbnailFor(a, sc)
  {
    var t := a.thumbnail;
    if IsPlaceholder(t) {
      var extracted := ExtractImageFromContent(OrEmpty(a.content), OrEmpty(a.description), sc);
      if extracted.Some? {
        t := extracted;
      }
    }
    if t.Some? && t.value != "" && t.value != DefaultThumbnail {
      if t.value == "null" || t.value == "undefined" {
        // a placeholder word is not a Medium URL, so cleaning leaves it as it is
        ShortDoesNotContain(t.value, CdnHost);
        ShortDoesNotContain(t.value, MiroHost);
      }
      t := Some(CleanImageUrl(t.value));
    }
    if IsPlaceholder(t) {
      t := Some(DefaultThumbnail);
    }
    thumbnail := t.value;
  }

  /** An item with its thumbnail resolved. */
  function Processed(a: Article, sc: Scanners): Article {
    a.(thumbnail := Some(ThumbnailFor(a, sc)))
  }

  /** The `data.items.map` callback as a value. */
  function Resolver(sc: Scanners): Article -> Article {
    a => Processed(a, sc)
  }

  /** The feed with every thumbnail resolved. */
  function ProcessedAll(items: seq<Article>, sc: Scanners): seq<Article> {
    Map(items, Resolver(sc))
  }

  /** Mapping over a longer list only adds the image of the new element. */
  lemma MapSnoc<T, U>(s: seq<T>, x: T, f: T -> U)
    ensures Map(s + [x], f) == Map(s, f) + [f(x)]
  {
    var l, r := Map(s + [x], f), Map(s, f) + [f(x)];
    assert |l| == |r|;
    forall i | 0 <= i < |l|
      ensures l[i] == r[i]
    {
      assert (s + [x])[i] == if i < |s| then s[i] else x;
    }
  }

  lemma MapPrefixStep<T, U>(s: seq<T>, n: nat, f: T -> U)
    requires n < |s|
    ensures Map(s[..n + 1], f) == Map(s[..n], f) + [f(s[n])]
  {
    assert s[..n + 1] == s[..n] + [s[n]];
    MapSnoc(s[..n], s[n], f);
  }

  lemma MapWhole<T, U>(s: seq<T>, f: T -> U)
    ensures Map(s[..|s|], f) == Map(s, f)
  {
    assert s[..|s|] == s;
  }

  /** Each item keeps its position and its other fields, only its thumbnail
      is resolved, and none is left with a missing or placeholder thumbnail. */
  lemma ProcessedAllSpec(items: seq<Article>, sc: Scanners)
    ensures |ProcessedAll(items, sc)| == |items|
    ensures forall i :: 0 <= i < |items| ==> ProcessedAll(items, sc)[i] == Processed(items[i], sc)
    ensures forall i :: 0 <= i < |items| ==> !IsPlaceholder(ProcessedAll(items, sc)[i].thumbnail)
  {
    var r := ProcessedAll(items, sc);
    forall i | 0 <= i < |items|
      ensures r[i] == Processed(items[i], sc) && !IsPlaceholder(r[i].thumbnail)
    {
      assert r[i] == Resolver(sc)(items[i]);
    }
  }

  /** The callback applied to one item: the item with its thumbnail resolved. */
  method ResolveItem(a: Article, sc: Scanners) returns (b: Article)
    ensures b == Resolver(sc)(a)
  {
    var thumbnail := ResolveThumbnail(a, sc);
    b := a.(thumbnail := Some(thumbnail));
    assert b == Processed(a, sc);
  }

  /** `data.items.map(...)`, item by item. */
  method ProcessArticles(items: seq<Article>, sc: Scanners) returns (out: seq<Article>)
    ensures out == ProcessedAll(items, sc)
  {
    out := [];
    var n := 0;
    while n < |items|
      invariant n <= |items|
      invariant out == Map(items[..n], Resolver(sc))
    {
      var item := ResolveItem(items[n], sc);
      MapPrefixStep(items, n, Resolver(sc));
      out := out + [item];
      n := n + 1;
    }
    MapWhole(items, Resolver(sc));
  }

  // ---------------------------------------------------------------------------
  // truncateText

  /** Some `>` stands after index `i`. */
  predicate CloseAfter(t: string, i: nat) {
    exists j :: i < j < |t| && t[j] == '>'
  }

  /** A match of `/<[^>]+>/` starts at index `i`: a `<`, at least one
      character that is not `>`, then a `>` further on. */
  predicate TagAt(t: string, i: nat)
    requires i < |t|
  {
    t[i] == '<' && i + 1 < |t| && t[i + 1] != '>' && CloseAfter(t, i + 1)
  }

  predicate NoTags(t: string) {
    forall i :: 0 <= i < |t| ==> !TagAt(t, i)
  }

  lemma CloseAfterShift(c: char, t: string, i: nat)
    ensures CloseAfter([c] + t, i + 1) <==> CloseAfter(t, i)
  {
    var r := [c] + t;
    if CloseAfter(r, i + 1) {
      var j :| i + 1 < j < |r| && r[j] == '>';
      assert t[j - 1] == '>';
    }
    if CloseAfter(t, i) {
      var j :| i < j < |t| && t[j] == '>';
      assert r[j + 1] == '>';
    }
  }

  /** The first `>` at or after index `i`. */
  function CloseFrom(s: string, i: nat): (r: Option<nat>)
    decreases |s| - i
    ensures r.Some? ==> i <= r.value < |s| && s[r.value] == '>'
    ensures r.Some? ==> forall k :: i <= k < r.value ==> s[k] != '>'
    ensures r.None? ==> forall k :: i <= k < |s| ==> s[k] != '>'
  {
    if i >= |s| then None
    else if s[i] == '>' then Some(i)
    else CloseFrom(s, i + 1)
  }

  /** `text.replace(/<[^>]+>/g, '')`: every match, scanning left to right,
      is removed. */
  function StripTags(s: string): (r: string)
    decreases |s|
    ensures |r| <= |s|
    ensures forall c :: c in r ==> c in s
  {
    if s == [] then []
    else if TagAt(s, 0) then
      match CloseFrom(s, 2)
      case Some(j) => StripTags(s[j + 1..])
      case None => assert false; []
    else [s[0]] + StripTags(s[1..])
  }

  /** A string that starts with a character other than `<` keeps it in front. */
  lemma StripTagsKeepsHead(s: string)
    requires s != [] && s[0] != '<'
    ensures StripTags(s) == [s[0]] + StripTags(s[1..])
  {
  }

  /** Nothing the pattern would match survives the global replacement. */
  lemma {:induction false} StripTagsLeavesNoTags(s: string)
    decreases |s|
    ensures NoTags(StripTags(s))
  {
    if s == [] {
    } else if TagAt(s, 0) {
      var j := CloseFrom(s, 2).value;
      StripTagsLeavesNoTags(s[j + 1..]);
    } else {
      var rest := StripTags(s[1..]);
      StripTagsLeavesNoTags(s[1..]);
      var r := [s[0]] + rest;
      assert StripTags(s) == r;
      forall i | 0 <= i < |r| ensures !TagAt(r, i) {
        if i > 0 {
          CloseAfterShift(s[0], rest, i);
          assert TagAt(r, i) == TagAt(rest, i - 1);
        } else if s[0] == '<' && |r| > 1 {
          if s[1] == '>' {
            StripTagsKeepsHead(s[1..]);
            assert r[1] == '>';
          } else {
            // no `>` after index 1 of `s`, so none in what is kept of it
            assert forall m :: 1 <= m < |s| ==> s[m] != '>';
            assert forall c :: c in s[1..] ==> c != '>';
            forall k | 1 < k < |r| ensures r[k] != '>' {
              assert r[k] in rest;
            }
          }
        }
      }
    }
  }

  /** Text with nothing the pattern matches comes through unchanged. */
  lemma {:induction false} TagFreeUnchanged(s: string)
    requires NoTags(s)
    decreases |s|
    ensures StripTags(s) == s
  {
    if s != [] {
      var t := s[1..];
      assert [s[0]] + t == s;
      forall i | 0 <= i < |t| ensures !TagAt(t, i) {
        CloseAfterShift(s[0], t, i + 1);
        assert TagAt(t, i) == TagAt(s, i + 1);
      }
      assert !TagAt(s, 0);
      TagFreeUnchanged(t);
    }
  }

  /** A tag is removed and the text before it, which holds no `<`, is kept:
      the replacement deletes exactly the matched tags. */
  lemma {:induction false} StripTagsAroundTag(a: string, x: string, b: string)
    requires '<' !in a && x != "" && '>' !in x
    decreases |a|
    ensures StripTags(a + "<" + x + ">" + b) == a + StripTags(b)
  {
    var s := a + "<" + x + ">" + b;
    if a == [] {
      assert s == "<" + x + ">" + b;
      var e := 1 + |x|;
      assert s[e] == '>';
      assert s[1] == x[0] && x[0] in x;
      assert TagAt(s, 0);
      forall k | 2 <= k < e ensures s[k] != '>' {
        assert s[k] == x[k - 1];
      }
      assert CloseFrom(s, 2) == Some(e);
      assert s[e + 1..] == b;
    } else {
      assert s[0] == a[0] && a[0] in a;
      StripTagsKeepsHead(s);
      assert s[1..] == a[1..] + "<" + x + ">" + b;
      StripTagsAroundTag(a[1..], x, b);
      assert [a[0]] + a[1..] == a;
    }
  }

  /** `truncateText` (lines 188-193): lengths are JavaScript's, in UTF-16
      code units, and the cut keeps the characters that fit in the limit. */
  function TruncateText(text: string, maxLength: int): string {
    var stripped := StripTags(text);
    if Utf16Length(stripped) > maxLength then stripped[..CutIndex(stripped, maxLength)] + "..." else stripped
  }

  /** A prefix followed by an ellipsis has no tags when the whole had none. */
  lemma EllipsisKeepsNoTags(s: string, n: nat)
    requires n <= |s| && NoTags(s)
    ensures NoTags(s[..n] + "...")
  {
    var r := s[..n] + "...";
    forall i | 0 <= i < |r| ensures !TagAt(r, i) {
      if i + 1 < n {
        assert !TagAt(s, i);
        if !CloseAfter(s, i + 1) {
          forall k | i + 1 < k < |r| ensures r[k] != '>' {
            if k < n { assert r[k] == s[k]; } else { assert r[k] == '.'; }
          }
        }
      } else if i + 1 == n {
        assert r[i + 1] == '.';
      } else if i >= n {
        assert r[i] == '.';
      }
    }
  }

  /** The excerpt: a text whose tag-free form is no longer than the limit
      (in UTF-16 code units) is shown whole; a longer one keeps the longest
      prefix that fits in the limit, which reaches the limit unless the next
      character is a surrogate pair, and gets "...". Either way no tag is
      left in it. */
  lemma TruncateTextSpec(text: string, maxLength: int)
    ensures var s := StripTags(text);
            var r := TruncateText(text, maxLength);
            (Utf16Length(s) <= maxLength ==> r == s)
            && (Utf16Length(s) > maxLength ==>
                  var k := CutIndex(s, maxLength);
                  && |r| == k + 3 && r[..k] == s[..k] && r[k..] == "..."
                  && Utf16Length(r[..k]) <= (if maxLength < 0 then 0 else maxLength)
                  && (forall j :: k < j <= |s| ==> Utf16Length(s[..j]) > maxLength)
                  && (0 <= maxLength && k < |s| && CodeUnits(s[k]) == 1 ==> Utf16Length(r[..k]) == maxLength))
            && NoTags(r)
  {
    var s := StripTags(text);
    StripTagsLeavesNoTags(text);
    if Utf16Length(s) > maxLength {
      var k := CutIndex(s, maxLength);
      forall j | k < j <= |s| ensures Utf16Length(s[..j]) > maxLength {
        CutIndexLongest(s, maxLength, j);
      }
      if k < |s| {
        CutIndexShortfall(s, maxLength);
      }
      var r := s[..k] + "...";
      assert TruncateText(text, maxLength) == r;
      assert r[..k] == s[..k];
      EllipsisKeepsNoTags(s, k);
    }
  }
}
