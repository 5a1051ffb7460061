/**
 * The two regular expressions of the row builder in
 * netlify/functions/ingest.ts, written out as explicit scanners:
 *
 *  - `/<img[^>]+src="([^">]+)"/`, the first image source in a summary, and
 *  - `/<[^>]*>?/gm` replaced by "", the tag stripper.
 *
 * `ImgMatch` states what a match of the first pattern is; `FirstImgSrc`
 * finds the match a backtracking engine reports (leftmost start, and for
 * that start the longest `[^>]+`, because the quantifier is greedy).
 */
module HtmlScan {
  import opened Values

  const ImgOpen := "<img"
  const SrcOpen := "src=\""
  const SummaryLimit := 200

  /** The first index at or after `i` whose character is in `stops`, or `|s|`. */
  function IndexOfAny(s: string, i: nat, stops: set<char>): (k: nat)
    requires i <= |s|
    ensures i <= k <= |s|
    ensures forall j :: i <= j < k ==> s[j] !in stops
    ensures k < |s| ==> s[k] in stops
    decreases |s| - i
  {
    if i == |s| || s[i] in stops then i else IndexOfAny(s, i + 1, stops)
  }

  /** `src="([^">]+)"` matches at `q`, its closing quote at `e`. */
  ghost predicate CaptureOk(s: string, q: int, e: int) {
    && At(s, q, SrcOpen)
    && q + 5 < e < |s|
    && s[e] == '"'
    && (forall k :: q + 5 <= k < e ==> s[k] != '"' && s[k] != '>')
  }

  /** `<img[^>]+src="([^">]+)"` matches from `p`, with `src="` at `q` and the closing quote at `e`. */
  ghost predicate ImgMatch(s: string, p: int, q: int, e: int) {
    && At(s, p, ImgOpen)
    && p + 4 < q
    && CaptureOk(s, q, e)
    && (forall k :: p + 4 <= k < q ==> s[k] != '>')
  }

  /** The match a backtracking engine reports: leftmost start, then the longest `[^>]+`. */
  ghost predicate FirstMatch(s: string, p: int, q: int, e: int) {
    && ImgMatch(s, p, q, e)
    && forall p', q', e' :: ImgMatch(s, p', q', e') ==> p < p' || (p == p' && q' <= q)
  }

  /** The closing quote of the attribute value that starts at `q`, if `src="…"` is there. */
  function CaptureEnd(s: string, q: nat): (r: Option<nat>)
    ensures forall e :: CaptureOk(s, q, e) <==> r == Some(e)
  {
    if !At(s, q, SrcOpen) then None
    else
      var k := IndexOfAny(s, q + 5, {'"', '>'});
      if k < |s| && s[k] == '"' && k > q + 5 then Some(k) else None
  }

  /** The greedy search: the largest `q` in `(p + 4, hi]` where the attribute matches. */
  function LastSrc(s: string, p: nat, hi: nat): (r: Option<(nat, nat)>)
    ensures r.Some? ==> p + 4 < r.value.0 <= hi && CaptureOk(s, r.value.0, r.value.1)
    ensures r.Some? ==> forall q, e :: r.value.0 < q <= hi ==> !CaptureOk(s, q, e)
    ensures r.None? ==> forall q, e :: p + 4 < q <= hi ==> !CaptureOk(s, q, e)
    decreases hi
  {
    if hi <= p + 4 then None
    else match CaptureEnd(s, hi)
      case Some(e) => Some((hi, e))
      case None => LastSrc(s, p, hi - 1)
  }

  /** The leftmost match starting at or after `p`. */
  function FindImg(s: string, p: nat): (r: Option<(nat, nat, nat)>)
    requires p <= |s|
    ensures r.Some? ==> p <= r.value.0 && FirstFrom(s, p, r.value.0, r.value.1, r.value.2)
    ensures r.None? ==> forall p', q, e :: p <= p' ==> !ImgMatch(s, p', q, e)
    decreases |s| - p
  {
    if p == |s| then None
    else if At(s, p, ImgOpen) then
      var hi := IndexOfAny(s, p + 4, {'>'});
      BodyBound(s, p, hi);
      match LastSrc(s, p, hi)
      case Some((q, e)) => Some((p, q, e))
      case None => FindImg(s, p + 1)
    else FindImg(s, p + 1)
  }

  /** `FirstMatch` restricted to starts at or after `from`. */
  ghost predicate FirstFrom(s: string, from: int, p: int, q: int, e: int) {
    && ImgMatch(s, p, q, e)
    && forall p', q', e' :: from <= p' && ImgMatch(s, p', q', e') ==> p < p' || (p == p' && q' <= q)
  }

  /** The `[^>]+` part of a match from `p` ends at or before the first `>` after the tag name. */
  lemma BodyBound(s: string, p: nat, hi: nat)
    requires p + 4 <= |s| && hi == IndexOfAny(s, p + 4, {'>'})
    ensures forall q, e :: ImgMatch(s, p, q, e) <==> At(s, p, ImgOpen) && p + 4 < q <= hi && CaptureOk(s, q, e)
  {
    forall q, e | ImgMatch(s, p, q, e) ensures q <= hi {
      assert hi < |s| ==> s[hi] == '>';
    }
  }

  /** `i.summary.match(/<img[^>]+src="([^">]+)"/)[1]`, None when there is no match. */
  function FirstImgSrc(s: string): (r: Option<string>)
    ensures r.None? <==> forall p, q, e :: !ImgMatch(s, p, q, e)
    ensures r.Some? ==> r.value != "" && '"' !in r.value && '>' !in r.value
  {
    match FindImg(s, 0)
    case None => None
    case Some((p, q, e)) =>
      assert forall k :: q + 5 <= k < e ==> s[k] != '"' && s[k] != '>';
      Some(s[q + 5..e])
  }

  /** The reported source is the capture of the leftmost, greedy match. */
  lemma FirstImgSrcIsFirstMatch(s: string, p: int, q: int, e: int)
    requires FirstMatch(s, p, q, e)
    ensures FirstImgSrc(s) == Some(s[q + 5..e])
  {
    var r := FindImg(s, 0);
    assert r.Some?;
    var (p1, q1, e1) := r.value;
    assert p1 <= p && q <= q1;
    assert p <= p1 && q1 <= q;
    assert e1 == e by {
      assert CaptureEnd(s, q) == Some(e) && CaptureEnd(s, q) == Some(e1);
    }
  }

  /**
   * `replace(/<[^>]*>?/gm, '')`: every `<` starts a tag that runs to the
   * next `>` inclusive, or to the end of the text when no `>` follows.
   */
  function StripTags(s: string): (r: string)
    ensures '<' !in r
    ensures |r| <= |s|
    decreases |s|
  {
    if s == [] then []
    else if s[0] == '<' then
      var close := IndexOfAny(s, 1, {'>'});
      StripTags(s[if close < |s| then close + 1 else close..])
    else [s[0]] + StripTags(s[1..])
  }

  /** Text without a `<` passes through unchanged. */
  lemma {:induction false} StripTagsOfPlainText(s: string)
    requires '<' !in s
    ensures StripTags(s) == s
    decreases |s|
  {
    if s != [] {
      StripTagsOfPlainText(s[1..]);
    }
  }

  /** Stripping twice is stripping once. */
  lemma StripTagsIdempotent(s: string)
    ensures StripTags(StripTags(s)) == StripTags(s)
  {
    StripTagsOfPlainText(StripTags(s));
  }

  /** Text before the first `<` is kept verbatim, in front of the stripped rest. */
  lemma {:induction false} StripTagsKeepsLeadingText(a: string, b: string)
    requires '<' !in a
    ensures StripTags(a + b) == a + StripTags(b)
    decreases |a|
  {
    if a != [] {
      var ab := a + b;
      assert a[0] in a && ab[0] == a[0] && ab[1..] == a[1..] + b;
      assert forall c :: c in a[1..] ==> c in a;
      assert StripTags(ab) == [ab[0]] + StripTags(ab[1..]);
      StripTagsKeepsLeadingText(a[1..], b);
      assert a == [a[0]] + a[1..];
    } else {
      assert a + b == b;
    }
  }

  /** A tag closed by `>` is removed, up to and including the `>`, and the text after it is stripped in turn. */
  lemma StripTagsDropsTag(a: string, t: string, b: string)
    requires '<' !in a && '>' !in t
    ensures StripTags(a + "<" + t + ">" + b) == a + StripTags(b)
  {
    var s := "<" + t + ">" + b;
    assert a + "<" + t + ">" + b == a + s;
    StripTagsKeepsLeadingText(a, s);
    var close := IndexOfAny(s, 1, {'>'});
    assert s[|t| + 1] == '>';
    assert forall j :: 1 <= j <= |t| ==> s[j] == t[j - 1];
    assert close == |t| + 1;
    assert s[close + 1..] == b;
  }

  /** A `<` with no `>` after it removes the rest of the text. */
  lemma StripTagsDropsUnclosed(a: string, t: string)
    requires '<' !in a && '>' !in t
    ensures StripTags(a + "<" + t) == a
  {
    var s := "<" + t;
    assert a + "<" + t == a + s;
    StripTagsKeepsLeadingText(a, s);
    var close := IndexOfAny(s, 1, {'>'});
    assert forall j :: 1 <= j < |s| ==> s[j] == t[j - 1];
    assert close == |s|;
    assert s[close..] == [];
  }

  /** `summary.replace(/<[^>]*>?/gm, '').substring(0, 200)` */
  function CleanSummary(raw: string): (r: string)
    ensures '<' !in r
    ensures |r| <= SummaryLimit
    ensures |r| == if |StripTags(raw)| < SummaryLimit then |StripTags(raw)| else SummaryLimit
    ensures r == StripTags(raw)[..|r|]
  {
    var t := StripTags(raw);
    var r := t[..if |t| < SummaryLimit then |t| else SummaryLimit];
    assert forall c :: c in r ==> c in t;
    r
  }
}
