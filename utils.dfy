/**
 * `Utils.getYoutubeId` (lib/utils.js): a priority decision over three regular
 * expressions. Each expression is given twice: as a ghost predicate that
 * follows the expression's structure (`YoutubeAt`, `UriAt`, `PathAt`), and as a
 * left-to-right scan that the decision runs; a lemma connects the two
 * (`YoutubeCaptureIsLeftmost`, `UriScanIsRegex`, `PathScanIsRegex`).
 */
module YoutubeId {
  import opened Wrappers
  import opened Text

  /** `\w` of a JavaScript regex. */
  predicate IsWord(c: char) {
    ('a' <= c <= 'z') || ('A' <= c <= 'Z') || ('0' <= c <= '9') || c == '_'
  }

  /** `[\w\-\_]`, the characters of a video id. */
  predicate IsIdChar(c: char) {
    IsWord(c) || c == '-'
  }

  /** `\s` of a JavaScript regex. */
  predicate IsSpace(c: char) {
    c == ' ' || c == '\t' || c == '\n' || c == '\r' || c == '\U{000B}' || c == '\U{000C}'
    || c == '\U{00A0}' || c == '\U{1680}' || ('\U{2000}' <= c <= '\U{200A}')
    || c == '\U{2028}' || c == '\U{2029}' || c == '\U{202F}' || c == '\U{205F}'
    || c == '\U{3000}' || c == '\U{FEFF}'
  }

  /** `[\\/]`, a path separator. */
  predicate IsSep(c: char) {
    c == '\\' || c == '/'
  }

  // ---------------------------------------------------------------------------
  // YOUTUBE_REGEX (lib/utils.js:2)
  //
  // `(?:https?://)?(?:www\.)?(?:music\.)?youtu(?:be\.com/watch\?v=|\.be/)([\w\-\_]*)(...)?`
  // Every part before `youtu` is optional and none of them contains a `y`, so
  // the leftmost match has its `youtu` at the first position where one of the
  // two link forms starts, and the greedy group captures the longest run of id
  // characters after it (the trailing group is optional and never shortens it).

  const WatchLink := "youtube.com/watch?v="
  const ShortLink := "youtu.be/"

  /** Length of the link form starting at `i`, if one does. */
  function LinkAt(s: string, i: nat): (r: Option<nat>)
    ensures r.Some? ==> i + r.value <= |s|
  {
    if StartsAt(s, i, WatchLink) then Some(|WatchLink|)
    else if StartsAt(s, i, ShortLink) then Some(|ShortLink|)
    else None
  }

  /** The first position at or after `i` where a link form starts. */
  function LinkFrom(s: string, i: nat): (r: Option<nat>)
    decreases |s| - i
    ensures r.Some? ==> i <= r.value && LinkAt(s, r.value).Some?
    ensures r.Some? ==> forall q :: i <= q < r.value ==> LinkAt(s, q).None?
    ensures r.None? ==> forall q :: i <= q ==> LinkAt(s, q).None?
  {
    if i >= |s| then None
    else if LinkAt(s, i).Some? then Some(i)
    else LinkFrom(s, i + 1)
  }

  /** Length of the longest run of id characters starting at `from`. */
  function IdRun(s: string, from: nat): (n: nat)
    requires from <= |s|
    decreases |s| - from
    ensures from + n <= |s|
    ensures forall k :: from <= k < from + n ==> IsIdChar(s[k])
    ensures from + n == |s| || !IsIdChar(s[from + n])
  {
    if from == |s| || !IsIdChar(s[from]) then 0 else 1 + IdRun(s, from + 1)
  }

  /** Group 1 of a match whose `youtu` is at `c`: the greedy run of id characters after the link form. */
  function GroupAt(s: string, c: nat): string
    requires LinkAt(s, c).Some?
  {
    var from := c + LinkAt(s, c).value;
    s[from..from + IdRun(s, from)]
  }

  /** Group 1 of `obj.match(YOUTUBE_REGEX)`, or None when there is no match. */
  function YoutubeCapture(s: string): (r: Option<string>)
    ensures r.None? <==> forall q :: LinkAt(s, q).None?
    ensures r.Some? ==> forall k :: 0 <= k < |r.value| ==> IsIdChar(r.value[k])
  {
    match LinkFrom(s, 0)
    case None => None
    case Some(q) => Some(GroupAt(s, q))
  }

  /** `(?:http(?:s?):\/\/)?`: absent, `http://` or `https://`. */
  predicate Scheme(w: string) {
    w == "" || w == "http://" || w == "https://"
  }

  /** `(?:www\.)?` */
  predicate Www(w: string) {
    w == "" || w == "www."
  }

  /** `(?:music\.)?` */
  predicate Music(w: string) {
    w == "" || w == "music."
  }

  /** `w` is what the three optional groups before `youtu` consume together. */
  ghost predicate PrefixShaped(w: string) {
    exists i: nat, j: nat :: i <= j <= |w| && Scheme(w[..i]) && Www(w[i..j]) && Music(w[j..])
  }

  /**
   * YOUTUBE_REGEX matches starting at `p`, its optional groups consuming
   * `s[p..c]` and `youtu` followed by a link form at `c`. Group 1 is then
   * `GroupAt(s, c)`: the greedy `[\w\-\_]*` is followed only by an optional
   * group, so it is never shortened.
   */
  ghost predicate YoutubeAt(s: string, p: nat, c: nat) {
    p <= c <= |s| && PrefixShaped(s[p..c]) && LinkAt(s, c).Some?
  }

  /** No optional group's text contains a `y`. */
  lemma PartHasNoY(w: string)
    requires Scheme(w) || Www(w) || Music(w)
    ensures 'y' !in w
  {
  }

  /** An element missing from three consecutive slices is missing from the whole. */
  lemma AbsentFromThirds<T>(w: seq<T>, i: nat, j: nat, x: T)
    requires i <= j <= |w|
    requires x !in w[..i] && x !in w[i..j] && x !in w[j..]
    ensures x !in w
  {
    assert w == w[..i] + w[i..j] + w[j..];
  }

  /** Whatever the optional groups consume together contains no `y`. */
  lemma ShapedHasNoY(w: string)
    requires PrefixShaped(w)
    ensures 'y' !in w
  {
    var i: nat, j: nat :| i <= j <= |w| && Scheme(w[..i]) && Www(w[i..j]) && Music(w[j..]);
    PartHasNoY(w[..i]);
    PartHasNoY(w[i..j]);
    PartHasNoY(w[j..]);
    AbsentFromThirds(w, i, j, 'y');
  }

  /** No position the optional groups consume holds a `y`. */
  lemma PrefixHasNoY(s: string, p: nat, c: nat)
    requires p <= c <= |s| && PrefixShaped(s[p..c])
    ensures forall k :: p <= k < c ==> s[k] != 'y'
  {
    var w := s[p..c];
    ShapedHasNoY(w);
    forall k | p <= k < c ensures s[k] != 'y' {
      assert s[k] == w[k - p] && w[k - p] in w;
    }
  }

  /**
   * `YoutubeCapture` is group 1 of the leftmost match of YOUTUBE_REGEX: there
   * is a match iff a link form occurs; a match starts at the first link form
   * `c0`, so the leftmost one starts at or before it, and every match starting
   * at or before `c0` has its `youtu` at `c0`.
   */
  lemma YoutubeCaptureIsLeftmost(s: string)
    ensures YoutubeCapture(s).None? <==> forall p: nat, c: nat :: !YoutubeAt(s, p, c)
    ensures YoutubeCapture(s).Some? ==>
              var c0 := LinkFrom(s, 0).value;
              && YoutubeAt(s, c0, c0)
              && (forall p: nat, c: nat :: YoutubeAt(s, p, c) && p <= c0 ==> c == c0)
              && YoutubeCapture(s).value == GroupAt(s, c0)
  {
    match LinkFrom(s, 0)
    case None =>
    case Some(c0) =>
      assert c0 <= |s|;
      var empty := s[c0..c0];
      assert empty[..0] == "" && empty[0..0] == "" && empty[0..] == "";
      assert PrefixShaped(empty);
      assert YoutubeAt(s, c0, c0);
      LinkAtNeedsY(s, c0);
      forall p: nat, c: nat | YoutubeAt(s, p, c) && p <= c0 ensures c == c0 {
        PrefixHasNoY(s, p, c);
      }
  }

  /** There is a YouTube link form somewhere in `s`. */
  ghost predicate HasYoutubeLink(s: string) {
    exists q :: LinkAt(s, q).Some?
  }

  // ---------------------------------------------------------------------------
  // URI_REGEX (lib/utils.js:3): `\w+:(\/?\/?)[^\s]+`

  /** The expression matches with `\w+` on `s[i..j]`, the colon at `j` and `m` slashes. */
  ghost predicate UriAt(s: string, i: nat, j: nat, m: nat) {
    i < j && j + 1 + m < |s| && m <= 2
    && (forall k :: i <= k < j ==> IsWord(s[k]))
    && s[j] == ':'
    && (forall k :: j + 1 <= k < j + 1 + m ==> s[k] == '/')
    && !IsSpace(s[j + 1 + m])
  }

  ghost predicate UriShaped(s: string) {
    exists i: nat, j: nat, m: nat :: UriAt(s, i, j, m)
  }

  /** A word character, a colon and a non-space character start at `k`. */
  predicate UriHit(s: string, k: nat) {
    k + 2 < |s| && IsWord(s[k]) && s[k + 1] == ':' && !IsSpace(s[k + 2])
  }

  function UriScan(s: string, i: nat): (r: bool)
    decreases |s| - i
    ensures r <==> exists k :: i <= k && UriHit(s, k)
  {
    if i + 2 >= |s| then false
    else UriHit(s, i) || UriScan(s, i + 1)
  }

  lemma UriScanIsRegex(s: string)
    ensures UriScan(s, 0) <==> UriShaped(s)
  {
    if UriScan(s, 0) {
      var k :| 0 <= k && UriHit(s, k);
      assert UriAt(s, k, k + 1, 0);
    }
    if UriShaped(s) {
      var i: nat, j: nat, m: nat :| UriAt(s, i, j, m);
      assert IsWord(s[j - 1]);
      if m > 0 {
        assert s[j + 1] == '/';
      }
      assert UriHit(s, j - 1);
    }
  }

  // ---------------------------------------------------------------------------
  // PATH_REGEX (lib/utils.js:4): `(\\\\?([^\\/]*[\\/])*)([^\\/]+)`
  //
  // The first group is a backslash, an optional backslash and any number of
  // "non-separators then a separator"; what follows the leading backslash is
  // therefore empty or ends with a separator. The third group is a non-empty
  // run of non-separators.

  /** The expression matches with its backslash at `i`, group 3 on `s[k..e]`. */
  ghost predicate PathAt(s: string, i: nat, k: nat, e: nat) {
    i < k < e <= |s| && s[i] == '\\'
    && (k == i + 1 || IsSep(s[k - 1]))
    && (forall t :: k <= t < e ==> !IsSep(s[t]))
  }

  ghost predicate PathShaped(s: string) {
    exists i: nat, k: nat, e: nat :: PathAt(s, i, k, e)
  }

  /** The first non-separator at or after `j`. */
  function NonSepFrom(s: string, j: nat): (r: Option<nat>)
    decreases |s| - j
    ensures r.Some? ==> j <= r.value < |s| && !IsSep(s[r.value])
    ensures r.Some? ==> forall t :: j <= t < r.value ==> IsSep(s[t])
    ensures r.None? ==> forall t :: j <= t < |s| ==> IsSep(s[t])
  {
    if j >= |s| then None
    else if !IsSep(s[j]) then Some(j)
    else NonSepFrom(s, j + 1)
  }

  /** A backslash at or after `i` with a non-separator somewhere after it. */
  function PathScan(s: string, i: nat): (r: bool)
    decreases |s| - i
    ensures r <==> exists b :: i <= b < |s| && s[b] == '\\' && NonSepFrom(s, b + 1).Some?
  {
    if i >= |s| then false
    else (s[i] == '\\' && NonSepFrom(s, i + 1).Some?) || PathScan(s, i + 1)
  }

  lemma PathScanIsRegex(s: string)
    ensures PathScan(s, 0) <==> PathShaped(s)
  {
    if PathScan(s, 0) {
      var b :| 0 <= b < |s| && s[b] == '\\' && NonSepFrom(s, b + 1).Some?;
      var k := NonSepFrom(s, b + 1).value;
      assert k > b + 1 ==> IsSep(s[k - 1]);
      assert PathAt(s, b, k, k + 1);
    }
    if PathShaped(s) {
      var i: nat, k: nat, e: nat :| PathAt(s, i, k, e);
      assert !IsSep(s[k]);
      assert NonSepFrom(s, i + 1).Some?;
    }
  }

  // ---------------------------------------------------------------------------
  // getYoutubeId (lib/utils.js:10-27)

  /** The argument: a string, or anything else (an object, a number, undefined). */
  datatype Arg = Str(s: string) | NonString

  /**
   * A YouTube link wins and yields its id; otherwise anything that looks like a
   * URI or a path is not a video; anything else is taken as a bare video id.
   */
  function GetYoutubeId(obj: Arg): (r: Option<string>)
    ensures obj.NonString? || obj.s == "" ==> r == None
    ensures obj.Str? && obj.s != "" && HasYoutubeLink(obj.s) ==>
      r == YoutubeCapture(obj.s) && r.Some?
    ensures obj.Str? && !HasYoutubeLink(obj.s) && (UriShaped(obj.s) || PathShaped(obj.s)) ==>
      r == None
    ensures obj.Str? && obj.s != "" && !HasYoutubeLink(obj.s) && !UriShaped(obj.s) && !PathShaped(obj.s) ==>
      r == Some(obj.s)
  {
    match obj
    case NonString => None
    case Str(s) =>
      UriScanIsRegex(s);
      PathScanIsRegex(s);
      if s == "" then None
      else match YoutubeCapture(s)
        case Some(id) => Some(id)
        case None =>
          if UriScan(s, 0) || PathScan(s, 0) then None else Some(s)
  }

  /** Whenever an id is extracted from a link, it is made of id characters only. */
  lemma ExtractedIdIsClean(s: string)
    requires HasYoutubeLink(s)
    ensures GetYoutubeId(Str(s)).Some?
    ensures forall k :: 0 <= k < |GetYoutubeId(Str(s)).value| ==> IsIdChar(GetYoutubeId(Str(s)).value[k])
  {
  }

  /** Both link forms start with a `y`. */
  lemma LinkAtNeedsY(s: string, k: nat)
    requires LinkAt(s, k).Some?
    ensures k < |s| && s[k] == 'y'
  {
    if StartsAt(s, k, WatchLink) {
      assert s[k..k + |WatchLink|][0] == 'y';
    } else {
      assert s[k..k + |ShortLink|][0] == 'y';
    }
  }

  lemma UriNeedsColon(s: string)
    requires UriShaped(s)
    ensures ':' in s
  {
    var i: nat, j: nat, m: nat :| UriAt(s, i, j, m);
    assert s[j] == ':';
  }

  lemma PathNeedsBackslash(s: string)
    requires PathShaped(s)
    ensures '\\' in s
  {
    var i: nat, k: nat, e: nat :| PathAt(s, i, k, e);
    assert s[i] == '\\';
  }

  /** A run of id characters reaching the end of the string is captured whole. */
  lemma IdRunToEnd(s: string, from: nat)
    requires from <= |s|
    requires forall k :: from <= k < |s| ==> IsIdChar(s[k])
    ensures IdRun(s, from) == |s| - from
  {
  }

  /** A watch link is recognised although it also looks like a URI. */
  lemma WatchLinkWinsOverUri(s: string)
    requires s == "https://www." + "youtube.com/watch?v=" + "LqYIKYEnX7Y"
    ensures GetYoutubeId(Str(s)) == Some("LqYIKYEnX7Y")
  {
    var a, b, c := "https://www.", "youtube.com/watch?v=", "LqYIKYEnX7Y";
    assert s[12..32] == b;
    assert LinkAt(s, 12) == Some(20);
    forall q | 0 <= q < 12 ensures LinkAt(s, q).None? {
      assert s[q] == a[q];
      if LinkAt(s, q).Some? {
        LinkAtNeedsY(s, q);
      }
    }
    assert LinkFrom(s, 0) == Some(12);
    forall k | 32 <= k < |s| ensures IsIdChar(s[k]) {
      assert s[k] == c[k - 32];
    }
    IdRunToEnd(s, 32);
    assert s[32..43] == c;
  }

  /** A bare id is returned as it is. */
  lemma BareIdKept(s: string)
    requires s == "Z7R8XRKqHAI"
    ensures GetYoutubeId(Str(s)) == Some(s)
  {
    assert 'y' !in s && ':' !in s && '\\' !in s;
    if HasYoutubeLink(s) {
      var q :| LinkAt(s, q).Some?;
      LinkAtNeedsY(s, q);
    }
    if UriShaped(s) {
      UriNeedsColon(s);
    }
    if PathShaped(s) {
      PathNeedsBackslash(s);
    }
  }

  /** A URL that is not a YouTube link is not a video id. */
  lemma OtherUrlRejected(s: string)
    requires s == "https://example.com/video.mp4"
    ensures GetYoutubeId(Str(s)) == None
  {
    assert 'y' !in s;
    if HasYoutubeLink(s) {
      var q :| LinkAt(s, q).Some?;
      LinkAtNeedsY(s, q);
    }
    assert s[4] == 's' && s[5] == ':' && s[6] == '/';
    assert UriAt(s, 4, 5, 0);
  }
}
