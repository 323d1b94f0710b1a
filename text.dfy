/**
 * String helpers shared by the discovery code: `indexOf`, the two forms of
 * `String.prototype.replace` used (first occurrence of a string, every
 * occurrence of a global pattern), the lazy tag regex `<TAG>(.+?)</TAG>`, and
 * JavaScript truthiness of an optional string.
 */
module Text {
  import opened Wrappers

  /** A JavaScript string value that is neither null/undefined nor "". */
  predicate Truthy(o: Option<string>) {
    o.Some? && o.value != ""
  }

  /** `x || fallback` for an optional string and a string fallback. */
  function Or(x: Option<string>, fallback: string): (r: string)
    ensures Truthy(x) ==> r == x.value
    ensures !Truthy(x) ==> r == fallback
  {
    if Truthy(x) then x.value else fallback
  }

  /** `x || y` for two optional strings. */
  function OrOption(x: Option<string>, y: Option<string>): (r: Option<string>)
    ensures Truthy(x) ==> r == x
    ensures !Truthy(x) ==> r == y
  {
    if Truthy(x) then x else y
  }

  /** Appending to a log in two steps is appending the two parts at once. */
  lemma ConcatAssoc<T>(a: seq<T>, b: seq<T>, c: seq<T>)
    ensures (a + b) + c == a + (b + c)
  {
  }

  /** `pat` occurs in `s` at position `i`. */
  predicate StartsAt(s: string, i: nat, pat: string) {
    i + |pat| <= |s| && s[i..i + |pat|] == pat
  }

  /** The first position at or after `from` where `pat` occurs. */
  function IndexFrom(s: string, pat: string, from: nat): (r: Option<nat>)
    decreases |s| - from
    ensures r.Some? ==> from <= r.value && StartsAt(s, r.value, pat)
    ensures r.Some? ==> forall j :: from <= j < r.value ==> !StartsAt(s, j, pat)
    ensures r.None? ==> forall j :: from <= j ==> !StartsAt(s, j, pat)
  {
    if from + |pat| > |s| then None
    else if StartsAt(s, from, pat) then Some(from)
    else IndexFrom(s, pat, from + 1)
  }

  /** `s.indexOf(pat) !== -1`. */
  predicate Contains(s: string, pat: string) {
    IndexFrom(s, pat, 0).Some?
  }

  lemma ContainsIff(s: string, pat: string)
    ensures Contains(s, pat) <==> exists j :: StartsAt(s, j, pat)
  {
    if !Contains(s, pat) {
      forall j ensures !StartsAt(s, j, pat) {
      }
    }
  }

  /** A pattern with a character that `s` lacks does not occur in `s`. */
  lemma AbsentCharExcludes(s: string, pat: string, k: nat)
    requires k < |pat| && pat[k] !in s
    ensures !Contains(s, pat)
  {
    ContainsIff(s, pat);
    forall j: nat ensures !StartsAt(s, j, pat) {
      if j + |pat| <= |s| {
        assert s[j..j + |pat|][k] == s[j + k] && s[j + k] in s;
      }
    }
  }

  /** `s.replace(pat, '')` with a string pattern: only the first occurrence goes. */
  function RemoveFirst(s: string, pat: string): (r: string)
    ensures IndexFrom(s, pat, 0).None? ==> r == s
    ensures IndexFrom(s, pat, 0).Some? ==>
      var i := IndexFrom(s, pat, 0).value;
      r == s[..i] + s[i + |pat|..]
  {
    match IndexFrom(s, pat, 0)
    case None => s
    case Some(i) => s[..i] + s[i + |pat|..]
  }

  /** Removing a suffix whose only occurrence is at the end gives back the prefix. */
  lemma RemoveFirstSuffix(x: string, pat: string)
    requires forall j :: 0 <= j < |x| ==> !StartsAt(x + pat, j, pat)
    ensures RemoveFirst(x + pat, pat) == x
  {
    assert StartsAt(x + pat, |x|, pat) by {
      assert (x + pat)[|x|..|x| + |pat|] == pat;
    }
    var r := IndexFrom(x + pat, pat, 0);
    assert r == Some(|x|);
    assert (x + pat)[..|x|] == x;
    assert (x + pat)[|x| + |pat|..] == [];
  }

  /** A suffix is stripped exactly when its first character is absent from what precedes it. */
  lemma RemoveFirstSuffixPlain(x: string, pat: string)
    requires |pat| > 0 && pat[0] !in x
    ensures RemoveFirst(x + pat, pat) == x
  {
    forall j | 0 <= j < |x| ensures !StartsAt(x + pat, j, pat) {
      assert (x + pat)[j] == x[j];
      assert x[j] in x;
      assert (x + pat)[j..j + |pat|][0] == (x + pat)[j];
    }
    RemoveFirstSuffix(x, pat);
  }

  /**
   * A pattern whose first character is missing leaves the string as it is;
   * as a suffix after a prefix without that character, it leaves the prefix.
   */
  lemma RemoveFirstPlain(s: string, pat: string)
    requires |pat| > 0
    ensures pat[0] !in s ==> RemoveFirst(s, pat) == s
    ensures |pat| <= |s| && s[|s| - |pat|..] == pat && pat[0] !in s[..|s| - |pat|] ==>
              RemoveFirst(s, pat) == s[..|s| - |pat|]
  {
    if pat[0] !in s {
      forall j | 0 <= j ensures !StartsAt(s, j, pat) {
        if j + |pat| <= |s| {
          assert s[j..j + |pat|][0] == s[j] && s[j] in s;
        }
      }
    }
    if |pat| <= |s| && s[|s| - |pat|..] == pat && pat[0] !in s[..|s| - |pat|] {
      var x := s[..|s| - |pat|];
      assert s == x + pat;
      RemoveFirstSuffixPlain(x, pat);
    }
  }

  /** `s.replace(/pat/g, '')`: every non-overlapping occurrence, scanned left to right. */
  function RemoveAll(s: string, pat: string): (r: string)
    requires |pat| > 0
    decreases |s|
    ensures |r| <= |s|
  {
    if |s| == 0 then []
    else if StartsAt(s, 0, pat) then RemoveAll(s[|pat|..], pat)
    else [s[0]] + RemoveAll(s[1..], pat)
  }

  /** Removal only deletes characters: what is left is a sub-multiset of the input. */
  lemma {:induction false} RemoveAllWithin(s: string, pat: string)
    requires |pat| > 0
    ensures multiset(RemoveAll(s, pat)) <= multiset(s)
    decreases |s|
  {
    if |s| > 0 {
      if StartsAt(s, 0, pat) {
        RemoveAllWithin(s[|pat|..], pat);
        assert s == s[..|pat|] + s[|pat|..];
      } else {
        RemoveAllWithin(s[1..], pat);
        assert s == [s[0]] + s[1..];
      }
    }
  }

  /** Removing every occurrence of a one-character pattern keeps exactly the other characters. */
  lemma {:induction false} RemoveAllChar(s: string, c: char)
    ensures multiset(RemoveAll(s, [c])) == multiset(s)[c := 0]
    ensures c !in RemoveAll(s, [c])
    decreases |s|
  {
    if |s| > 0 {
      RemoveAllChar(s[1..], c);
      assert s == [s[0]] + s[1..];
      if StartsAt(s, 0, [c]) {
        assert s[0] == c;
      } else {
        assert s[..1] == [s[0]];
        assert s[0] != c;
      }
    }
  }

  /** A pattern whose first character does not occur is never removed. */
  lemma {:induction false} RemoveAllAbsent(s: string, pat: string)
    requires |pat| > 0 && pat[0] !in s
    ensures RemoveAll(s, pat) == s
    decreases |s|
  {
    if |s| > 0 {
      assert s[0] in s;
      assert !StartsAt(s, 0, pat);
      assert forall c | c in s[1..] :: c in s;
      RemoveAllAbsent(s[1..], pat);
      assert s == [s[0]] + s[1..];
    }
  }

  /** A one-character pattern removed from itself leaves nothing. */
  lemma RemoveAllSelf(c: char)
    ensures RemoveAll([c], [c]) == []
  {
    assert StartsAt([c], 0, [c]);
    assert [c][1..] == [];
  }

  /** Removing a one-character pattern distributes over concatenation. */
  lemma {:induction false} RemoveAllCharConcat(x: string, y: string, c: char)
    ensures RemoveAll(x + y, [c]) == RemoveAll(x, [c]) + RemoveAll(y, [c])
    decreases |x|
  {
    if |x| > 0 {
      RemoveAllCharConcat(x[1..], y, c);
      assert (x + y)[1..] == x[1..] + y;
      assert (x + y)[0] == x[0];
      assert StartsAt(x + y, 0, [c]) <==> x[0] == c;
      assert StartsAt(x, 0, [c]) <==> x[0] == c;
    } else {
      assert x + y == y;
    }
  }

  /** Terminators that `.` in a JavaScript regex does not match. */
  predicate LineTerminator(c: char) {
    c == '\n' || c == '\r' || c == '\U{2028}' || c == '\U{2029}'
  }

  /** No line terminator in `s[a..b]`. */
  ghost predicate Plain(s: string, a: nat, b: nat) {
    forall k :: a <= k < b && k < |s| ==> !LineTerminator(s[k])
  }

  /** `open (.+?) close` matches `s` from `p`, with the close tag at `e`. */
  ghost predicate TagAt(s: string, open: string, close: string, p: nat, e: nat) {
    StartsAt(s, p, open) && p + |open| < e && StartsAt(s, e, close) && Plain(s, p + |open|, e)
  }

  /** The lazy `(.+?)`: the first close tag at or after `j`, on the same line as `start`. */
  function CloseFrom(s: string, close: string, start: nat, j: nat): (r: Option<nat>)
    requires start < j <= |s| && Plain(s, start, j)
    decreases |s| - j
    ensures r.Some? ==> j <= r.value && StartsAt(s, r.value, close) && Plain(s, start, r.value)
    ensures r.Some? ==> forall e :: j <= e < r.value ==> !StartsAt(s, e, close)
    ensures r.None? ==> forall e :: j <= e ==> !(StartsAt(s, e, close) && Plain(s, start, e))
  {
    if StartsAt(s, j, close) then Some(j)
    else if j == |s| || LineTerminator(s[j]) then None
    else CloseFrom(s, close, start, j + 1)
  }

  /** A match of `open (.+?) close`: the open tag at `at`, the close tag at `end`. */
  datatype Span = Span(at: nat, end: nat)

  /** Leftmost match starting at or after `p`; for that start, the shortest content. */
  function TagFrom(s: string, open: string, close: string, p: nat): (r: Option<Span>)
    decreases |s| - p
    ensures r.Some? ==> p <= r.value.at && TagAt(s, open, close, r.value.at, r.value.end)
    ensures r.Some? ==> forall q: nat, e: nat :: p <= q < r.value.at ==> !TagAt(s, open, close, q, e)
    ensures r.Some? ==> forall e: nat :: e < r.value.end ==> !TagAt(s, open, close, r.value.at, e)
    ensures r.None? ==> forall q: nat, e: nat :: p <= q ==> !TagAt(s, open, close, q, e)
  {
    if p + |open| >= |s| then None
    else if StartsAt(s, p, open) && !LineTerminator(s[p + |open|])
      && CloseFrom(s, close, p + |open|, p + |open| + 1).Some?
    then Some(Span(p, CloseFrom(s, close, p + |open|, p + |open| + 1).value))
    else TagFrom(s, open, close, p + 1)
  }

  function OpenTag(tag: string): string { "<" + tag + ">" }
  function CloseTag(tag: string): string { "</" + tag + ">" }

  /**
   * `body.match(/<TAG>(.+?)<\/TAG>/)[1]`: the content of the leftmost match,
   * shortest for that start, or None when nothing matches.
   */
  function TagContent(body: string, tag: string): (r: Option<string>)
    ensures r.None? <==> forall q: nat, e: nat :: !TagAt(body, OpenTag(tag), CloseTag(tag), q, e)
    ensures r.Some? ==> exists q: nat, e: nat ::
                          && TagAt(body, OpenTag(tag), CloseTag(tag), q, e) && r.value == body[q + |OpenTag(tag)|..e]
                          && (forall q': nat, e': nat :: q' < q ==> !TagAt(body, OpenTag(tag), CloseTag(tag), q', e'))
                          && (forall e': nat :: e' < e ==> !TagAt(body, OpenTag(tag), CloseTag(tag), q, e'))
  {
    match TagFrom(body, OpenTag(tag), CloseTag(tag), 0)
    case None => None
    case Some(span) =>
      assert TagAt(body, OpenTag(tag), CloseTag(tag), span.at, span.end);
      Some(body[span.at + |OpenTag(tag)|..span.end])
  }

  /** A match spells out the open tag, the content and the close tag, in that order. */
  lemma TagSpan(s: string, open: string, close: string, p: nat, e: nat)
    requires TagAt(s, open, close, p, e)
    ensures StartsAt(s, p, open + s[p + |open|..e] + close)
  {
    var x := s[p + |open|..e];
    assert s[p..e + |close|] == s[p..p + |open|] + x + s[e..e + |close|];
  }

  /** Extracted content is a non-empty single line and sits between the two tags in `body`. */
  lemma TagContentOccurs(body: string, tag: string)
    requires TagContent(body, tag).Some?
    ensures var x := TagContent(body, tag).value;
      |x| > 0 && (forall k :: 0 <= k < |x| ==> !LineTerminator(x[k]))
      && Contains(body, OpenTag(tag) + x + CloseTag(tag))
  {
    var open, close := OpenTag(tag), CloseTag(tag);
    var span := TagFrom(body, open, close, 0).value;
    var p, e := span.at, span.end;
    var x := body[p + |open|..e];
    assert x == TagContent(body, tag).value;
    assert Plain(body, p + |open|, e);
    forall k | 0 <= k < |x| ensures !LineTerminator(x[k]) {
      assert x[k] == body[p + |open| + k];
    }
    TagSpan(body, open, close, p, e);
    ContainsIff(body, open + x + close);
  }
}
