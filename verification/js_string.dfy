/** The JavaScript string operations the extractor applies to text read
    from the page: `indexOf`, `substring`, `replace` with a string pattern,
    `startsWith` and `trim`. Strings are sequences of characters; UTF-16
    code units are not distinguished from characters. */
module JsString {

  /** True when `p` occurs in `s` starting at index `i`. */
  predicate OccursAt(s: string, p: string, i: int) {
    0 <= i && i + |p| <= |s| && s[i..i + |p|] == p
  }

  /** `s.startsWith(p)`: `p` is a prefix of `s`. */
  predicate StartsWith(s: string, p: string)
    ensures StartsWith(s, p) <==> |p| <= |s| && s[..|p|] == p
    ensures StartsWith(s, p) ==> s == p + s[|p|..]
  {
    OccursAt(s, p, 0)
  }

  /** Search for `p` starting at index `i`. */
  function IndexFrom(s: string, p: string, i: nat): (r: int)
    requires i <= |s|
    ensures r == -1 || (i <= r <= |s| && OccursAt(s, p, r))
    ensures forall j :: i <= j <= |s| && (r == -1 || j < r) ==> !OccursAt(s, p, j)
    decreases |s| - i
  {
    if OccursAt(s, p, i) then i
    else if i == |s| then -1
    else IndexFrom(s, p, i + 1)
  }

  /** `s.indexOf(p)`: the first index at which `p` occurs, or -1 when it
      does not occur at all. */
  function IndexOf(s: string, p: string): (r: int)
    ensures r == -1 || (0 <= r <= |s| && OccursAt(s, p, r))
    ensures forall j :: 0 <= j <= |s| && (r == -1 || j < r) ==> !OccursAt(s, p, j)
  {
    IndexFrom(s, p, 0)
  }

  /** One differing character rules an occurrence out. */
  lemma MismatchAt(s: string, p: string, i: nat, k: nat)
    requires k < |p| && i + k < |s|
    requires s[i + k] != p[k]
    ensures !OccursAt(s, p, i)
  {
  }

  /** `indexOf` is pinned down by an occurrence with none before it. */
  lemma IndexOfIs(s: string, p: string, i: nat)
    requires OccursAt(s, p, i)
    requires forall j :: 0 <= j < i ==> !OccursAt(s, p, j)
    ensures IndexOf(s, p) == i
  {
  }

  /** In `a + p + b`, `p` is first found right after `a` when `a` does not
      hold the first character of `p`. */
  lemma IndexOfJoined(a: string, p: string, b: string)
    requires |p| > 0 && p[0] !in a
    ensures IndexOf(a + p + b, p) == |a|
  {
    var s := a + p + b;
    assert s[|a|..|a| + |p|] == p;
    forall j | 0 <= j < |a|
      ensures !OccursAt(s, p, j)
    {
      assert s[j] == a[j];
      MismatchAt(s, p, j, 0);
    }
    IndexOfIs(s, p, |a|);
  }

  /** As `IndexOfJoined`, with one near miss before `p`: a character `c`
      followed by text `d` that does not go on as `p` does. */
  lemma IndexOfJoinedNear(a: string, c: char, d: string, p: string, b: string)
    requires |p| >= 2 && |d| > 0
    requires p[0] !in a && p[0] !in d && d[0] != p[1]
    ensures IndexOf(a + [c] + d + p + b, p) == |a| + 1 + |d|
  {
    var pre := a + [c] + d;
    var s := pre + p + b;
    assert s[|pre|..|pre| + |p|] == p;
    forall j | 0 <= j < |pre|
      ensures !OccursAt(s, p, j)
    {
      if j < |a| {
        assert s[j] == a[j];
        MismatchAt(s, p, j, 0);
      } else if j == |a| {
        assert s[j + 1] == d[0];
        MismatchAt(s, p, j, 1);
      } else {
        assert s[j] == d[j - |a| - 1];
        MismatchAt(s, p, j, 0);
      }
    }
    IndexOfIs(s, p, |pre|);
  }

  /** A string without the first character of `p` holds no `p`. */
  lemma IndexOfAbsent(s: string, p: string)
    requires |p| > 0 && p[0] !in s
    ensures IndexOf(s, p) == -1
  {
    forall j | 0 <= j <= |s|
      ensures !OccursAt(s, p, j)
    {
      if j < |s| {
        MismatchAt(s, p, j, 0);
      }
    }
  }

  /** ECMAScript clamps a `substring` argument into `[0, length]`. */
  function Clamp(x: int, len: nat): (r: nat)
    ensures r <= len
    ensures 0 <= x <= len ==> r == x
  {
    if x < 0 then 0 else if x > len then len else x
  }

  /** `s.substring(start, end)`: both ends are clamped and, when they come
      out in the wrong order, swapped. So `substring(0, -1)` is empty and
      `substring(-1, length)` is the whole string. */
  function Substring(s: string, start: int, end: int): (r: string)
    ensures 0 <= start <= end <= |s| ==> r == s[start..end]
    ensures end <= 0 ==> r == s[..Clamp(start, |s|)]
    ensures start <= 0 && end <= 0 ==> r == []
    ensures start <= 0 && end >= |s| ==> r == s
  {
    var a := Clamp(start, |s|);
    var b := Clamp(end, |s|);
    if a <= b then s[a..b] else s[b..a]
  }

  /** The order of the two `substring` arguments does not matter. */
  lemma SubstringSwap(s: string, start: int, end: int)
    ensures Substring(s, start, end) == Substring(s, end, start)
  {
  }

  /** `s.replace(p, '')` with a string pattern: only the FIRST occurrence
      of `p` is removed; a string without `p` is returned unchanged. */
  function RemoveFirst(s: string, p: string): (r: string)
    ensures IndexOf(s, p) == -1 ==> r == s
    ensures IndexOf(s, p) >= 0 ==> |r| == |s| - |p|
    ensures IndexOf(s, p) >= 0 ==>
              var i := IndexOf(s, p); r == s[..i] + s[i + |p|..]
  {
    var i := IndexOf(s, p);
    if i < 0 then s else s[..i] + s[i + |p|..]
  }

  /** A string that starts with `p` loses exactly that leading `p`. */
  lemma RemoveLeading(s: string, p: string)
    requires StartsWith(s, p)
    ensures RemoveFirst(s, p) == s[|p|..]
  {
    assert IndexOf(s, p) == 0;
  }

  /** `replace(p, '')` on `a + p + b` gives `a + b` when `a` does not hold
      the first character of `p`. */
  lemma RemoveFirstJoined(a: string, p: string, b: string)
    requires |p| > 0 && p[0] !in a
    ensures RemoveFirst(a + p + b, p) == a + b
  {
    var s := a + p + b;
    IndexOfJoined(a, p, b);
    assert s[..|a|] == a;
    assert s[|a| + |p|..] == b;
  }

  /** `replace(p, '')` leaves a string without `p`'s first character alone. */
  lemma RemoveFirstAbsent(s: string, p: string)
    requires |p| > 0 && p[0] !in s
    ensures RemoveFirst(s, p) == s
  {
    IndexOfAbsent(s, p);
  }

  /** The characters `String.prototype.trim` removes: the ECMAScript
      WhiteSpace code points (tab, vertical tab, form feed, space,
      no-break space, byte-order mark and the Unicode space separators)
      and the LineTerminator code points. */
  predicate IsWhiteSpace(c: char) {
    || c == '\t' || c == '\n' || c == '\U{000B}' || c == '\U{000C}' || c == '\r'
    || c == ' ' || c == '\U{00A0}' || c == '\U{1680}'
    || ('\U{2000}' <= c <= '\U{200A}')
    || c == '\U{2028}' || c == '\U{2029}' || c == '\U{202F}' || c == '\U{205F}'
    || c == '\U{3000}' || c == '\U{FEFF}'
  }

  /** Leading white space removed (`trimStart`). */
  function TrimStart(s: string): (r: string)
    ensures |r| <= |s| && r == s[|s| - |r|..]
    ensures forall i :: 0 <= i < |s| - |r| ==> IsWhiteSpace(s[i])
    ensures |r| > 0 ==> !IsWhiteSpace(r[0])
  {
    if |s| > 0 && IsWhiteSpace(s[0]) then TrimStart(s[1..]) else s
  }

  /** Trailing white space removed (`trimEnd`). */
  function TrimEnd(s: string): (r: string)
    ensures |r| <= |s| && r == s[..|r|]
    ensures forall i :: |r| <= i < |s| ==> IsWhiteSpace(s[i])
    ensures |r| > 0 ==> !IsWhiteSpace(r[|r| - 1])
  {
    if |s| > 0 && IsWhiteSpace(s[|s| - 1]) then TrimEnd(s[..|s| - 1]) else s
  }

  /** `s.trim()`: the slice of `s` between its leading and its trailing
      white space (`TrimIs` below says which slice). */
  function Trim(s: string): (r: string)
    ensures |r| <= |s|
    ensures |r| > 0 ==> !IsWhiteSpace(r[0]) && !IsWhiteSpace(r[|r| - 1])
  {
    TrimEnd(TrimStart(s))
  }

  /** `TrimStart` stops at the first character that is not white space. */
  lemma {:induction false} TrimStartIs(s: string, a: nat)
    requires a <= |s|
    requires forall i :: 0 <= i < a ==> IsWhiteSpace(s[i])
    requires a < |s| ==> !IsWhiteSpace(s[a])
    ensures TrimStart(s) == s[a..]
  {
    if a > 0 {
      TrimStartIs(s[1..], a - 1);
      assert s[1..][a - 1..] == s[a..];
    }
  }

  /** `TrimEnd` stops at the last character that is not white space. */
  lemma {:induction false} TrimEndIs(s: string, b: nat)
    requires b <= |s|
    requires forall i :: b <= i < |s| ==> IsWhiteSpace(s[i])
    requires b > 0 ==> !IsWhiteSpace(s[b - 1])
    ensures TrimEnd(s) == s[..b]
  {
    if b < |s| {
      TrimEndIs(s[..|s| - 1], b);
      assert s[..|s| - 1][..b] == s[..b];
    }
  }

  /** A string made only of white space trims to the empty string. */
  lemma TrimAllSpace(s: string)
    requires forall i :: 0 <= i < |s| ==> IsWhiteSpace(s[i])
    ensures Trim(s) == []
  {
    TrimStartIs(s, |s|);
  }

  /** The white space after position `b` of `s[a..]` is the white space after `b` of `s`. */
  lemma TrailingSpaceOfSuffix(s: string, a: nat, b: nat)
    requires a < b <= |s|
    requires forall i :: b <= i < |s| ==> IsWhiteSpace(s[i])
    requires !IsWhiteSpace(s[b - 1])
    ensures TrimEnd(s[a..]) == s[a..b]
  {
    var t := s[a..];
    forall i | b - a <= i < |t|
      ensures IsWhiteSpace(t[i])
    {
      assert t[i] == s[a + i];
    }
    assert t[b - a - 1] == s[b - 1];
    TrimEndIs(t, b - a);
    assert t[..b - a] == s[a..b];
  }

  /** `Trim` is pinned down by where the white space at either end stops. */
  lemma TrimIs(s: string, a: nat, b: nat)
    requires a <= b <= |s|
    requires forall i :: 0 <= i < a ==> IsWhiteSpace(s[i])
    requires forall i :: b <= i < |s| ==> IsWhiteSpace(s[i])
    requires a < b ==> !IsWhiteSpace(s[a]) && !IsWhiteSpace(s[b - 1])
    ensures Trim(s) == s[a..b]
  {
    if a == b {
      TrimAllSpace(s);
    } else {
      TrimStartIs(s, a);
      TrailingSpaceOfSuffix(s, a, b);
    }
  }

  /** Trimming white space `w1` and `w2` off either side of a text with
      no white space at its ends gives the text back. */
  lemma TrimJoined(w1: string, t: string, w2: string)
    requires forall i :: 0 <= i < |w1| ==> IsWhiteSpace(w1[i])
    requires forall i :: 0 <= i < |w2| ==> IsWhiteSpace(w2[i])
    requires |t| > 0 ==> !IsWhiteSpace(t[0]) && !IsWhiteSpace(t[|t| - 1])
    ensures Trim(w1 + t + w2) == t
  {
    var s := w1 + t + w2;
    var a, b := |w1|, |w1| + |t|;
    forall i | 0 <= i < a
      ensures IsWhiteSpace(s[i])
    {
      assert s[i] == w1[i];
    }
    forall i | b <= i < |s|
      ensures IsWhiteSpace(s[i])
    {
      assert s[i] == w2[i - b];
    }
    if a < b {
      assert s[a] == t[0] && s[b - 1] == t[|t| - 1];
    }
    TrimIs(s, a, b);
    assert s[a..b] == t;
  }

  /** A string with no white space at either end is its own trim. */
  lemma {:induction false} TrimNoSpace(s: string)
    requires |s| > 0 ==> !IsWhiteSpace(s[0]) && !IsWhiteSpace(s[|s| - 1])
    ensures Trim(s) == s
  {
  }

  /** Trimming twice is trimming once. */
  lemma TrimIdempotent(s: string)
    ensures Trim(Trim(s)) == Trim(s)
  {
    TrimNoSpace(Trim(s));
  }
}
