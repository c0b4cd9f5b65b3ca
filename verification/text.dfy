/** `string.Trim()` as .NET defines it: strip the leading and trailing
    characters for which `char.IsWhiteSpace` holds. */
module Text {

  /** `char.IsWhiteSpace`: the control characters U+0009..U+000D, U+0085,
      and the Unicode space, line and paragraph separators. */
  predicate IsWhiteSpace(c: char) {
    || ('\U{9}' <= c <= '\U{D}')
    || c == ' '
    || c == '\U{85}'
    || c == '\U{A0}'
    || c == '\U{1680}'
    || ('\U{2000}' <= c <= '\U{200A}')
    || c == '\U{2028}'
    || c == '\U{2029}'
    || c == '\U{202F}'
    || c == '\U{205F}'
    || c == '\U{3000}'
  }

  predicate AllWhiteSpace(s: string) {
    forall i | 0 <= i < |s| :: IsWhiteSpace(s[i])
  }

  /** Neither the first nor the last character is white space. */
  predicate NoOuterWhiteSpace(s: string) {
    s == [] || (!IsWhiteSpace(s[0]) && !IsWhiteSpace(s[|s| - 1]))
  }

  /** The length of the longest all-white-space prefix. */
  function LeadingWhiteSpace(s: string): (n: nat)
    ensures n <= |s|
    ensures AllWhiteSpace(s[..n])
    ensures n < |s| ==> !IsWhiteSpace(s[n])
  {
    if |s| > 0 && IsWhiteSpace(s[0]) then
      var m := LeadingWhiteSpace(s[1..]);
      assert s[..m + 1] == [s[0]] + s[1..][..m];
      assert m < |s| - 1 ==> s[m + 1] == s[1..][m];
      m + 1
    else
      0
  }

  lemma AppendWhiteSpace(w: string, c: char)
    requires AllWhiteSpace(w) && IsWhiteSpace(c)
    ensures AllWhiteSpace(w + [c])
  {
  }

  /** The length of the longest all-white-space suffix. */
  function TrailingWhiteSpace(s: string): (n: nat)
    ensures n <= |s|
    ensures AllWhiteSpace(s[|s| - n..])
    ensures n < |s| ==> !IsWhiteSpace(s[|s| - n - 1])
  {
    if |s| > 0 && IsWhiteSpace(s[|s| - 1]) then
      var init := s[..|s| - 1];
      var m := TrailingWhiteSpace(init);
      assert s[|s| - (m + 1)..] == init[|init| - m..] + [s[|s| - 1]];
      AppendWhiteSpace(init[|init| - m..], s[|s| - 1]);
      assert m < |init| ==> s[|s| - m - 2] == init[|init| - m - 1];
      m + 1
    else
      0
  }

  function Trim(s: string): (r: string)
    ensures |r| <= |s|
    ensures NoOuterWhiteSpace(r)
  {
    var i := LeadingWhiteSpace(s);
    var n := TrailingWhiteSpace(s[i..]);
    assert n < |s| - i ==> s[i..|s| - n][0] == s[i];
    assert n < |s| - i ==> s[i..|s| - n][|s| - n - i - 1] == s[i..][|s| - i - n - 1];
    s[i..|s| - n]
  }

  /** White space followed by a non-white-space start is exactly the
      leading white space. */
  lemma {:induction false} LeadingWhiteSpaceOf(s: string, a: string, t: string)
    requires s == a + t && AllWhiteSpace(a)
    requires t != [] ==> !IsWhiteSpace(t[0])
    ensures LeadingWhiteSpace(s) == |a|
  {
    var i := LeadingWhiteSpace(s);
    assert i >= |a| by {
      assert forall k | 0 <= k < |a| :: IsWhiteSpace(s[k]) by {
        forall k | 0 <= k < |a| ensures IsWhiteSpace(s[k]) { assert s[k] == a[k]; }
      }
    }
    assert t != [] ==> s[|a|] == t[0];
    assert forall k | 0 <= k < i :: IsWhiteSpace(s[k]) by {
      forall k | 0 <= k < i ensures IsWhiteSpace(s[k]) { assert s[..i][k] == s[k]; }
    }
  }

  /** A non-white-space end followed by white space: the white space is
      exactly the trailing white space. */
  lemma {:induction false} TrailingWhiteSpaceOf(s: string, t: string, b: string)
    requires s == t + b && AllWhiteSpace(b)
    requires t != [] ==> !IsWhiteSpace(t[|t| - 1])
    ensures TrailingWhiteSpace(s) == |b|
  {
    var n := TrailingWhiteSpace(s);
    assert n >= |b| by {
      assert forall k | |t| <= k < |s| :: IsWhiteSpace(s[k]) by {
        forall k | |t| <= k < |s| ensures IsWhiteSpace(s[k]) { assert s[k] == b[k - |t|]; }
      }
    }
    assert t != [] ==> n <= |b| by {
      assert t != [] ==> s[|t| - 1] == t[|t| - 1];
      assert forall k | |s| - n <= k < |s| :: IsWhiteSpace(s[k]) by {
        forall k | |s| - n <= k < |s| ensures IsWhiteSpace(s[k]) { assert s[|s| - n..][k - (|s| - n)] == s[k]; }
      }
    }
  }

  /** Any split of `s` into white space, a core without outer white space,
      and white space again, has `Trim(s)` as its core: this pins `Trim`
      down completely. */
  lemma {:induction false} TrimUnique(s: string, a: string, r: string, b: string)
    requires s == a + r + b
    requires AllWhiteSpace(a) && AllWhiteSpace(b)
    requires NoOuterWhiteSpace(r)
    ensures Trim(s) == r
  {
    if r == [] {
      assert AllWhiteSpace(a + b) by {
        forall k | 0 <= k < |a + b| ensures IsWhiteSpace((a + b)[k]) {
          if k < |a| { assert (a + b)[k] == a[k]; } else { assert (a + b)[k] == b[k - |a|]; }
        }
      }
      LeadingWhiteSpaceOf(s, a + b, []);
    } else {
      LeadingWhiteSpaceOf(s, a, r + b);
      assert s[|a|..] == r + b;
      TrailingWhiteSpaceOf(r + b, r, b);
      assert s[|a|..|s| - |b|] == r;
    }
  }

  /** A string is its three consecutive slices joined. */
  lemma {:induction false} ThreeSlices(s: string, i: nat, j: nat)
    requires i <= j <= |s|
    ensures s == s[..i] + s[i..j] + s[j..]
  {
    assert s[..i] + s[i..j] == s[..j];
  }

  /** `Trim(s)` is `s` with a white-space prefix and suffix removed. */
  lemma {:induction false} TrimSplits(s: string)
    ensures exists a, b :: AllWhiteSpace(a) && AllWhiteSpace(b) && s == a + Trim(s) + b
  {
    var i := LeadingWhiteSpace(s);
    var n := TrailingWhiteSpace(s[i..]);
    var a, b := s[..i], s[|s| - n..];
    assert AllWhiteSpace(b) by {
      assert s[i..][|s[i..]| - n..] == b;
    }
    assert s == a + Trim(s) + b by {
      ThreeSlices(s, i, |s| - n);
      assert Trim(s) == s[i..|s| - n];
    }
    assert AllWhiteSpace(a);
  }

  lemma {:induction false} TrimIdempotent(s: string)
    ensures Trim(Trim(s)) == Trim(s)
  {
    var r := Trim(s);
    TrimUnique(r, [], r, []);
  }
}
