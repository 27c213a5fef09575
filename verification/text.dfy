/** The string operations the search components apply to what the user
    types: JavaScript's String.prototype.trim and toLowerCase, and the
    search-term normalisation built from them. */
module Text {

  /** The characters trim removes: the WhiteSpace and LineTerminator code
      points of the ECMAScript language specification (section 12.2 and 12.3
      of the 2023 edition). */
  predicate IsJsWhitespace(c: char) {
    var n := c as int;
    || n == 0x09 || n == 0x0A || n == 0x0B || n == 0x0C || n == 0x0D
    || n == 0x20 || n == 0xA0 || n == 0x1680
    || (0x2000 <= n <= 0x200A)
    || n == 0x2028 || n == 0x2029 || n == 0x202F || n == 0x205F
    || n == 0x3000 || n == 0xFEFF
  }

  predicate AllWhitespace(s: string) {
    forall i :: 0 <= i < |s| ==> IsJsWhitespace(s[i])
  }

  /** The number of whitespace characters `s` starts with. */
  function LeadingSpace(s: string): (k: nat)
    ensures k <= |s|
    ensures forall i :: 0 <= i < k ==> IsJsWhitespace(s[i])
    ensures k < |s| ==> !IsJsWhitespace(s[k])
  {
    if |s| > 0 && IsJsWhitespace(s[0]) then 1 + LeadingSpace(s[1..]) else 0
  }

  /** The length of `s` once its trailing whitespace is dropped. */
  function KeptLength(s: string): (n: nat)
    ensures n <= |s|
    ensures forall i :: n <= i < |s| ==> IsJsWhitespace(s[i])
    ensures n > 0 ==> !IsJsWhitespace(s[n - 1])
  {
    if |s| > 0 && IsJsWhitespace(s[|s| - 1]) then KeptLength(s[..|s| - 1]) else |s|
  }

  /** The leading whitespace is the run before the first other character. */
  lemma LeadingSpaceUnique(s: string, k: nat)
    requires k <= |s| && forall i :: 0 <= i < k ==> IsJsWhitespace(s[i])
    requires k < |s| ==> !IsJsWhitespace(s[k])
    ensures LeadingSpace(s) == k
  {
  }

  /** The kept part ends at the last character that is not whitespace. */
  lemma KeptLengthUnique(s: string, n: nat)
    requires n <= |s| && forall i :: n <= i < |s| ==> IsJsWhitespace(s[i])
    requires n > 0 ==> !IsJsWhitespace(s[n - 1])
    ensures KeptLength(s) == n
  {
  }

  /** String.prototype.trim: `s` without leading and trailing whitespace.
      The result is a slice of `s` that is empty or starts and ends with a
      non-whitespace character, and everything cut off is whitespace. */
  function Trim(s: string): (r: string)
    ensures |r| <= |s|
    ensures var k := LeadingSpace(s);
            k + |r| <= |s| && r == s[k..k + |r|] &&
            forall i :: k + |r| <= i < |s| ==> IsJsWhitespace(s[i])
    ensures |r| > 0 ==> !IsJsWhitespace(r[0]) && !IsJsWhitespace(r[|r| - 1])
    ensures |r| == 0 <==> AllWhitespace(s)
  {
    var k := LeadingSpace(s);
    var n := KeptLength(s[k..]);
    assert s[k..][..n] == s[k..k + n];
    s[k..][..n]
  }

  /** Any slice with only whitespace around it that is empty or starts and
      ends with another character is what trim returns. */
  lemma TrimUnique(s: string, k: nat, m: nat)
    requires k <= m <= |s|
    requires forall i :: 0 <= i < k ==> IsJsWhitespace(s[i])
    requires forall i :: m <= i < |s| ==> IsJsWhitespace(s[i])
    requires k < m ==> !IsJsWhitespace(s[k]) && !IsJsWhitespace(s[m - 1])
    ensures Trim(s) == s[k..m]
  {
    if k < m {
      LeadingSpaceUnique(s, k);
      var u := s[k..];
      KeptLengthUnique(u, m - k);
      assert u[..m - k] == s[k..m];
    } else {
      assert AllWhitespace(s);
    }
  }

  /** Whitespace added around a string does not change its trimmed form. */
  lemma TrimIgnoresPadding(pre: string, s: string, post: string)
    requires AllWhitespace(pre) && AllWhitespace(post)
    ensures Trim(pre + s + post) == Trim(s)
  {
    var r := Trim(s);
    var all := pre + s + post;
    if |r| == 0 {
      assert AllWhitespace(all);
    } else {
      var k := LeadingSpace(s);
      var lo := |pre| + k;
      var hi := lo + |r|;
      assert all[lo..hi] == r;
      forall i | 0 <= i < lo
        ensures IsJsWhitespace(all[i])
      {
        if i >= |pre| {
          assert all[i] == s[i - |pre|];
        }
      }
      forall i | hi <= i < |all|
        ensures IsJsWhitespace(all[i])
      {
        if i < |pre| + |s| {
          assert all[i] == s[i - |pre|];
        } else {
          assert all[i] == post[i - |pre| - |s|];
        }
      }
      TrimUnique(all, lo, hi);
    }
  }

  /** Trimming twice is trimming once. */
  lemma TrimIdempotent(s: string)
    ensures Trim(Trim(s)) == Trim(s)
  {
    var r := Trim(s);
    TrimUnique(r, 0, |r|);
    assert r[0..|r|] == r;
  }

  /** toLowerCase on one character: A-Z become a-z, everything else stays. */
  function LowerChar(c: char): (r: char)
    ensures !('A' <= r <= 'Z')
    ensures 'a' <= r <= 'z' <==> 'a' <= c <= 'z' || 'A' <= c <= 'Z'
    ensures !('A' <= c <= 'Z') ==> r == c
  {
    if 'A' <= c <= 'Z' then (c as int - 'A' as int + 'a' as int) as char else c
  }

  /** Lower-casing turns no character into whitespace or out of it. */
  lemma LowerCharKeepsWhitespace(c: char)
    ensures IsJsWhitespace(LowerChar(c)) == IsJsWhitespace(c)
  {
  }

  /** String.prototype.toLowerCase on the ASCII letters. */
  function ToLower(s: string): (r: string)
    ensures |r| == |s| && forall i :: 0 <= i < |s| ==> r[i] == LowerChar(s[i])
  {
    if |s| == 0 then "" else [LowerChar(s[0])] + ToLower(s[1..])
  }

  /** The UTF-16 code units of one character: two for a character outside
      the Basic Multilingual Plane (a surrogate pair), one otherwise. */
  function CodeUnits(c: char): (n: nat)
    ensures n == 1 || n == 2
    ensures n == 2 <==> c as int > 0xFFFF
  {
    if c as int > 0xFFFF then 2 else 1
  }

  /** JavaScript's `length` of a string: its UTF-16 code units, so at least
      one and at most two per character. */
  function Utf16Length(s: string): (n: nat)
    ensures |s| <= n <= 2 * |s|
  {
    if |s| == 0 then 0 else CodeUnits(s[0]) + Utf16Length(s[1..])
  }

  /** The length of a concatenation is the sum of the lengths. */
  lemma {:induction false} Utf16LengthAppend(a: string, b: string)
    ensures Utf16Length(a + b) == Utf16Length(a) + Utf16Length(b)
    decreases |a|
  {
    if |a| > 0 {
      assert (a + b)[0] == a[0] && (a + b)[1..] == a[1..] + b;
      Utf16LengthAppend(a[1..], b);
    } else {
      assert a + b == b;
    }
  }

  /** Lower-casing keeps the length in code units. */
  lemma {:induction false} Utf16LengthToLower(s: string)
    ensures Utf16Length(ToLower(s)) == Utf16Length(s)
    decreases |s|
  {
    if |s| > 0 {
      assert ToLower(s)[1..] == ToLower(s[1..]);
      Utf16LengthToLower(s[1..]);
    }
  }

  lemma ToLowerIdempotent(s: string)
    ensures ToLower(ToLower(s)) == ToLower(s)
  {
  }

  lemma ToLowerSlice(s: string, lo: nat, hi: nat)
    requires lo <= hi <= |s|
    ensures ToLower(s[lo..hi]) == ToLower(s)[lo..hi]
  {
    var a := ToLower(s[lo..hi]);
    var b := ToLower(s)[lo..hi];
    forall i | 0 <= i < hi - lo
      ensures a[i] == b[i]
    {
      assert s[lo..hi][i] == s[lo + i];
    }
  }

  /** Lower-casing does not move the trim boundaries. */
  lemma TrimToLower(s: string)
    ensures Trim(ToLower(s)) == ToLower(Trim(s))
  {
    var l := ToLower(s);
    forall i | 0 <= i < |s|
      ensures IsJsWhitespace(l[i]) == IsJsWhitespace(s[i])
    {
      LowerCharKeepsWhitespace(s[i]);
    }
    SameWhitespaceSameTrim(s, l);
    var k := LeadingSpace(s);
    var m := k + |Trim(s)|;
    ToLowerSlice(s, k, m);
  }

  /** Strings with whitespace in the same places are trimmed at the same
      places. */
  lemma SameWhitespaceSameTrim(s: string, l: string)
    requires |l| == |s|
    requires forall i :: 0 <= i < |s| ==> IsJsWhitespace(l[i]) == IsJsWhitespace(s[i])
    ensures LeadingSpace(l) == LeadingSpace(s) && |Trim(l)| == |Trim(s)|
  {
    var r := Trim(s);
    var k := LeadingSpace(s);
    LeadingSpaceUnique(l, k);
    if |r| == 0 {
      assert AllWhitespace(l);
    } else {
      var m := k + |r|;
      assert s[k] == r[0] && s[m - 1] == r[|r| - 1];
      TrimUnique(l, k, m);
    }
  }

  /** The key a search term is looked up under: trimmed and lower-cased. */
  function Normalize(s: string): (r: string)
    ensures |r| <= |s|
    ensures forall i :: 0 <= i < |r| ==> !('A' <= r[i] <= 'Z')
    ensures |r| == 0 <==> AllWhitespace(s)
  {
    ToLower(Trim(s))
  }

  /** Terms that differ only in letter case and surrounding whitespace share
      one key, and a key is its own key. */
  lemma NormalizeIgnoresCaseAndPadding(pre: string, s: string, post: string)
    requires AllWhitespace(pre) && AllWhitespace(post)
    ensures Normalize(pre + ToLower(s) + post) == Normalize(s)
    ensures Normalize(pre + s + post) == Normalize(s)
  {
    TrimIgnoresPadding(pre, ToLower(s), post);
    TrimIgnoresPadding(pre, s, post);
    TrimToLower(s);
    ToLowerIdempotent(Trim(s));
  }

  lemma NormalizeIdempotent(s: string)
    ensures Normalize(Normalize(s)) == Normalize(s)
  {
    TrimToLower(Trim(s));
    TrimIdempotent(s);
    ToLowerIdempotent(Trim(s));
  }
}
