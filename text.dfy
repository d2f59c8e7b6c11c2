/**
 * The name comparison used by the presence check: `n.strip().lower()` of
 * Python's str, on strings as sequences of characters.
 */
module Text {

  /** Python's str.isspace() characters (the ones str.strip() removes). */
  predicate IsSpace(c: char) {
    || c == ' ' || c == '\t' || c == '\n' || c == '\r' || c == '\U{B}' || c == '\U{C}'
    || ('\U{1C}' <= c <= '\U{1F}') || c == '\U{85}' || c == '\U{A0}' || c == '\U{1680}'
    || ('\U{2000}' <= c <= '\U{200A}') || c == '\U{2028}' || c == '\U{2029}'
    || c == '\U{202F}' || c == '\U{205F}' || c == '\U{3000}'
  }

  /** Drops leading whitespace (TrimStartIsSuffix states what is left). */
  function TrimStart(s: string): string {
    if s == [] || !IsSpace(s[0]) then s else TrimStart(s[1..])
  }

  /** Drops trailing whitespace (TrimEndIsPrefix states what is left). */
  function TrimEnd(s: string): string {
    if s == [] || !IsSpace(s[|s| - 1]) then s else TrimEnd(s[..|s| - 1])
  }

  /** The result of TrimStart is a suffix that starts with a non-space, and only spaces were dropped. */
  lemma {:induction false} TrimStartIsSuffix(s: string)
    ensures var r := TrimStart(s);
            && |r| <= |s| && r == s[|s| - |r|..]
            && (r == [] || !IsSpace(r[0]))
            && (forall k :: 0 <= k < |s| - |r| ==> IsSpace(s[k]))
  {
    if s != [] && IsSpace(s[0]) {
      TrimStartIsSuffix(s[1..]);
      var r := TrimStart(s);
      assert s[1..][|s| - 1 - |r|..] == s[|s| - |r|..];
      forall k | 0 <= k < |s| - |r| ensures IsSpace(s[k]) {
        if k > 0 {
          assert s[k] == s[1..][k - 1];
        }
      }
    }
  }

  /** The result of TrimEnd is a prefix that ends with a non-space, and only spaces were dropped. */
  lemma {:induction false} TrimEndIsPrefix(s: string)
    ensures var r := TrimEnd(s);
            && |r| <= |s| && r == s[..|r|]
            && (r == [] || !IsSpace(r[|r| - 1]))
            && (forall k :: |r| <= k < |s| ==> IsSpace(s[k]))
  {
    if s != [] && IsSpace(s[|s| - 1]) {
      TrimEndIsPrefix(s[..|s| - 1]);
      var r := TrimEnd(s);
      assert s[..|s| - 1][..|r|] == s[..|r|];
      forall k | |r| <= k < |s| ensures IsSpace(s[k]) {
        if k < |s| - 1 {
          assert s[k] == s[..|s| - 1][k];
        }
      }
    }
  }

  /** str.strip() */
  function Strip(s: string): string {
    TrimEnd(TrimStart(s))
  }

  /** str.lower() on the ASCII letters. */
  function LowerChar(c: char): (d: char)
    ensures 'A' <= c <= 'Z' ==> 'a' <= d <= 'z' && d as int == c as int + 32
    ensures !('A' <= c <= 'Z') ==> d == c
  {
    if 'A' <= c <= 'Z' then (c as int + 32) as char else c
  }

  function Lower(s: string): string {
    seq(|s|, k requires 0 <= k < |s| => LowerChar(s[k]))
  }

  /**
   * Lower-casing keeps the length, leaves no upper-case ASCII letter, and
   * changes nothing more when applied again.
   */
  lemma LowerFolds(s: string)
    ensures |Lower(s)| == |s|
    ensures forall k :: 0 <= k < |s| ==> !('A' <= Lower(s)[k] <= 'Z')
    ensures forall k :: 0 <= k < |s| ==> (Lower(s)[k] == s[k] || ('A' <= s[k] <= 'Z' && Lower(s)[k] as int == s[k] as int + 32))
    ensures Lower(Lower(s)) == Lower(s)
  {
  }

  /** The key two names are compared by. */
  function Normalize(s: string): string {
    Lower(Strip(s))
  }

  /** s[lo..hi] is all whitespace. */
  predicate AllSpace(s: string, lo: int, hi: int)
    requires 0 <= lo <= hi <= |s|
  {
    forall k :: lo <= k < hi ==> IsSpace(s[k])
  }

  /** Stripping keeps exactly the middle of the string between whitespace runs. */
  lemma {:induction false} StripIsSlice(s: string)
    ensures exists i, j :: 0 <= i <= j <= |s| && Strip(s) == s[i..j] && AllSpace(s, 0, i) && AllSpace(s, j, |s|)
  {
    var t := TrimStart(s);
    TrimStartIsSuffix(s);
    var i := |s| - |t|;
    assert t == s[i..];
    assert AllSpace(s, 0, i);
    var r := TrimEnd(t);
    TrimEndIsPrefix(t);
    var j := i + |r|;
    assert r == s[i..j] by {
      assert r == t[..|r|];
    }
    assert AllSpace(s, j, |s|) by {
      forall k | j <= k < |s| ensures IsSpace(s[k]) {
        assert s[k] == t[k - i];
      }
    }
  }

  /** Stripping twice removes nothing more. */
  lemma {:induction false} StripIdempotent(s: string)
    ensures Strip(Strip(s)) == Strip(s)
  {
    var r := Strip(s);
    if r != [] {
      var t := TrimStart(s);
      TrimStartIsSuffix(s);
      TrimEndIsPrefix(t);
      assert !IsSpace(r[0]) by {
        assert r == t[..|r|];
      }
      assert TrimStart(r) == r;
      assert TrimEnd(r) == r;
    }
  }
}
