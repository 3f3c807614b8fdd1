/** `str.strip` and `str.replace`, for ASCII text. */
module Text {

  predicate IsSpace(c: char) {
    c == ' ' || '\t' <= c <= '\r' || (28 as char) <= c <= (31 as char)
  }

  function LStrip(s: string): (r: string)
    ensures |r| <= |s|
    ensures r != [] ==> !IsSpace(r[0])
  {
    if s != [] && IsSpace(s[0]) then LStrip(s[1..]) else s
  }

  function RStrip(s: string): (r: string)
    ensures r <= s
    ensures r != [] ==> !IsSpace(r[|r| - 1])
  {
    if s != [] && IsSpace(s[|s| - 1]) then RStrip(s[..|s| - 1]) else s
  }

  function Strip(s: string): (r: string) {
    RStrip(LStrip(s))
  }

  /** Stripped text starts and ends with something visible, so stripping again changes nothing. */
  lemma StripIdempotent(s: string)
    ensures Strip(Strip(s)) == Strip(s)
  {
    var l, r := LStrip(s), Strip(s);
    if r != [] {
      assert r[0] == l[0];
    }
  }

  lemma {:induction false} LStripIsTrim(s: string) returns (n: nat)
    ensures n <= |s| && LStrip(s) == s[n..] && forall k :: 0 <= k < n ==> IsSpace(s[k])
    decreases |s|
  {
    n := 0;
    if s != [] && IsSpace(s[0]) {
      var m := LStripIsTrim(s[1..]);
      n := m + 1;
      assert s[1..][m..] == s[n..];
      assert forall k :: 0 < k < n ==> s[k] == s[1..][k - 1];
    }
  }

  lemma {:induction false} RStripIsTrim(s: string)
    ensures var r := RStrip(s); r <= s && forall k :: |r| <= k < |s| ==> IsSpace(s[k])
    decreases |s|
  {
    if s != [] && IsSpace(s[|s| - 1]) {
      RStripIsTrim(s[..|s| - 1]);
    }
  }

  /** Stripping takes away exactly the spaces around the text: what is left stands at `n`, with a visible start and end. */
  lemma StripIsTrim(s: string) returns (n: nat)
    ensures var r := Strip(s);
            && n + |r| <= |s| && s[n..n + |r|] == r
            && (forall k :: 0 <= k < n || n + |r| <= k < |s| ==> IsSpace(s[k]))
            && (r != "" ==> !IsSpace(r[0]) && !IsSpace(r[|r| - 1]))
  {
    n := LStripIsTrim(s);
    var l, r := LStrip(s), Strip(s);
    RStripIsTrim(l);
    assert l == s[n..];
    assert s[n..n + |r|] == l[..|r|] == r;
    forall k | n + |r| <= k < |s|
      ensures IsSpace(s[k])
    {
      assert s[k] == l[k - n];
    }
    if r != "" { assert r[0] == l[0]; }
  }

  /** `s.replace(old, new)` for a non-empty `old`: leftmost, non-overlapping. */
  function Replace(s: string, old_: string, new_: string): string
    requires old_ != []
  {
    if |s| < |old_| then s
    else if s[..|old_|] == old_ then new_ + Replace(s[|old_|..], old_, new_)
    else [s[0]] + Replace(s[1..], old_, new_)
  }
}
