/**
  That the templates of `_generalize_commands` are general: no interface name and no device name is left in
  one, and commands that differ only in these get the same one (ai-agents/shared/policy_synthesizer.py).
*/
module TemplateGenerality {
  import opened Prelude
  import opened Text
  import opened PolicyTemplates
  import opened PolicySynthesizer

  // ---------------------------------------------------------------- what the interface pattern matches

  /** One of the prefixes, then at least one digit, slash or dot and nothing else, between word boundaries. */
  predicate NameWith(s: string, p: nat, e: nat, prefix: string) {
    && p + |prefix| < e <= |s| && Boundary(s, p) && Boundary(s, e) && HasPrefix(s, p, prefix)
    && forall k :: p + |prefix| <= k < e ==> IsTail(s[k])
  }

  /** `s[p..e]` is an interface name standing by itself. */
  ghost predicate NameAt(s: string, p: nat, e: nat, prefixes: seq<string>) {
    exists i: nat :: i < |prefixes| && NameWith(s, p, e, prefixes[i])
  }

  /** Letters and dashes, starting with a letter. */
  predicate Lettered(prefixes: seq<string>) {
    Wordy(prefixes) && forall i :: 0 <= i < |prefixes| ==> prefixes[i] != "" && 'a' <= Lower(prefixes[i][0]) <= 'z'
  }

  lemma PrefixesAreLettered()
    ensures Lettered(PREFIXES)
  {
    PrefixesAreWordy();
    assert PREFIXES[0][0] == 'E' && PREFIXES[1][0] == 'G' && PREFIXES[2][0] == 'T' && PREFIXES[3][0] == 'M';
    assert PREFIXES[4][0] == 'P' && PREFIXES[5][0] == 'x' && PREFIXES[6][0] == 'g' && PREFIXES[7][0] == 'e';
  }

  lemma {:induction false} RunCovers(s: string, q: nat, n: nat)
    requires q + n <= |s| && forall k :: q <= k < q + n ==> IsTail(s[k])
    ensures n <= TailRun(s, q)
    decreases n
  {
    if n > 0 { RunCovers(s, q + 1, n - 1); }
  }

  lemma {:induction false} BackOffIsBoundary(s: string, q: nat, n: nat)
    requires q + n <= |s|
    ensures BackOff(s, q, n) > 0 ==> Boundary(s, q + BackOff(s, q, n))
  {
    if n > 0 { BackOffIsBoundary(s, q, n - 1); }
  }

  lemma {:induction false} BackOffReaches(s: string, q: nat, n: nat, m: nat)
    requires q + n <= |s| && 0 < m <= n && Boundary(s, q + m)
    ensures m <= BackOff(s, q, n)
  {
    if m < n { BackOffReaches(s, q, n - 1, m); }
  }

  lemma PrefixMatchIsName(s: string, p: nat, prefix: string)
    requires p <= |s| && MatchPrefix(s, p, prefix) > 0
    ensures NameWith(s, p, p + MatchPrefix(s, p, prefix), prefix)
  {
    BackOffIsBoundary(s, p + |prefix|, TailRun(s, p + |prefix|));
  }

  lemma NameReachesMatch(s: string, p: nat, e: nat, prefix: string)
    requires NameWith(s, p, e, prefix)
    ensures p < e <= p + MatchPrefix(s, p, prefix)
  {
    var q := p + |prefix|;
    RunCovers(s, q, e - q);
    BackOffReaches(s, q, TailRun(s, q), e - q);
  }

  /** What the pattern matches is an interface name. */
  lemma {:induction false} MatchIsName(s: string, p: nat, prefixes: seq<string>)
    requires p <= |s| && MatchAny(s, p, prefixes) > 0
    ensures NameAt(s, p, p + MatchAny(s, p, prefixes), prefixes)
    decreases |prefixes|
  {
    if MatchPrefix(s, p, prefixes[0]) > 0 {
      PrefixMatchIsName(s, p, prefixes[0]);
    } else {
      MatchIsName(s, p, prefixes[1..]);
      var n := MatchAny(s, p, prefixes);
      var i: nat :| i < |prefixes[1..]| && NameWith(s, p, p + n, prefixes[1..][i]);
      assert NameWith(s, p, p + n, prefixes[i + 1]);
    }
  }

  /** Where an interface name starts the pattern matches. */
  lemma {:induction false} NameIsMatched(s: string, p: nat, e: nat, prefixes: seq<string>)
    requires p <= |s| && NameAt(s, p, e, prefixes)
    ensures MatchAny(s, p, prefixes) > 0
    decreases |prefixes|
  {
    var i: nat :| i < |prefixes| && NameWith(s, p, e, prefixes[i]);
    if i == 0 {
      NameReachesMatch(s, p, e, prefixes[0]);
    } else {
      assert NameWith(s, p, e, prefixes[1..][i - 1]);
      NameIsMatched(s, p, e, prefixes[1..]);
    }
  }

  /** A name holds no brace, starts with a letter and ends in a digit, slash or dot. */
  lemma NameShape(s: string, p: nat, e: nat, prefixes: seq<string>)
    requires NameAt(s, p, e, prefixes) && Lettered(prefixes)
    ensures p < e <= |s| && IsWord(s[p]) && !IsTail(s[p]) && IsTail(s[e - 1]) && Boundary(s, p) && Boundary(s, e)
    ensures forall k :: p <= k < e ==> InToken(s[k])
  {
    var i: nat :| i < |prefixes| && NameWith(s, p, e, prefixes[i]);
    var prefix := prefixes[i];
    assert Lower(s[p + 0]) == Lower(prefix[0]);
    forall k | p <= k < e
      ensures InToken(s[k])
    {
      if k < p + |prefix| { assert Lower(s[p + (k - p)]) == Lower(prefix[k - p]); }
    }
  }

  /** `n` characters of `s` from `p` on are those of `t` from `q` on. */
  predicate SameStretch(s: string, p: nat, t: string, q: nat, n: nat) {
    p + n <= |s| && q + n <= |t| && s[p..p + n] == t[q..q + n]
  }

  lemma SameAt(s: string, p: nat, t: string, q: nat, n: nat, k: nat)
    requires SameStretch(s, p, t, q, n) && k < n
    ensures s[p + k] == t[q + k]
  {
    assert s[p..p + n][k] == t[q..q + n][k];
  }

  /** Names depend only on their own characters and the boundaries around them. */
  lemma NameMoves(s: string, p: nat, t: string, q: nat, n: nat, prefixes: seq<string>)
    requires NameAt(s, p, p + n, prefixes) && SameStretch(s, p, t, q, n)
    requires Boundary(t, q) && Boundary(t, q + n)
    ensures NameAt(t, q, q + n, prefixes)
  {
    var i: nat :| i < |prefixes| && NameWith(s, p, p + n, prefixes[i]);
    var prefix := prefixes[i];
    forall k | 0 <= k < |prefix|
      ensures Lower(t[q + k]) == Lower(prefix[k])
    {
      SameAt(s, p, t, q, n, k);
    }
    forall k | q + |prefix| <= k < q + n
      ensures IsTail(t[k])
    {
      SameAt(s, p, t, q, n, k - q);
    }
    assert NameWith(t, q, q + n, prefix);
  }

  // ---------------------------------------------------------------- the substitution by position

  /** What `re.sub` makes of the text from `j` on. */
  function Out(x: string, marks: seq<nat>, j: nat, placeholder: string): string
    requires j <= |x| == |marks|
    decreases |x| - j
  {
    if j == |x| then ""
    else if 0 < marks[j] <= |x| - j then placeholder + Out(x, marks, j + marks[j], placeholder)
    else [x[j]] + Out(x, marks, j + 1, placeholder)
  }

  lemma {:induction false} OutIsSub(x: string, marks: seq<nat>, j: nat, placeholder: string)
    requires j <= |x| == |marks|
    ensures Out(x, marks, j, placeholder) == SubTokens(x[j..], marks[j..], placeholder)
    decreases |x| - j
  {
    if j < |x| {
      if 0 < marks[j] <= |x| - j {
        OutIsSub(x, marks, j + marks[j], placeholder);
        assert x[j..][marks[j]..] == x[j + marks[j]..] && marks[j..][marks[j]..] == marks[j + marks[j]..];
      } else {
        OutIsSub(x, marks, j + 1, placeholder);
        assert x[j..][1..] == x[j + 1..] && marks[j..][1..] == marks[j + 1..];
      }
    }
  }

  lemma StepIsOut(x: string)
    ensures InterfaceStep(x) == Out(x, Marks(x), 0, INTERFACE)
  {
    OutIsSub(x, Marks(x), 0, INTERFACE);
    assert x[0..] == x && Marks(x)[0..] == Marks(x);
  }

  /** The marks are the match lengths: a name stands where one is positive, and none starts where one is zero. */
  ghost predicate Marked(x: string, marks: seq<nat>, prefixes: seq<string>) {
    && |marks| == |x|
    && (forall j :: 0 <= j < |x| && marks[j] > 0 ==> NameAt(x, j, j + marks[j], prefixes))
    && (forall j: nat, e: nat :: j < |x| && NameAt(x, j, e, prefixes) ==> marks[j] > 0)
  }

  predicate MatchMarks(x: string, marks: seq<nat>, prefixes: seq<string>) {
    |marks| == |x| && forall j :: 0 <= j < |x| ==> marks[j] == MatchAny(x, j, prefixes)
  }

  lemma MarksMatch(x: string)
    ensures MatchMarks(x, Marks(x), PREFIXES)
  {
  }

  lemma MatchesMark(x: string, marks: seq<nat>, prefixes: seq<string>)
    requires MatchMarks(x, marks, prefixes)
    ensures Marked(x, marks, prefixes)
  {
    forall j: nat | j < |x| && marks[j] > 0
      ensures NameAt(x, j, j + marks[j], prefixes)
    {
      MatchIsName(x, j, prefixes);
    }
    forall j: nat, e: nat | j < |x| && NameAt(x, j, e, prefixes)
      ensures marks[j] > 0
    {
      NameIsMatched(x, j, e, prefixes);
    }
  }

  /** A stretch of the result without an opening brace is copied. */
  lemma {:induction false} Stretch(x: string, marks: seq<nat>, j: nat, ifc: string, n: nat)
    requires j <= |x| == |marks| && n <= |Out(x, marks, j, ifc)| && ifc != "" && ifc[0] == '{'
    requires forall k :: 0 <= k < n ==> Out(x, marks, j, ifc)[k] != '{'
    ensures SameStretch(x, j, Out(x, marks, j, ifc), 0, n)
    ensures Out(x, marks, j, ifc)[n..] == Out(x, marks, j + n, ifc)
    decreases n
  {
    var out := Out(x, marks, j, ifc);
    if n > 0 {
      assert out[0] != '{';
      var rest := Out(x, marks, j + 1, ifc);
      assert out == [x[j]] + rest;
      assert forall k :: 0 <= k < n - 1 ==> rest[k] == out[k + 1];
      Stretch(x, marks, j + 1, ifc, n - 1);
      StretchCons(x, j, rest, n);
    }
  }

  lemma StretchCons(x: string, j: nat, rest: string, n: nat)
    requires n > 0 && j < |x| && SameStretch(x, j + 1, rest, 0, n - 1)
    ensures SameStretch(x, j, [x[j]] + rest, 0, n) && ([x[j]] + rest)[n..] == rest[n - 1..]
  {
    assert ([x[j]] + rest)[0..n] == [x[j]] + rest[0..n - 1];
    assert x[j..j + n] == [x[j]] + x[j + 1..j + n];
  }

  // ---------------------------------------------------------------- no interface name is left

  /** What stands before the result from `j` on bounds words as what stands before `j` does, or follows a name. */
  predicate Follows(x: string, j: nat, w: string)
    requires j <= |x|
  {
    if j == 0 then w == ""
    else w != "" && (IsWord(w[|w| - 1]) == IsWord(x[j - 1]) || (w[|w| - 1] == '}' && Boundary(x, j)))
  }

  lemma NoNameInPlaceholder(w: string, ifc: string, rest: string, p: nat, e: nat, prefixes: seq<string>)
    requires IsPlaceholder(ifc) && Lettered(prefixes)
    requires |w| <= p < |w| + |ifc|
    ensures !NameAt(w + ifc + rest, p, e, prefixes)
  {
    var t := w + ifc + rest;
    assert forall k :: |w| <= k < |w| + |ifc| ==> t[k] == ifc[k - |w|];
    assert t[|w| + |ifc| - 1] == '}';
    if NameAt(t, p, e, prefixes) {
      NameShape(t, p, e, prefixes);
    }
  }

  /** The boundaries of a copied name are boundaries in the text it was copied from. */
  lemma CopiedBoundaries(x: string, marks: seq<nat>, j: nat, w: string, ifc: string, n: nat, prefixes: seq<string>)
    requires Marked(x, marks, prefixes) && Lettered(prefixes) && IsPlaceholder(ifc)
    requires 0 < n && j + n <= |x| && Follows(x, j, w) && SameStretch(x, j, Out(x, marks, j, ifc), 0, n)
    requires Out(x, marks, j, ifc)[n..] == Out(x, marks, j + n, ifc)
    requires IsWord(x[j])
    requires Boundary(w + Out(x, marks, j, ifc), |w|) && Boundary(w + Out(x, marks, j, ifc), |w| + n)
    ensures Boundary(x, j) && Boundary(x, j + n)
  {
    var out := Out(x, marks, j, ifc);
    var t := w + out;
    SameAt(x, j, out, 0, n, 0);
    SameAt(x, j, out, 0, n, n - 1);
    assert t[|w|] == out[0] && t[|w| + n - 1] == out[n - 1];
    if j + n < |x| && marks[j + n] == 0 {
      assert t[|w| + n] == out[n] == out[n..][0] == x[j + n];
    }
  }

  /** What starts at the seam of `a` and `b` is the start of `b`. */
  lemma SameTail(a: string, b: string, x: string, n: nat)
    requires x == a + b && |a| + n <= |x| && forall m :: |a| <= m < |a| + n ==> InToken(x[m])
    ensures n <= |b| && (forall m :: 0 <= m < n ==> InToken(b[m])) && SameStretch(x, |a|, b, 0, n)
  {
    assert forall m :: 0 <= m < n ==> b[m] == x[|a| + m];
    assert x[|a|..|a| + n] == b[0..0 + n];
  }

  lemma StretchAhead(x: string, marks: seq<nat>, j: nat, out: string, ifc: string, n: nat)
    requires j <= |x| == |marks| && IsPlaceholder(ifc) && out == Out(x, marks, j, ifc)
    requires 0 < n <= |out| && forall k :: 0 <= k < n ==> InToken(out[k])
    ensures SameStretch(x, j, out, 0, n) && out[n..] == Out(x, marks, j + n, ifc)
    ensures x[j] == out[0]
  {
    Stretch(x, marks, j, ifc, n);
    SameAt(x, j, out, 0, n, 0);
  }

  /** A name in the result at a copied position is a stretch of the text. */
  lemma NameIsStretch(x: string, marks: seq<nat>, j: nat, w: string, out: string, ifc: string, n: nat, prefixes: seq<string>)
    requires j <= |x| == |marks| && Lettered(prefixes) && IsPlaceholder(ifc) && out == Out(x, marks, j, ifc)
    requires NameAt(w + out, |w|, |w| + n, prefixes)
    ensures 0 < n && SameStretch(x, j, out, 0, n) && out[n..] == Out(x, marks, j + n, ifc)
    ensures x[j] == (w + out)[|w|]
    ensures SameStretch(w + out, |w|, x, j, n)
  {
    NameShape(w + out, |w|, |w| + n, prefixes);
    SameTail(w, out, w + out, n);
    StretchAhead(x, marks, j, out, ifc, n);
  }

  lemma NameIsCopied(x: string, marks: seq<nat>, j: nat, w: string, ifc: string, n: nat, prefixes: seq<string>)
    requires Marked(x, marks, prefixes) && Lettered(prefixes) && IsPlaceholder(ifc)
    requires j <= |x| && Follows(x, j, w)
    requires NameAt(w + Out(x, marks, j, ifc), |w|, |w| + n, prefixes)
    ensures NameAt(x, j, j + n, prefixes)
  {
    var t := w + Out(x, marks, j, ifc);
    NameIsStretch(x, marks, j, w, Out(x, marks, j, ifc), ifc, n, prefixes);
    NameShape(t, |w|, |w| + n, prefixes);
    CopiedBoundaries(x, marks, j, w, ifc, n, prefixes);
    NameMoves(t, |w|, x, j, n, prefixes);
  }

  lemma NoNameCopied(x: string, marks: seq<nat>, j: nat, w: string, ifc: string, e: nat, prefixes: seq<string>)
    requires Marked(x, marks, prefixes) && Lettered(prefixes) && IsPlaceholder(ifc)
    requires j < |x| && Follows(x, j, w) && marks[j] == 0
    ensures !NameAt(w + Out(x, marks, j, ifc), |w|, e, prefixes)
  {
    if NameAt(w + Out(x, marks, j, ifc), |w|, e, prefixes) {
      NameIsCopied(x, marks, j, w, ifc, e - |w|, prefixes);
    }
  }

  lemma FollowsName(x: string, marks: seq<nat>, j: nat, w: string, ifc: string, prefixes: seq<string>)
    requires Marked(x, marks, prefixes) && Lettered(prefixes) && IsPlaceholder(ifc) && j < |x| && marks[j] > 0
    ensures j + marks[j] <= |x| && Follows(x, j + marks[j], w + ifc)
  {
    NameShape(x, j, j + marks[j], prefixes);
    assert (w + ifc)[|w + ifc| - 1] == ifc[|ifc| - 1];
  }

  /** `t` is what stands before and the result from `j` on: no name starts in the latter. */
  lemma {:induction false} NoNameFrom(x: string, marks: seq<nat>, j: nat, w: string, t: string, ifc: string, p: nat, e: nat,
                                      prefixes: seq<string>)
    requires Marked(x, marks, prefixes) && Lettered(prefixes) && IsPlaceholder(ifc)
    requires j <= |x| && Follows(x, j, w) && |w| <= p && t == w + Out(x, marks, j, ifc)
    ensures !NameAt(t, p, e, prefixes)
    decreases |x| - j
  {
    if j == |x| {
      if NameAt(t, p, e, prefixes) { NameShape(t, p, e, prefixes); }
    } else if marks[j] > 0 {
      FollowsName(x, marks, j, w, ifc, prefixes);
      var rest := Out(x, marks, j + marks[j], ifc);
      assert t == w + ifc + rest;
      if p < |w| + |ifc| {
        NoNameInPlaceholder(w, ifc, rest, p, e, prefixes);
      } else {
        NoNameFrom(x, marks, j + marks[j], w + ifc, t, ifc, p, e, prefixes);
      }
    } else if p == |w| {
      NoNameCopied(x, marks, j, w, ifc, e, prefixes);
    } else {
      assert t == w + [x[j]] + Out(x, marks, j + 1, ifc);
      NoNameFrom(x, marks, j + 1, w + [x[j]], t, ifc, p, e, prefixes);
    }
  }

  lemma PlaceholdersAre()
    ensures IsPlaceholder(DEVICE) && IsPlaceholder(INTERFACE)
  {
  }

  lemma NoNameAfterStep(x: string, p: nat, e: nat)
    ensures !NameAt(InterfaceStep(x), p, e, PREFIXES)
  {
    PrefixesAreLettered();
    PlaceholdersAre();
    MarksMatch(x);
    MatchesMark(x, Marks(x), PREFIXES);
    StepIsOut(x);
    assert "" + InterfaceStep(x) == InterfaceStep(x);
    NoNameFrom(x, Marks(x), 0, "", InterfaceStep(x), INTERFACE, p, e, PREFIXES);
  }

  /** `r` stands at `n` in `t`, with only spaces around it. */
  ghost predicate Trimmed(t: string, r: string, n: nat) {
    SameStretch(t, n, r, 0, |r|) && forall k :: 0 <= k < n || n + |r| <= k < |t| ==> IsSpace(t[k])
  }

  /** Spaces are no word characters, so boundaries are where they were. */
  lemma TrimmedBoundary(t: string, r: string, n: nat, p: nat)
    requires Trimmed(t, r, n) && p <= |r|
    ensures Boundary(r, p) ==> Boundary(t, n + p)
  {
    if p > 0 { SameAt(t, n, r, 0, |r|, p - 1); }
    if p < |r| { SameAt(t, n, r, 0, |r|, p); }
    assert p == 0 && n > 0 ==> IsSpace(t[n - 1]);
    assert p == |r| && n + p < |t| ==> IsSpace(t[n + p]);
  }

  lemma NamesOfTrimmed(t: string, r: string, n: nat, p: nat, m: nat, prefixes: seq<string>)
    requires Trimmed(t, r, n) && NameAt(r, p, p + m, prefixes) && Lettered(prefixes)
    ensures NameAt(t, n + p, n + p + m, prefixes)
  {
    NameShape(r, p, p + m, prefixes);
    StretchOfStretch(r, t, n, p, m);
    TrimmedBoundary(t, r, n, p);
    TrimmedBoundary(t, r, n, p + m);
    NameMoves(r, p, t, n + p, m, prefixes);
  }

  lemma SliceOfSlice(t: string, n: nat, l: nat, p: nat, m: nat)
    requires n + l <= |t| && p + m <= l
    ensures t[n..n + l][p..p + m] == t[n + p..n + p + m]
  {
    var a, b := t[n..n + l][p..p + m], t[n + p..n + p + m];
    assert forall k :: 0 <= k < m ==> a[k] == b[k];
  }

  lemma StretchOfStretch(r: string, t: string, n: nat, p: nat, m: nat)
    requires SameStretch(t, n, r, 0, |r|) && p + m <= |r|
    ensures SameStretch(r, p, t, n + p, m)
  {
    SliceOfSlice(t, n, |r|, p, m);
    assert r[0..0 + |r|] == r;
  }

  /** No template holds an interface name. */
  lemma TemplateHasNoInterface(commands: string, device: string, p: nat)
    requires p <= |Generalize(commands, device)|
    ensures MatchAny(Generalize(commands, device), p, PREFIXES) == 0
  {
    NoNameInStripped(DeviceStep(commands, device), p, MatchAny(Generalize(commands, device), p, PREFIXES));
    if MatchAny(Generalize(commands, device), p, PREFIXES) > 0 {
      MatchIsName(Generalize(commands, device), p, PREFIXES);
    }
  }

  lemma StripTrims(t: string) returns (n: nat)
    ensures Trimmed(t, Strip(t), n)
  {
    n := StripIsTrim(t);
    assert Strip(t)[0..0 + |Strip(t)|] == Strip(t);
  }

  lemma NoNameInTrimmed(t: string, r: string, n: nat, p: nat, m: nat, prefixes: seq<string>)
    requires Trimmed(t, r, n) && Lettered(prefixes) && forall q: nat, e: nat :: !NameAt(t, q, e, prefixes)
    ensures !NameAt(r, p, p + m, prefixes)
  {
    if NameAt(r, p, p + m, prefixes) {
      NamesOfTrimmed(t, r, n, p, m, prefixes);
    }
  }

  lemma NoNameInStripped(x: string, p: nat, m: nat)
    ensures !NameAt(Strip(InterfaceStep(x)), p, p + m, PREFIXES)
  {
    var t := InterfaceStep(x);
    var n := StripTrims(t);
    PrefixesAreLettered();
    forall q: nat, e: nat
      ensures !NameAt(t, q, e, PREFIXES)
    {
      NoNameAfterStep(x, q, e);
    }
    NoNameInTrimmed(t, Strip(t), n, p, m, PREFIXES);
  }

  // ---------------------------------------------------------------- no device name is left

  ghost predicate Occurs(d: string, s: string) {
    exists k: nat :: StartsAt(s, k, d)
  }

  predicate BraceFree(d: string) { '{' !in d && '}' !in d }

  lemma StartsIffStretch(s: string, k: nat, d: string)
    ensures StartsAt(s, k, d) <==> SameStretch(s, k, d, 0, |d|)
  {
    assert d[0..0 + |d|] == d;
  }

  /** Text without braces that starts inside a placeholder ends inside it. */
  lemma InsidePlaceholder(placeholder: string, rest: string, k: nat, d: string)
    requires IsPlaceholder(placeholder) && BraceFree(d) && d != "" && k < |placeholder|
    requires StartsAt(placeholder + rest, k, d)
    ensures Occurs(d, placeholder)
  {
    var s, last := placeholder + rest, |placeholder| - 1;
    StartsIffStretch(s, k, d);
    if k + |d| > last {
      SameAt(s, k, d, 0, |d|, last - k);
    }
    assert placeholder[k..k + |d|] == s[k..k + |d|];
    assert StartsAt(placeholder, k, d);
  }

  lemma ShiftedStart(head: string, rest: string, k: nat, d: string)
    requires |head| <= k && StartsAt(head + rest, k, d)
    ensures StartsAt(rest, k - |head|, d)
  {
    assert (head + rest)[k..k + |d|] == rest[k - |head|..k - |head| + |d|];
  }

  /** Text without braces at the start of the result stood at the start of the commands. */
  lemma {:induction false} CopiedStart(c: string, d: string, dev: string, n: nat)
    requires d != "" && IsPlaceholder(dev) && n <= |Replace(c, d, dev)|
    requires forall k :: 0 <= k < n ==> Replace(c, d, dev)[k] != '{'
    ensures SameStretch(c, 0, Replace(c, d, dev), 0, n)
    decreases n
  {
    var out := Replace(c, d, dev);
    if n > 0 && |c| >= |d| {
      assert out[0] != '{';
      var rest := Replace(c[1..], d, dev);
      assert out == [c[0]] + rest;
      assert forall k :: 0 <= k < n - 1 ==> rest[k] == out[k + 1];
      CopiedStart(c[1..], d, dev, n - 1);
      assert out[0..n] == [c[0]] + rest[0..n - 1];
      assert c[0..n] == [c[0]] + c[1..][0..n - 1];
    }
  }

  lemma NoBraceAhead(out: string, d: string)
    requires BraceFree(d) && StartsAt(out, 0, d)
    ensures forall k :: 0 <= k < |d| ==> out[k] != '{'
  {
    assert out[..|d|] == d;
    assert forall k :: 0 <= k < |d| ==> out[k] == d[k];
  }

  lemma NotCopied(c: string, d: string, dev: string)
    requires BraceFree(d) && d != "" && IsPlaceholder(dev)
    requires StartsAt(Replace(c, d, dev), 0, d)
    ensures StartsAt(c, 0, d)
  {
    NoBraceAhead(Replace(c, d, dev), d);
    CopiedStart(c, d, dev, |d|);
  }

  lemma {:induction false} NoDeviceAfterStep(c: string, d: string, dev: string, k: nat)
    requires d != "" && BraceFree(d) && IsPlaceholder(dev) && !Occurs(d, dev)
    ensures !StartsAt(Replace(c, d, dev), k, d)
    decreases |c|
  {
    var out := Replace(c, d, dev);
    if |c| >= |d| && StartsAt(out, k, d) {
      if c[..|d|] == d {
        var rest := Replace(c[|d|..], d, dev);
        if k < |dev| {
          InsidePlaceholder(dev, rest, k, d);
        } else {
          ShiftedStart(dev, rest, k, d);
          NoDeviceAfterStep(c[|d|..], d, dev, k - |dev|);
        }
      } else if k == 0 {
        NotCopied(c, d, dev);
      } else {
        ShiftedStart([c[0]], Replace(c[1..], d, dev), k, d);
        NoDeviceAfterStep(c[1..], d, dev, k - 1);
      }
    }
  }

  lemma {:induction false} NoDeviceFrom(x: string, marks: seq<nat>, j: nat, ifc: string, d: string, k: nat)
    requires j <= |x| == |marks| && d != "" && BraceFree(d) && IsPlaceholder(ifc) && !Occurs(d, ifc) && !Occurs(d, x)
    ensures !StartsAt(Out(x, marks, j, ifc), k, d)
    decreases |x| - j
  {
    var out := Out(x, marks, j, ifc);
    if j < |x| && StartsAt(out, k, d) {
      if 0 < marks[j] <= |x| - j {
        var rest := Out(x, marks, j + marks[j], ifc);
        if k < |ifc| {
          InsidePlaceholder(ifc, rest, k, d);
        } else {
          ShiftedStart(ifc, rest, k, d);
          NoDeviceFrom(x, marks, j + marks[j], ifc, d, k - |ifc|);
        }
      } else if k == 0 {
        CopiedFrom(x, marks, j, ifc, d);
      } else {
        ShiftedStart([x[j]], Out(x, marks, j + 1, ifc), k, d);
        NoDeviceFrom(x, marks, j + 1, ifc, d, k - 1);
      }
    }
  }

  lemma CopiedFrom(x: string, marks: seq<nat>, j: nat, ifc: string, d: string)
    requires j <= |x| == |marks| && BraceFree(d) && IsPlaceholder(ifc)
    requires StartsAt(Out(x, marks, j, ifc), 0, d)
    ensures Occurs(d, x)
  {
    NoBraceAhead(Out(x, marks, j, ifc), d);
    Stretch(x, marks, j, ifc, |d|);
    assert StartsAt(x, j, d);
  }

  /** No template holds the name of the device it was made for, unless that is part of a placeholder. */
  lemma TemplateHasNoDevice(commands: string, device: string)
    requires device != "" && BraceFree(device) && !Occurs(device, DEVICE) && !Occurs(device, INTERFACE)
    ensures !Occurs(device, Generalize(commands, device))
  {
    var x := DeviceStep(commands, device);
    var t := InterfaceStep(x);
    PlaceholdersAre();
    forall k: nat
      ensures !StartsAt(x, k, device)
    {
      NoDeviceAfterStep(commands, device, DEVICE, k);
    }
    StepIsOut(x);
    forall k: nat
      ensures !StartsAt(Strip(t), k, device)
    {
      var n := StripIsTrim(t);
      NoDeviceFrom(x, Marks(x), 0, INTERFACE, device, n + k);
      StartInStripped(t, n, k, device);
    }
  }

  lemma StartInStripped(t: string, n: nat, k: nat, d: string)
    requires SameStretch(t, n, Strip(t), 0, |Strip(t)|)
    ensures StartsAt(Strip(t), k, d) ==> StartsAt(t, n + k, d)
  {
    if StartsAt(Strip(t), k, d) {
      StretchOfStretch(Strip(t), t, n, k, |d|);
    }
  }

  // ---------------------------------------------------------------- where a name stands alone

  /** Characters that can continue an interface name or a word. */
  predicate InName(c: char) { InToken(c) || IsWord(c) }

  /** `i` stands at `j` in `x` with nothing before or after it that could continue it. */
  predicate Alone(x: string, j: nat, i: string) {
    && i != "" && SameStretch(x, j, i, 0, |i|)
    && (j == 0 || !IsWord(x[j - 1])) && (j + |i| == |x| || !InName(x[j + |i|]))
  }

  lemma BoundaryAlone(x: string, j: nat, i: string, p: nat)
    requires Alone(x, j, i) && p <= |i|
    ensures Boundary(x, j + p) == Boundary(i, p)
  {
    if p > 0 { SameAt(x, j, i, 0, |i|, p - 1); }
    if p < |i| { SameAt(x, j, i, 0, |i|, p); }
  }

  lemma {:induction false} RunAlone(x: string, j: nat, i: string, q: nat)
    requires Alone(x, j, i) && q <= |i|
    ensures TailRun(x, j + q) == TailRun(i, q)
    decreases |i| - q
  {
    if q < |i| {
      SameAt(x, j, i, 0, |i|, q);
      RunAlone(x, j, i, q + 1);
    }
  }

  lemma {:induction false} BackOffAlone(x: string, j: nat, i: string, q: nat, n: nat)
    requires Alone(x, j, i) && q + n <= |i|
    ensures BackOff(x, j + q, n) == BackOff(i, q, n)
  {
    if n > 0 {
      BoundaryAlone(x, j, i, q + n);
      BackOffAlone(x, j, i, q, n - 1);
    }
  }

  lemma PrefixAlone(x: string, j: nat, i: string, prefix: string)
    requires Alone(x, j, i)
    requires forall k :: 0 <= k < |prefix| ==> InToken(prefix[k]) && !IsTail(prefix[k])
    ensures HasPrefix(x, j, prefix) == HasPrefix(i, 0, prefix)
  {
    if |prefix| <= |i| {
      forall k | 0 <= k < |prefix|
        ensures Lower(x[j + k]) == Lower(prefix[k]) <==> Lower(i[k]) == Lower(prefix[k])
      {
        SameAt(x, j, i, 0, |i|, k);
      }
      assert HasPrefix(i, 0, prefix) <==> forall k :: 0 <= k < |prefix| ==> Lower(i[k]) == Lower(prefix[k]);
    } else if j + |i| < |x| {
      assert Lower(x[j + |i|]) != Lower(prefix[|i|]);
    }
  }

  lemma MatchPrefixAlone(x: string, j: nat, i: string, prefix: string)
    requires Alone(x, j, i)
    requires forall k :: 0 <= k < |prefix| ==> InToken(prefix[k]) && !IsTail(prefix[k])
    ensures MatchPrefix(x, j, prefix) == MatchPrefix(i, 0, prefix)
  {
    BoundaryAlone(x, j, i, 0);
    PrefixAlone(x, j, i, prefix);
    if HasPrefix(i, 0, prefix) {
      RunAlone(x, j, i, |prefix|);
      BackOffAlone(x, j, i, |prefix|, TailRun(i, |prefix|));
    }
  }

  /** A name that stands alone is matched as it is by itself. */
  lemma {:induction false} MatchAlone(x: string, j: nat, i: string, prefixes: seq<string>)
    requires Alone(x, j, i) && Lettered(prefixes)
    ensures MatchAny(x, j, prefixes) == MatchAny(i, 0, prefixes)
    decreases |prefixes|
  {
    if prefixes != [] {
      var rest := prefixes[1..];
      assert Lettered(rest) by { assert forall k :: 0 <= k < |rest| ==> rest[k] == prefixes[k + 1]; }
      MatchPrefixAlone(x, j, i, prefixes[0]);
      MatchAlone(x, j, i, rest);
    }
  }

  // ---------------------------------------------------------------- commands made from one pattern

  /** The device name starts nowhere in the commands but where the pattern has the device. */
  predicate DeviceOnlyThere(ps: seq<Piece>, d: string, i: string) {
    ps == []
    || (&& (ps[0].Device? || forall k: nat :: k < |RenderPiece(ps[0], d, i)| ==> !StartsAt(Render(ps, d, i), k, d))
        && DeviceOnlyThere(ps[1..], d, i))
  }

  predicate IsEdge(p: Piece) { p.Device? || (p.Plain? && !InName(p.c)) }

  /** Next to an interface stands nothing that could continue its name. */
  predicate ApartAt(ps: seq<Piece>, k: nat) {
    k + 1 < |ps| && (ps[k].Interface? ==> IsEdge(ps[k + 1])) && (ps[k + 1].Interface? ==> IsEdge(ps[k]))
  }

  predicate Apart(ps: seq<Piece>) {
    forall k: nat :: k + 1 < |ps| ==> ApartAt(ps, k)
  }

  /** The whole text is one interface name. */
  predicate IsName(i: string, prefixes: seq<string>) { i != "" && MatchAny(i, 0, prefixes) == |i| }

  ghost predicate NameFree(t: string, prefixes: seq<string>) {
    forall p: nat, e: nat :: !NameAt(t, p, e, prefixes)
  }

  /** The commands show their pattern: device and interface stand out, and its plain text holds no interface name. */
  ghost predicate Separable(ps: seq<Piece>, d: string, i: string) {
    && (Device in ps ==> d != "") && (d != "" ==> DeviceOnlyThere(ps, d, i))
    && Apart(ps) && (Interface in ps ==> IsName(i, PREFIXES))
    && NameFree(Render(ps, DEVICE, INTERFACE), PREFIXES)
  }

  lemma {:induction false} DeviceStepOfRendering(ps: seq<Piece>, d: string, i: string, dev: string)
    requires d != "" && DeviceOnlyThere(ps, d, i)
    ensures Replace(Render(ps, d, i), d, dev) == Render(ps, dev, i)
    decreases |ps|
  {
    if ps != [] {
      DeviceStepOfRendering(ps[1..], d, i, dev);
      var head, rest := RenderPiece(ps[0], d, i), Render(ps[1..], d, i);
      if ps[0].Device? {
        assert (d + rest)[..|d|] == d && (d + rest)[|d|..] == rest;
      } else {
        forall k | 0 <= k < |head|
          ensures !StartsAt(head + rest, k, d)
        {
          assert !StartsAt(Render(ps, d, i), k, d);
        }
        ReplaceCopies(head, rest, d, dev);
      }
    }
  }

  lemma {:induction false} WithoutDevice(ps: seq<Piece>, d: string, i: string, dev: string)
    requires Device !in ps
    ensures Render(ps, d, i) == Render(ps, dev, i)
    decreases |ps|
  {
    if ps != [] {
      assert ps[0] in ps && forall p :: p in ps[1..] ==> p in ps;
      WithoutDevice(ps[1..], d, i, dev);
    }
  }

  /** The text of the first `k` pieces, and of the pieces from `k` on. */
  function Upto(ps: seq<Piece>, k: nat, d: string, i: string): string
    requires k <= |ps|
  {
    if k == 0 then "" else Upto(ps, k - 1, d, i) + RenderPiece(ps[k - 1], d, i)
  }

  function From(ps: seq<Piece>, k: nat, d: string, i: string): string
    requires k <= |ps|
    decreases |ps| - k
  {
    if k == |ps| then "" else RenderPiece(ps[k], d, i) + From(ps, k + 1, d, i)
  }

  lemma {:induction false} FromIsRender(ps: seq<Piece>, k: nat, d: string, i: string)
    requires k <= |ps|
    ensures From(ps, k, d, i) == Render(ps[k..], d, i)
    decreases |ps| - k
  {
    if k < |ps| {
      FromIsRender(ps, k + 1, d, i);
      assert ps[k..][1..] == ps[k + 1..];
    }
  }

  lemma {:induction false} SplitsAt(ps: seq<Piece>, k: nat, d: string, i: string)
    requires k <= |ps|
    ensures Upto(ps, k, d, i) + From(ps, k, d, i) == From(ps, 0, d, i)
  {
    if k == 0 {
      assert "" + From(ps, 0, d, i) == From(ps, 0, d, i);
    } else {
      SplitsAt(ps, k - 1, d, i);
      var a, piece, rest := Upto(ps, k - 1, d, i), RenderPiece(ps[k - 1], d, i), From(ps, k, d, i);
      assert (a + piece) + rest == a + (piece + rest);
    }
  }

  /** The text as what comes before the `k`-th piece, the piece and what comes after. */
  lemma AroundPiece(ps: seq<Piece>, k: nat, d: string, i: string)
    requires k < |ps|
    ensures From(ps, 0, d, i) == Upto(ps, k, d, i) + RenderPiece(ps[k], d, i) + From(ps, k + 1, d, i)
  {
    SplitsAt(ps, k + 1, d, i);
  }

  /** The text of `n` plain pieces. */
  function PlainText(ps: seq<Piece>, k: nat, n: nat): (text: string)
    requires PlainFrom(ps, k, n)
    ensures |text| == n && forall m :: 0 <= m < n ==> text[m] == ps[k + m].c
  {
    seq(n, m requires 0 <= m < n => ps[k + m].c)
  }

  predicate PlainFrom(ps: seq<Piece>, k: nat, n: nat) {
    k + n <= |ps| && forall m :: k <= m < k + n ==> ps[m].Plain?
  }

  /** Plain pieces render to the same text whatever device and interface are. */
  lemma {:induction false} PlainRenders(ps: seq<Piece>, k: nat, n: nat, d: string, i: string)
    requires PlainFrom(ps, k, n)
    ensures From(ps, k, d, i) == PlainText(ps, k, n) + From(ps, k + n, d, i)
    decreases n
  {
    if n > 0 {
      PlainRenders(ps, k + 1, n - 1, d, i);
      PlainCons(ps, k, n, From(ps, k + n, d, i));
    } else {
      assert PlainText(ps, k, 0) == "";
    }
  }

  lemma PlainCons(ps: seq<Piece>, k: nat, n: nat, rest: string)
    requires n > 0 && PlainFrom(ps, k, n)
    ensures PlainText(ps, k, n) + rest == [ps[k].c] + (PlainText(ps, k + 1, n - 1) + rest)
  {
    assert PlainText(ps, k, n) == [ps[k].c] + PlainText(ps, k + 1, n - 1);
  }

  /** A stretch of name characters that starts in plain text stays in plain text. */
  lemma {:induction false} PlainAhead(ps: seq<Piece>, k: nat, n: nat, i: string, dev: string)
    requires k < |ps| && Apart(ps) && ps[k].Plain? && IsPlaceholder(dev)
    requires 0 < n <= |From(ps, k, dev, i)| && forall m :: 0 <= m < n ==> InToken(From(ps, k, dev, i)[m])
    ensures PlainFrom(ps, k, n) && InToken(ps[k + n - 1].c)
    decreases n
  {
    var a, b := From(ps, k, dev, i), From(ps, k + 1, dev, i);
    assert a[0] == ps[k].c && forall m :: 0 <= m < n - 1 ==> b[m] == a[m + 1];
    if n > 1 {
      assert InToken(b[0]);
      if k + 1 < |ps| { assert ApartAt(ps, k); }
      PlainAhead(ps, k + 1, n - 1, i, dev);
    }
  }

  predicate WordEnd(s: string) { s != "" && IsWord(s[|s| - 1]) }

  predicate WordStart(s: string) { s != "" && IsWord(s[0]) }

  lemma BoundaryBetween(a: string, m: string, rest: string)
    requires m != ""
    ensures Boundary(a + m + rest, |a|) <==> (WordEnd(a) != WordStart(m))
    ensures Boundary(a + m + rest, |a| + |m|) <==> (WordEnd(m) != WordStart(rest))
  {
    var s := a + m + rest;
    assert s[|a|] == m[0] && s[|a| + |m| - 1] == m[|m| - 1];
    assert a != "" ==> s[|a| - 1] == a[|a| - 1];
    assert rest != "" ==> s[|a| + |m|] == rest[0];
  }

  /** A name is a name in other surroundings that bound words alike. */
  lemma NameTransfers(s: string, a: string, m: string, rest: string, t: string, b: string, more: string, prefixes: seq<string>)
    requires s == a + m + rest && t == b + m + more
    requires NameAt(s, |a|, |a| + |m|, prefixes) && Lettered(prefixes)
    requires (WordEnd(b) ==> WordEnd(a)) && WordStart(rest) == WordStart(more)
    ensures NameAt(t, |b|, |b| + |m|, prefixes)
  {
    NameShape(s, |a|, |a| + |m|, prefixes);
    assert s[|a|] == m[0];
    BoundaryBetween(a, m, rest);
    BoundaryBetween(b, m, more);
    assert s[|a|..|a| + |m|] == m == t[|b|..|b| + |m|];
    NameMoves(s, |a|, t, |b|, |m|, prefixes);
  }

  /** The same, for a name given by its two ends. */
  lemma NameStays(s: string, j: nat, e: nat, a: string, m: string, rest: string, t: string, b: string, more: string,
                  prefixes: seq<string>) returns (q: nat, f: nat)
    requires NameAt(s, j, e, prefixes) && Lettered(prefixes) && j < e
    requires s == a + m + rest && t == b + m + more && |a| == j && |m| == e - j
    requires (WordEnd(b) ==> WordEnd(a)) && WordStart(rest) == WordStart(more)
    ensures NameAt(t, q, f, prefixes)
  {
    NameTransfers(s, a, m, rest, t, b, more, prefixes);
    q, f := |b|, |b| + |m|;
  }

  lemma EndOfLast(a: string, piece: string)
    requires piece != ""
    ensures WordEnd(a + piece) == WordEnd(piece)
  {
    assert (a + piece)[|a + piece| - 1] == piece[|piece| - 1];
  }

  /** No piece ends in a word in the template unless it does in the commands. */
  lemma PieceWordEnd(p: Piece, i: string, dev: string, ifc: string)
    requires IsPlaceholder(dev) && IsPlaceholder(ifc)
    ensures RenderPiece(p, dev, ifc) != ""
    ensures WordEnd(RenderPiece(p, dev, ifc)) ==> p.Plain? && RenderPiece(p, dev, i) == RenderPiece(p, dev, ifc)
  {
  }

  /** What stands just before the `k`-th piece bounds words in the template where it does in the commands. */
  lemma WordEndBefore(ps: seq<Piece>, k: nat, i: string, dev: string, ifc: string)
    requires k <= |ps| && IsPlaceholder(dev) && IsPlaceholder(ifc)
    ensures WordEnd(Upto(ps, k, dev, ifc)) ==> WordEnd(Upto(ps, k, dev, i))
  {
    if k > 0 {
      var p := ps[k - 1];
      PieceWordEnd(p, i, dev, ifc);
      EndOfLast(Upto(ps, k - 1, dev, ifc), RenderPiece(p, dev, ifc));
      if WordEnd(RenderPiece(p, dev, ifc)) { EndOfLast(Upto(ps, k - 1, dev, i), RenderPiece(p, dev, i)); }
    }
  }

  lemma WordStartAfter(ps: seq<Piece>, k: nat, i: string, dev: string, ifc: string)
    requires k <= |ps| && IsPlaceholder(dev) && (k < |ps| ==> !ps[k].Interface?)
    ensures WordStart(From(ps, k, dev, i)) == WordStart(From(ps, k, dev, ifc))
  {
  }

  /** The text is what comes before the plain stretch, the stretch and what comes after it. */
  lemma AroundPlain(ps: seq<Piece>, k: nat, n: nat, d: string, i: string)
    requires PlainFrom(ps, k, n)
    ensures From(ps, 0, d, i) == Upto(ps, k, d, i) + PlainText(ps, k, n) + From(ps, k + n, d, i)
  {
    SplitsAt(ps, k, d, i);
    PlainRenders(ps, k, n, d, i);
  }

  lemma PlainSurroundings(ps: seq<Piece>, k: nat, n: nat, i: string, dev: string, ifc: string)
    requires 0 < n && PlainFrom(ps, k, n) && InToken(ps[k + n - 1].c) && Apart(ps)
    requires IsPlaceholder(dev) && IsPlaceholder(ifc)
    ensures WordEnd(Upto(ps, k, dev, ifc)) ==> WordEnd(Upto(ps, k, dev, i))
    ensures WordStart(From(ps, k + n, dev, i)) == WordStart(From(ps, k + n, dev, ifc))
  {
    WordEndBefore(ps, k, i, dev, ifc);
    if k + n < |ps| { assert ApartAt(ps, k + n - 1); }
    WordStartAfter(ps, k + n, i, dev, ifc);
  }

  /** Commands and template around a plain stretch. */
  lemma PlainParts(ps: seq<Piece>, k: nat, n: nat, i: string, dev: string, ifc: string)
    returns (a: string, m: string, rest: string, b: string, more: string)
    requires 0 < n && PlainFrom(ps, k, n) && InToken(ps[k + n - 1].c) && Apart(ps)
    requires IsPlaceholder(dev) && IsPlaceholder(ifc)
    ensures From(ps, 0, dev, i) == a + m + rest && From(ps, 0, dev, ifc) == b + m + more
    ensures a == Upto(ps, k, dev, i) && |m| == n
    ensures (WordEnd(b) ==> WordEnd(a)) && WordStart(rest) == WordStart(more)
  {
    a, m, rest := Upto(ps, k, dev, i), PlainText(ps, k, n), From(ps, k + n, dev, i);
    b, more := Upto(ps, k, dev, ifc), From(ps, k + n, dev, ifc);
    AroundPlain(ps, k, n, dev, i);
    AroundPlain(ps, k, n, dev, ifc);
    PlainSurroundings(ps, k, n, i, dev, ifc);
  }

  /** A stretch of name characters in plain text, in commands and template. */
  lemma StretchParts(ps: seq<Piece>, k: nat, x: string, j: nat, n: nat, i: string, dev: string, ifc: string)
    returns (a: string, m: string, rest: string, b: string, more: string)
    requires k < |ps| && ps[k].Plain? && Apart(ps) && IsPlaceholder(dev) && IsPlaceholder(ifc)
    requires x == From(ps, 0, dev, i) && j == |Upto(ps, k, dev, i)|
    requires 0 < n && j + n <= |x| && forall m :: j <= m < j + n ==> InToken(x[m])
    ensures x == a + m + rest && From(ps, 0, dev, ifc) == b + m + more
    ensures |a| == j && |m| == n
    ensures (WordEnd(b) ==> WordEnd(a)) && WordStart(rest) == WordStart(more)
  {
    SplitsAt(ps, k, dev, i);
    SameTail(Upto(ps, k, dev, i), From(ps, k, dev, i), x, n);
    PlainAhead(ps, k, n, i, dev);
    a, m, rest, b, more := PlainParts(ps, k, n, i, dev, ifc);
  }

  /** A name in the commands that starts in plain text is a name in the template. */
  lemma PlainNameIsKept(ps: seq<Piece>, k: nat, x: string, t: string, j: nat, e: nat, i: string, dev: string, ifc: string,
                        prefixes: seq<string>) returns (q: nat, f: nat)
    requires k < |ps| && ps[k].Plain? && Apart(ps) && IsPlaceholder(dev) && IsPlaceholder(ifc) && Lettered(prefixes)
    requires x == From(ps, 0, dev, i) && t == From(ps, 0, dev, ifc) && j == |Upto(ps, k, dev, i)|
    requires NameAt(x, j, e, prefixes)
    ensures NameAt(t, q, f, prefixes)
  {
    NameShape(x, j, e, prefixes);
    var a, m, rest, b, more := StretchParts(ps, k, x, j, e - j, i, dev, ifc);
    q, f := NameStays(x, j, e, a, m, rest, t, b, more, prefixes);
  }

  /** No interface name starts in the plain text of the commands, as none does in the template. */
  lemma NoNameInPlain(ps: seq<Piece>, k: nat, x: string, e: nat, i: string, dev: string, ifc: string, prefixes: seq<string>)
    requires k < |ps| && ps[k].Plain? && Apart(ps) && IsPlaceholder(dev) && IsPlaceholder(ifc) && Lettered(prefixes)
    requires x == From(ps, 0, dev, i) && NameFree(From(ps, 0, dev, ifc), prefixes)
    ensures !NameAt(x, |Upto(ps, k, dev, i)|, e, prefixes)
  {
    var j := |Upto(ps, k, dev, i)|;
    if NameAt(x, j, e, prefixes) {
      var q, f := PlainNameIsKept(ps, k, x, From(ps, 0, dev, ifc), j, e, i, dev, ifc, prefixes);
    }
  }

  // ---------------------------------------------------------------- the template of commands made from one pattern

  /** Interface stands out, and the plain text holds no interface name. */
  ghost predicate Clear(ps: seq<Piece>, i: string, dev: string, ifc: string, prefixes: seq<string>) {
    && Apart(ps) && IsPlaceholder(dev) && IsPlaceholder(ifc) && Lettered(prefixes)
    && (Interface in ps ==> IsName(i, prefixes))
    && NameFree(From(ps, 0, dev, ifc), prefixes)
  }

  /** Every name replaced from `j` on is `i`. */
  predicate AllFrom(x: string, marks: seq<nat>, j: nat, i: string)
    requires j <= |x| == |marks|
    decreases |x| - j
  {
    if j == |x| then true
    else if 0 < marks[j] <= |x| - j then x[j..j + marks[j]] == i && AllFrom(x, marks, j + marks[j], i)
    else AllFrom(x, marks, j + 1, i)
  }

  lemma {:induction false} AllFromIsAll(x: string, marks: seq<nat>, j: nat, i: string)
    requires j <= |x| == |marks|
    ensures AllFrom(x, marks, j, i) == AllTokensAre(x[j..], marks[j..], i)
    decreases |x| - j
  {
    if j < |x| {
      if 0 < marks[j] <= |x| - j {
        AllFromIsAll(x, marks, j + marks[j], i);
        assert x[j..][marks[j]..] == x[j + marks[j]..] && marks[j..][marks[j]..] == marks[j + marks[j]..];
        assert x[j..][..marks[j]] == x[j..j + marks[j]];
      } else {
        AllFromIsAll(x, marks, j + 1, i);
        assert x[j..][1..] == x[j + 1..] && marks[j..][1..] == marks[j + 1..];
      }
    }
  }

  /** From `j` on the substitution writes `head` and goes on at `next`, replacing nothing but `i`. */
  predicate Writes(x: string, marks: seq<nat>, j: nat, next: nat, head: string, ifc: string, i: string)
    requires j <= next <= |x| == |marks|
  {
    && Out(x, marks, j, ifc) == head + Out(x, marks, next, ifc)
    && (AllFrom(x, marks, next, i) ==> AllFrom(x, marks, j, i))
  }

  lemma {:induction false} CopiesRun(x: string, marks: seq<nat>, j: nat, n: nat, ifc: string, i: string)
    requires j + n <= |x| == |marks| && forall p :: j <= p < j + n ==> marks[p] == 0
    ensures Writes(x, marks, j, j + n, x[j..j + n], ifc, i)
    decreases n
  {
    if n == 0 {
      assert x[j..j] == "";
    } else {
      CopiesRun(x, marks, j + 1, n - 1, ifc, i);
      assert x[j..j + n] == [x[j]] + x[j + 1..j + n];
    }
  }

  lemma NoMarkWithoutName(x: string, marks: seq<nat>, j: nat, prefixes: seq<string>)
    requires MatchMarks(x, marks, prefixes) && j < |x|
    ensures marks[j] > 0 ==> NameAt(x, j, j + marks[j], prefixes)
  {
    if marks[j] > 0 { MatchIsName(x, j, prefixes); }
  }

  /** A written stretch of the commands between `a` and `rest`. */
  ghost predicate WrittenAt(x: string, marks: seq<nat>, a: string, piece: string, head: string, ifc: string, i: string) {
    |a| + |piece| <= |x| == |marks| && Writes(x, marks, |a|, |a| + |piece|, head, ifc, i)
  }

  /** A placeholder in the text is copied. */
  lemma PlaceholderIsCopied(x: string, a: string, dev: string, rest: string, marks: seq<nat>, ifc: string, i: string,
                            prefixes: seq<string>)
    requires x == a + dev + rest && IsPlaceholder(dev) && Lettered(prefixes) && MatchMarks(x, marks, prefixes)
    ensures WrittenAt(x, marks, a, dev, dev, ifc, i)
  {
    forall p | |a| <= p < |a| + |dev|
      ensures marks[p] == 0
    {
      NoMarkWithoutName(x, marks, p, prefixes);
      NoNameInPlaceholder(a, dev, rest, p, p + marks[p], prefixes);
    }
    CopiesRun(x, marks, |a|, |dev|, ifc, i);
    assert x[|a|..|a| + |dev|] == dev;
  }

  lemma AloneBetween(x: string, a: string, i: string, rest: string)
    requires x == a + i + rest && i != "" && !WordEnd(a) && (rest == "" || !InName(rest[0]))
    ensures Alone(x, |a|, i)
  {
    assert x[|a|..|a| + |i|] == i == i[0..0 + |i|];
    assert a != "" ==> x[|a| - 1] == a[|a| - 1];
    assert rest != "" ==> x[|a| + |i|] == rest[0];
  }

  lemma MarkIsWritten(x: string, a: string, i: string, rest: string, marks: seq<nat>, ifc: string)
    requires x == a + i + rest && i != "" && |marks| == |x| && marks[|a|] == |i|
    ensures WrittenAt(x, marks, a, i, ifc, ifc, i)
  {
    assert x[|a|..|a| + |i|] == i;
  }

  lemma NameIsMarked(x: string, a: string, i: string, rest: string, marks: seq<nat>, prefixes: seq<string>)
    requires x == a + i + rest && IsName(i, prefixes) && Lettered(prefixes) && MatchMarks(x, marks, prefixes)
    requires !WordEnd(a) && (rest == "" || !InName(rest[0]))
    ensures marks[|a|] == |i|
  {
    AloneBetween(x, a, i, rest);
    MatchAlone(x, |a|, i, prefixes);
  }

  /** A name that stands alone in the text is replaced. */
  lemma NameIsReplaced(x: string, a: string, i: string, rest: string, marks: seq<nat>, ifc: string, prefixes: seq<string>)
    requires x == a + i + rest && IsName(i, prefixes) && Lettered(prefixes) && MatchMarks(x, marks, prefixes)
    requires !WordEnd(a) && (rest == "" || !InName(rest[0]))
    ensures WrittenAt(x, marks, a, i, ifc, ifc, i)
  {
    NameIsMarked(x, a, i, rest, marks, prefixes);
    MarkIsWritten(x, a, i, rest, marks, ifc);
  }

  /** Before and after an interface stands nothing that could continue its name. */
  lemma AroundInterface(ps: seq<Piece>, k: nat, i: string, dev: string)
    requires k < |ps| && ps[k].Interface? && Apart(ps) && IsPlaceholder(dev)
    ensures !WordEnd(Upto(ps, k, dev, i))
    ensures From(ps, k + 1, dev, i) == "" || !InName(From(ps, k + 1, dev, i)[0])
  {
    if k > 0 { assert ApartAt(ps, k - 1); }
    if k + 1 < |ps| { assert ApartAt(ps, k); }
  }

  /** A character of the text at which no name starts is copied. */
  lemma CharacterIsCopied(x: string, a: string, c: char, rest: string, marks: seq<nat>, ifc: string, i: string)
    requires x == a + [c] + rest && |marks| == |x| && marks[|a|] == 0
    ensures Writes(x, marks, |a|, |a| + 1, [c], ifc, i)
  {
    CopiesRun(x, marks, |a|, 1, ifc, i);
    assert x[|a|..|a| + 1] == [c];
  }

  /** The substitution does its part for the `k`-th piece. */
  ghost predicate PieceWritten(ps: seq<Piece>, k: nat, x: string, marks: seq<nat>, i: string, dev: string, ifc: string)
    requires k < |ps|
  {
    var j, next := |Upto(ps, k, dev, i)|, |Upto(ps, k + 1, dev, i)|;
    j <= next <= |x| == |marks| && Writes(x, marks, j, next, RenderPiece(ps[k], dev, ifc), ifc, i)
  }

  /** The commands around a piece; nothing next to an interface could continue its name. */
  lemma PieceParts(ps: seq<Piece>, k: nat, d: string, i: string) returns (a: string, rest: string)
    requires k < |ps| && Apart(ps) && IsPlaceholder(d)
    ensures From(ps, 0, d, i) == a + RenderPiece(ps[k], d, i) + rest
    ensures |a| == |Upto(ps, k, d, i)| && |Upto(ps, k + 1, d, i)| == |a| + |RenderPiece(ps[k], d, i)|
    ensures ps[k].Interface? ==> !WordEnd(a) && (rest == "" || !InName(rest[0]))
  {
    a, rest := Upto(ps, k, d, i), From(ps, k + 1, d, i);
    AroundPiece(ps, k, d, i);
    if ps[k].Interface? { AroundInterface(ps, k, i, d); }
  }

  lemma PlainIsWritten(x: string, a: string, c: char, rest: string, marks: seq<nat>, ifc: string, i: string, prefixes: seq<string>)
    requires x == a + [c] + rest && MatchMarks(x, marks, prefixes) && forall e: nat :: !NameAt(x, |a|, e, prefixes)
    ensures WrittenAt(x, marks, a, [c], [c], ifc, i)
  {
    NoMarkWithoutName(x, marks, |a|, prefixes);
    CharacterIsCopied(x, a, c, rest, marks, ifc, i);
  }

  lemma PartIsWritten(piece: Piece, x: string, a: string, rest: string, marks: seq<nat>, i: string, dev: string, ifc: string,
                      prefixes: seq<string>)
    requires x == a + RenderPiece(piece, dev, i) + rest && MatchMarks(x, marks, prefixes)
    requires IsPlaceholder(dev) && Lettered(prefixes)
    requires piece.Plain? ==> forall e: nat :: !NameAt(x, |a|, e, prefixes)
    requires piece.Interface? ==> IsName(i, prefixes) && !WordEnd(a) && (rest == "" || !InName(rest[0]))
    ensures WrittenAt(x, marks, a, RenderPiece(piece, dev, i), RenderPiece(piece, dev, ifc), ifc, i)
  {
    match piece
    case Plain(c) => PlainIsWritten(x, a, c, rest, marks, ifc, i, prefixes);
    case Device => PlaceholderIsCopied(x, a, dev, rest, marks, ifc, i, prefixes);
    case Interface => NameIsReplaced(x, a, i, rest, marks, ifc, prefixes);
  }

  lemma WrittenIsPiece(ps: seq<Piece>, k: nat, x: string, a: string, marks: seq<nat>, i: string, dev: string, ifc: string)
    requires k < |ps| && WrittenAt(x, marks, a, RenderPiece(ps[k], dev, i), RenderPiece(ps[k], dev, ifc), ifc, i)
    requires |a| == |Upto(ps, k, dev, i)| && |Upto(ps, k + 1, dev, i)| == |a| + |RenderPiece(ps[k], dev, i)|
    ensures PieceWritten(ps, k, x, marks, i, dev, ifc)
  {
  }

  lemma PieceIsWritten(ps: seq<Piece>, k: nat, x: string, marks: seq<nat>, i: string, dev: string, ifc: string, prefixes: seq<string>)
    requires k < |ps| && Clear(ps, i, dev, ifc, prefixes)
    requires x == From(ps, 0, dev, i) && MatchMarks(x, marks, prefixes)
    ensures PieceWritten(ps, k, x, marks, i, dev, ifc)
  {
    assert ps[k] in ps;
    var a, rest := PieceParts(ps, k, dev, i);
    if ps[k].Plain? {
      forall e: nat
        ensures !NameAt(x, |a|, e, prefixes)
      {
        NoNameInPlain(ps, k, x, e, i, dev, ifc, prefixes);
      }
    }
    PartIsWritten(ps[k], x, a, rest, marks, i, dev, ifc, prefixes);
    WrittenIsPiece(ps, k, x, a, marks, i, dev, ifc);
  }

  ghost predicate AllWritten(ps: seq<Piece>, x: string, marks: seq<nat>, i: string, dev: string, ifc: string) {
    forall k: nat :: k < |ps| ==> PieceWritten(ps, k, x, marks, i, dev, ifc)
  }

  /** From the `k`-th piece on, the walk writes the template and meets no other interface. */
  ghost predicate Completes(ps: seq<Piece>, k: nat, x: string, marks: seq<nat>, i: string, dev: string, ifc: string)
    requires k <= |ps|
  {
    var j := |Upto(ps, k, dev, i)|;
    j <= |x| == |marks| && Out(x, marks, j, ifc) == From(ps, k, dev, ifc) && AllFrom(x, marks, j, i)
  }

  lemma WrittenAtEnd(ps: seq<Piece>, x: string, marks: seq<nat>, i: string, dev: string, ifc: string)
    requires x == From(ps, 0, dev, i) && |marks| == |x|
    ensures Completes(ps, |ps|, x, marks, i, dev, ifc)
  {
    SplitsAt(ps, |ps|, dev, i);
  }

  lemma {:induction false} PiecesAreWritten(ps: seq<Piece>, k: nat, x: string, marks: seq<nat>, i: string, dev: string, ifc: string)
    requires k <= |ps| && AllWritten(ps, x, marks, i, dev, ifc) && Completes(ps, |ps|, x, marks, i, dev, ifc)
    ensures Completes(ps, k, x, marks, i, dev, ifc)
    decreases |ps| - k
  {
    if k < |ps| {
      PiecesAreWritten(ps, k + 1, x, marks, i, dev, ifc);
      WritesOn(ps, k, x, marks, i, dev, ifc);
    }
  }

  lemma EveryPieceIsWritten(ps: seq<Piece>, x: string, marks: seq<nat>, i: string, dev: string, ifc: string, prefixes: seq<string>)
    requires Clear(ps, i, dev, ifc, prefixes)
    requires x == From(ps, 0, dev, i) && MatchMarks(x, marks, prefixes)
    ensures AllWritten(ps, x, marks, i, dev, ifc)
  {
    forall k: nat | k < |ps|
      ensures PieceWritten(ps, k, x, marks, i, dev, ifc)
    {
      PieceIsWritten(ps, k, x, marks, i, dev, ifc, prefixes);
    }
  }

  lemma WritesOn(ps: seq<Piece>, k: nat, x: string, marks: seq<nat>, i: string, dev: string, ifc: string)
    requires k < |ps| && AllWritten(ps, x, marks, i, dev, ifc)
    requires Completes(ps, k + 1, x, marks, i, dev, ifc)
    ensures Completes(ps, k, x, marks, i, dev, ifc)
  {
    assert PieceWritten(ps, k, x, marks, i, dev, ifc);
  }

  lemma InterfaceStepOfRendering(ps: seq<Piece>, i: string)
    requires Apart(ps) && (Interface in ps ==> IsName(i, PREFIXES))
    requires NameFree(Render(ps, DEVICE, INTERFACE), PREFIXES)
    ensures InterfaceStep(Render(ps, DEVICE, i)) == Render(ps, DEVICE, INTERFACE)
    ensures AllTokensAre(Render(ps, DEVICE, i), Marks(Render(ps, DEVICE, i)), i)
  {
    var x := Render(ps, DEVICE, i);
    FromIsRender(ps, 0, DEVICE, i);
    FromIsRender(ps, 0, DEVICE, INTERFACE);
    assert ps[0..] == ps;
    PlaceholdersAre();
    PrefixesAreLettered();
    MarksMatch(x);
    EveryPieceIsWritten(ps, x, Marks(x), i, DEVICE, INTERFACE, PREFIXES);
    WrittenAtEnd(ps, x, Marks(x), i, DEVICE, INTERFACE);
    PiecesAreWritten(ps, 0, x, Marks(x), i, DEVICE, INTERFACE);
    StepIsOut(x);
    AllFromIsAll(x, Marks(x), 0, i);
    assert x[0..] == x && Marks(x)[0..] == Marks(x);
  }

  /** Commands made from a pattern generalise to the pattern, and their only interface is the one put in. */
  lemma TemplateOfRendering(ps: seq<Piece>, d: string, i: string)
    requires Separable(ps, d, i)
    ensures Generalize(Render(ps, d, i), d) == Strip(Render(ps, DEVICE, INTERFACE))
    ensures OnlyInterface(Render(ps, d, i), d, i)
  {
    if d != "" {
      DeviceStepOfRendering(ps, d, i, DEVICE);
    } else {
      WithoutDevice(ps, d, i, DEVICE);
    }
    InterfaceStepOfRendering(ps, i);
  }

  /** The same commands written for two devices and interfaces get the same template. */
  lemma SameTemplate(ps: seq<Piece>, d1: string, i1: string, d2: string, i2: string)
    requires Separable(ps, d1, i1) && Separable(ps, d2, i2)
    ensures Generalize(Render(ps, d1, i1), d1) == Generalize(Render(ps, d2, i2), d2)
  {
    TemplateOfRendering(ps, d1, i1);
    TemplateOfRendering(ps, d2, i2);
  }

  /** A template learned from one device and interface, filled in for another, gives the commands for that one. */
  lemma LearnedHereFillsThere(ps: seq<Piece>, d1: string, i1: string, d2: string, i2: string, ctx: seq<(string, string)>)
    requires Separable(ps, d1, i1) && Separable(ps, d2, i2)
    requires Clean(ps) && (Device in ps ==> NoOpenBrace(d2)) && VisibleEdges(d2)
    requires |ctx| >= 2 && ctx[0] == ("device", d2) && ctx[1] == ("interface", i2)
    ensures Fill(Generalize(Render(ps, d1, i1), d1), ctx) == Strip(Render(ps, d2, i2))
  {
    SameTemplate(ps, d1, i1, d2, i2);
    TemplateOfRendering(ps, d2, i2);
    if Interface in ps { NamesAreBraceFree(i2); }
    RenderOpenBraceFree(ps, d2, i2);
    GeneralizeThenFill(Render(ps, d2, i2), d2, i2, ctx);
  }

  lemma NamesAreBraceFree(i: string)
    requires IsName(i, PREFIXES)
    ensures NoOpenBrace(i)
  {
    PrefixesAreLettered();
    MatchIsName(i, 0, PREFIXES);
    NameShape(i, 0, |i|, PREFIXES);
  }

  lemma EthernetIsName()
    ensures IsName("Ethernet1", PREFIXES)
  {
    var i := "Ethernet1";
    assert IsTail(i[8]) && TailRun(i, 9) == 0 && TailRun(i, 8) == 1;
    assert BackOff(i, 8, 1) == 1;
    assert HasPrefix(i, 0, "Ethernet") && |"Ethernet"| == 8 && PREFIXES[0] == "Ethernet";
    assert MatchPrefix(i, 0, PREFIXES[0]) == 9;
  }

  lemma NoNameInExample(t: string, p: nat, e: nat)
    requires t == INTERFACE + " " + DEVICE
    ensures !NameAt(t, p, e, PREFIXES)
  {
    PlaceholdersAre();
    PrefixesAreLettered();
    if p < 11 {
      NoNameInPlaceholder("", INTERFACE, " " + DEVICE, p, e, PREFIXES);
      assert t == "" + INTERFACE + (" " + DEVICE);
    } else if 12 <= p < 20 {
      NoNameInPlaceholder(INTERFACE + " ", DEVICE, "", p, e, PREFIXES);
      assert t == INTERFACE + " " + DEVICE + "";
    } else if NameAt(t, p, e, PREFIXES) {
      NameShape(t, p, e, PREFIXES);
    }
  }

  /** For example: an interface, a space and a device, written for Ethernet1 and leaf1. */
  lemma ExampleIsSeparable()
    ensures Separable([Interface, Plain(' '), Device], "leaf1", "Ethernet1")
  {
    var ps, d, i := [Interface, Plain(' '), Device], "leaf1", "Ethernet1";
    EthernetIsName();
    FromIsRender(ps, 0, DEVICE, INTERFACE);
    assert ps[0..] == ps && From(ps, 3, DEVICE, INTERFACE) == "" && From(ps, 2, DEVICE, INTERFACE) == DEVICE;
    assert From(ps, 1, DEVICE, INTERFACE) == " " + DEVICE && From(ps, 0, DEVICE, INTERFACE) == INTERFACE + " " + DEVICE;
    forall p: nat, e: nat
      ensures !NameAt(Render(ps, DEVICE, INTERFACE), p, e, PREFIXES)
    {
      NoNameInExample(Render(ps, DEVICE, INTERFACE), p, e);
    }
    assert ps[2..] == [Device] && ps[1..] == [Plain(' '), Device] && ps[1..][1..] == [Device] && [Device][1..] == [];
    assert DeviceOnlyThere([Device], d, i);
    assert Render([Device], d, i) == d + "" && Render(ps[1..], d, i) == " " + (d + "") && Render(ps, d, i) == i + (" " + (d + ""));
    ExampleDevice(Render(ps, d, i), Render(ps[1..], d, i));
    assert IsEdge(ps[1]);
  }

  lemma ExampleDevice(s: string, rest: string)
    requires s == "Ethernet1" + (" " + ("leaf1" + "")) && rest == " " + ("leaf1" + "")
    ensures forall k: nat :: k < 9 ==> !StartsAt(s, k, "leaf1")
    ensures !StartsAt(rest, 0, "leaf1")
  {
    assert forall k :: 0 <= k < 9 ==> s[k] == "Ethernet1"[k] && s[k] != 'l';
    forall k: nat | k < 9
      ensures !StartsAt(s, k, "leaf1")
    {
      assert k + 5 <= |s| ==> s[k..k + 5][0] == s[k];
    }
    assert rest[0] == ' ';
  }

  // ---------------------------------------------------------------- what is learned

  /** The sample's commands are the pattern, written for its device and some interface. */
  ghost predicate WrittenFrom(ps: seq<Piece>, s: Sample) {
    exists i :: Separable(ps, s.device, i) && s.commands == Render(ps, s.device, i)
  }

  /** Samples written from one pattern for any devices and interfaces agree, and the draft is the pattern. */
  lemma PatternGetsADraft(existing: seq<ExistingPolicy>, minSuccesses: nat, key: Key, samples: seq<Sample>, ps: seq<Piece>)
    requires forall k :: 0 <= k < |samples| ==> WrittenFrom(ps, samples[k])
    requires |samples| >= minSuccesses && samples != [] && key.alertname in RECIPES && !AlreadyCovered(existing, key)
    requires Strip(Render(ps, DEVICE, INTERFACE)) != ""
    ensures var r := DraftFor(existing, minSuccesses, key, samples);
            r.Some? && r.value.commands == Strip(Render(ps, DEVICE, INTERFACE))
  {
    var g := Strip(Render(ps, DEVICE, INTERFACE));
    forall k | 0 <= k < |samples|
      ensures Generalize(samples[k].commands, samples[k].device) == g
    {
      assert WrittenFrom(ps, samples[k]);
      var i :| Separable(ps, samples[k].device, i) && samples[k].commands == Render(ps, samples[k].device, i);
      TemplateOfRendering(ps, samples[k].device, i);
    }
    assert AgreeOn(samples, g);
  }

  /** No draft names an interface. */
  lemma DraftNamesNoInterface(existing: seq<ExistingPolicy>, minSuccesses: nat, key: Key, samples: seq<Sample>, p: nat)
    requires DraftFor(existing, minSuccesses, key, samples).Some?
    requires p <= |DraftFor(existing, minSuccesses, key, samples).value.commands|
    ensures MatchAny(DraftFor(existing, minSuccesses, key, samples).value.commands, p, PREFIXES) == 0
  {
    TemplateHasNoInterface(samples[0].commands, samples[0].device, p);
  }
}
