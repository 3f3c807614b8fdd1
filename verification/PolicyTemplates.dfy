/**
  Two string rewriters that undo each other: `_generalize_commands` turns
  concrete commands into a template (ai-agents/shared/policy_synthesizer.py)
  and `_fmt` fills a template in (ai-agents/shared/policy_resolver.py).
  Text is ASCII.
*/
module PolicyTemplates {
  import opened Prelude
  import opened Text

  const DEVICE := "{device}"
  const INTERFACE := "{interface}"

  // ---------------------------------------------------------------- the interface pattern

  predicate IsDigit(c: char) { '0' <= c <= '9' }

  predicate IsWord(c: char) {
    IsDigit(c) || 'a' <= c <= 'z' || 'A' <= c <= 'Z' || c == '_'
  }

  /** `[\d/.]` */
  predicate IsTail(c: char) { IsDigit(c) || c == '/' || c == '.' }

  function Lower(c: char): char {
    if 'A' <= c <= 'Z' then c - 'A' + 'a' else c
  }

  /** `\b` at position `p`. */
  predicate Boundary(s: string, p: nat)
    requires p <= |s|
  {
    (p > 0 && IsWord(s[p - 1])) != (p < |s| && IsWord(s[p]))
  }

  const PREFIXES := ["Ethernet", "GigabitEthernet", "TenGigE", "Management", "Port-Channel", "xe-", "ge-", "et-"]

  predicate HasPrefix(s: string, p: nat, prefix: string) {
    p + |prefix| <= |s| && forall k :: 0 <= k < |prefix| ==> Lower(s[p + k]) == Lower(prefix[k])
  }

  /** How many `[\d/.]` characters start at `q`. */
  function TailRun(s: string, q: nat): (n: nat)
    requires q <= |s|
    ensures q + n <= |s|
    ensures forall k :: q <= k < q + n ==> IsTail(s[k])
    decreases |s| - q
  {
    if q < |s| && IsTail(s[q]) then 1 + TailRun(s, q + 1) else 0
  }

  /** Backtrack from `n` tail characters to the longest count that ends at a word boundary. */
  function BackOff(s: string, q: nat, n: nat): (m: nat)
    requires q + n <= |s|
    ensures m <= n
  {
    if n == 0 then 0 else if Boundary(s, q + n) then n else BackOff(s, q, n - 1)
  }

  /** Length of the match of one alternative at `p`, or 0. */
  function MatchPrefix(s: string, p: nat, prefix: string): nat
    requires p <= |s|
  {
    if !Boundary(s, p) || !HasPrefix(s, p, prefix) then 0 else
    var q := p + |prefix|;
    var m := BackOff(s, q, TailRun(s, q));
    if m > 0 then |prefix| + m else 0
  }

  function MatchAny(s: string, p: nat, prefixes: seq<string>): nat
    requires p <= |s|
  {
    if prefixes == [] then 0 else
    var n := MatchPrefix(s, p, prefixes[0]);
    if n > 0 then n else MatchAny(s, p, prefixes[1..])
  }

  /** Characters an interface name can hold. */
  predicate InToken(c: char) {
    IsTail(c) || 'a' <= Lower(c) <= 'z' || c == '-'
  }

  /** The alternatives consist of letters and dashes. */
  predicate Wordy(prefixes: seq<string>) {
    forall i, k :: 0 <= i < |prefixes| && 0 <= k < |prefixes[i]| ==> InToken(prefixes[i][k]) && !IsTail(prefixes[i][k])
  }

  lemma PrefixesAreWordy()
    ensures Wordy(PREFIXES)
  {
  }

  /** A match is non-empty, stays inside the text, holds no brace or space, and ends in a digit, slash or dot. */
  lemma {:induction false} TokenShape(s: string, p: nat, prefixes: seq<string>)
    requires p <= |s| && Wordy(prefixes)
    ensures var n := MatchAny(s, p, prefixes);
            n > 0 ==> p + n <= |s| && IsTail(s[p + n - 1]) && forall k :: p <= k < p + n ==> InToken(s[k])
    decreases |prefixes|
  {
    if prefixes != [] {
      var pre := prefixes[0];
      TokenShape(s, p, prefixes[1..]);
      if MatchPrefix(s, p, pre) > 0 {
        var q := p + |pre|;
        forall k | p <= k < p + MatchPrefix(s, p, pre)
          ensures InToken(s[k])
        {
          if k < q { assert Lower(s[p + (k - p)]) == Lower(pre[k - p]); }
        }
      }
    }
  }

  /** The match length at every position. */
  function Marks(s: string): (marks: seq<nat>)
    ensures WellMarked(s, marks)
  {
    var marks := seq(|s|, p requires 0 <= p < |s| => MatchAny(s, p, PREFIXES));
    MarksAreWell(s, marks, 0);
    assert s[0..] == s && marks[0..] == marks;
    marks
  }

  /** Every match is a whole interface name. */
  predicate WellMarked(x: string, marks: seq<nat>) {
    |marks| == |x| &&
    (x == "" || ((marks[0] > 0 ==> marks[0] <= |x| && IsToken(x[..marks[0]])) && WellMarked(x[1..], marks[1..])))
  }

  /** No brace, no space, and a digit, slash or dot at the end. */
  predicate IsToken(t: string) {
    t != "" && IsTail(t[|t| - 1]) && forall k :: 0 <= k < |t| ==> InToken(t[k])
  }

  lemma {:induction false} MarksAreWell(s: string, marks: seq<nat>, p: nat)
    requires |marks| == |s| && forall q :: 0 <= q < |s| ==> marks[q] == MatchAny(s, q, PREFIXES)
    requires p <= |s|
    ensures WellMarked(s[p..], marks[p..])
    decreases |s| - p
  {
    if p < |s| {
      MarksAreWell(s, marks, p + 1);
      PrefixesAreWordy();
      TokenShape(s, p, PREFIXES);
      var x, n := s[p..], marks[p];
      assert x[1..] == s[p + 1..] && marks[p..][1..] == marks[p + 1..];
      if n > 0 { assert x[..n] == s[p..p + n]; }
    }
  }

  /** `re.sub`: leftmost, non-overlapping. */
  function SubTokens(x: string, marks: seq<nat>, placeholder: string): string
    requires |marks| == |x|
  {
    if x == "" then ""
    else if 0 < marks[0] <= |x| then placeholder + SubTokens(x[marks[0]..], marks[marks[0]..], placeholder)
    else [x[0]] + SubTokens(x[1..], marks[1..], placeholder)
  }

  /** Every interface name that `SubTokens` replaces is `i`. */
  predicate AllTokensAre(x: string, marks: seq<nat>, i: string)
    requires |marks| == |x|
  {
    if x == "" then true
    else if 0 < marks[0] <= |x| then x[..marks[0]] == i && AllTokensAre(x[marks[0]..], marks[marks[0]..], i)
    else AllTokensAre(x[1..], marks[1..], i)
  }

  // ---------------------------------------------------------------- the two rewriters

  function DeviceStep(commands: string, device: string): string {
    if device != "" then Replace(commands, device, DEVICE) else commands
  }

  /** `_INTERFACE_RE.sub("{interface}", x)`. */
  function InterfaceStep(x: string): string {
    SubTokens(x, Marks(x), INTERFACE)
  }

  /** `_generalize_commands`. */
  function Generalize(commands: string, device: string): string {
    Strip(InterfaceStep(DeviceStep(commands, device)))
  }

  /** `_fmt`: one `replace` per context key, in order. */
  function Fill(template: string, ctx: seq<(string, string)>): string {
    if ctx == [] then template
    else Replace(Fill(template, ctx[..|ctx| - 1]), "{" + ctx[|ctx| - 1].0 + "}", ctx[|ctx| - 1].1)
  }

  method Fmt(template: string, ctx: seq<(string, string)>) returns (result: string)
    ensures result == Fill(template, ctx)
  {
    result := template;
    for i := 0 to |ctx|
      invariant result == Fill(template, ctx[..i])
    {
      assert ctx[..i + 1][..i] == ctx[..i];
      result := Replace(result, "{" + ctx[i].0 + "}", ctx[i].1);
    }
    assert ctx[..|ctx|] == ctx;
  }

  // ---------------------------------------------------------------- a template as pieces

  /** A template is plain characters and placeholders; both sides of the round trip are renderings of one sequence. */
  datatype Piece = Plain(c: char) | Device | Interface

  function RenderPiece(p: Piece, device: string, interface: string): string {
    match p
    case Plain(c) => [c]
    case Device => device
    case Interface => interface
  }

  function Render(ps: seq<Piece>, device: string, interface: string): string {
    if ps == [] then "" else RenderPiece(ps[0], device, interface) + Render(ps[1..], device, interface)
  }

  predicate NoOpenBrace(s: string) { '{' !in s }

  predicate CleanPiece(p: Piece) { p.Plain? ==> p.c != '{' }

  predicate Clean(ps: seq<Piece>) { forall k :: 0 <= k < |ps| ==> CleanPiece(ps[k]) }

  lemma {:induction false} RenderConcat(ps: seq<Piece>, qs: seq<Piece>, d: string, i: string)
    ensures Render(ps + qs, d, i) == Render(ps, d, i) + Render(qs, d, i)
    decreases |ps|
  {
    if ps == [] {
      assert ps + qs == qs;
    } else {
      RenderConcat(ps[1..], qs, d, i);
      assert (ps + qs)[1..] == ps[1..] + qs;
      assert (ps + qs)[0] == ps[0];
      var head := RenderPiece(ps[0], d, i);
      assert head + (Render(ps[1..], d, i) + Render(qs, d, i)) == (head + Render(ps[1..], d, i)) + Render(qs, d, i);
    }
  }

  lemma {:induction false} RenderOpenBraceFree(ps: seq<Piece>, d: string, i: string)
    requires Clean(ps) && (Device in ps ==> NoOpenBrace(d)) && (Interface in ps ==> NoOpenBrace(i))
    ensures NoOpenBrace(Render(ps, d, i))
    decreases |ps|
  {
    if ps != [] {
      assert ps[0] in ps && forall p :: p in ps[1..] ==> p in ps;
      RenderOpenBraceFree(ps[1..], d, i);
    }
  }

  // ---------------------------------------------------------------- replacing placeholders

  predicate StartsAt(s: string, k: nat, old_: string) {
    k + |old_| <= |s| && s[k..k + |old_|] == old_
  }

  lemma StartsLater(s: string, k: nat, old_: string)
    requires s != [] && StartsAt(s[1..], k, old_)
    ensures StartsAt(s, k + 1, old_)
  {
    assert s[1..][k..k + |old_|] == s[k + 1..k + 1 + |old_|];
  }

  /** A character at which `old_` does not start is copied. */
  lemma ReplaceCopiesOne(c: char, s: string, old_: string, new_: string)
    requires old_ != [] && !StartsAt([c] + s, 0, old_)
    ensures Replace([c] + s, old_, new_) == [c] + Replace(s, old_, new_)
  {
    assert ([c] + s)[1..] == s;
  }

  /** Text in which `old_` cannot start is copied. */
  lemma {:induction false} ReplaceCopies(t: string, rest: string, old_: string, new_: string)
    requires old_ != []
    requires forall k :: 0 <= k < |t| ==> !StartsAt(t + rest, k, old_)
    ensures Replace(t + rest, old_, new_) == t + Replace(rest, old_, new_)
    decreases |t|
  {
    if t == [] {
      assert t + rest == rest;
    } else {
      var s := t[1..] + rest;
      assert t + rest == [t[0]] + s && (t + rest)[1..] == s;
      forall k | 0 <= k < |t[1..]|
        ensures !StartsAt(s, k, old_)
      {
        if StartsAt(s, k, old_) { StartsLater(t + rest, k, old_); }
      }
      ReplaceCopies(t[1..], rest, old_, new_);
      assert !StartsAt(t + rest, 0, old_);
      ReplaceCopiesOne(t[0], s, old_, new_);
    }
  }

  /** Text without an opening brace is copied when a placeholder is replaced. */
  lemma CopiesBraceFree(t: string, rest: string, old_: string, new_: string)
    requires NoOpenBrace(t) && old_ != [] && old_[0] == '{'
    ensures Replace(t + rest, old_, new_) == t + Replace(rest, old_, new_)
  {
    forall k | 0 <= k < |t|
      ensures !StartsAt(t + rest, k, old_)
    {
      if k + |old_| <= |t + rest| { assert (t + rest)[k..k + |old_|][0] == t[k]; }
    }
    ReplaceCopies(t, rest, old_, new_);
  }

  lemma NothingToReplace(s: string, old_: string, new_: string)
    requires NoOpenBrace(s) && old_ != [] && old_[0] == '{'
    ensures Replace(s, old_, new_) == s
  {
    CopiesBraceFree(s, [], old_, new_);
    assert s + [] == s;
  }

  /** The interface placeholder is not mistaken for the device one. */
  lemma CopiesInterface(rest: string, d: string)
    ensures Replace(INTERFACE + rest, DEVICE, d) == INTERFACE + Replace(rest, DEVICE, d)
  {
    var s := INTERFACE + rest;
    forall k | 0 <= k < |INTERFACE|
      ensures !StartsAt(s, k, DEVICE)
    {
      if k + 8 <= |s| {
        assert s[k..k + 8][0] == INTERFACE[k] && s[k..k + 8][1] == s[k + 1];
        assert k == 0 ==> s[1] == INTERFACE[1];
      }
    }
    ReplaceCopies(INTERFACE, rest, DEVICE, d);
  }

  lemma {:induction false} FillsDevice(ps: seq<Piece>, d: string)
    requires Clean(ps)
    ensures Replace(Render(ps, DEVICE, INTERFACE), DEVICE, d) == Render(ps, d, INTERFACE)
    decreases |ps|
  {
    if ps != [] {
      FillsDevice(ps[1..], d);
      var rest := Render(ps[1..], DEVICE, INTERFACE);
      match ps[0]
      case Plain(c) => CopiesBraceFree([c], rest, DEVICE, d);
      case Interface => CopiesInterface(rest, d);
      case Device => assert (DEVICE + rest)[..8] == DEVICE && (DEVICE + rest)[8..] == rest;
    }
  }

  lemma {:induction false} FillsInterface(ps: seq<Piece>, d: string, i: string)
    requires Clean(ps) && (Device in ps ==> NoOpenBrace(d))
    ensures Replace(Render(ps, d, INTERFACE), INTERFACE, i) == Render(ps, d, i)
    decreases |ps|
  {
    if ps != [] {
      assert ps[0] in ps && forall p :: p in ps[1..] ==> p in ps;
      FillsInterface(ps[1..], d, i);
      var rest := Render(ps[1..], d, INTERFACE);
      match ps[0]
      case Plain(c) => CopiesBraceFree([c], rest, INTERFACE, i);
      case Device => CopiesBraceFree(d, rest, INTERFACE, i);
      case Interface => assert (INTERFACE + rest)[..11] == INTERFACE && (INTERFACE + rest)[11..] == rest;
    }
  }

  // ---------------------------------------------------------------- from commands to pieces

  /** The pieces `Replace` finds: the same recursion, keeping the device occurrences apart. */
  function DevicePieces(c: string, d: string): seq<Piece>
    requires d != ""
  {
    if c == [] then []
    else if |c| >= |d| && c[..|d|] == d then [Device] + DevicePieces(c[|d|..], d)
    else [Plain(c[0])] + DevicePieces(c[1..], d)
  }

  lemma {:induction false} DevicePiecesRender(c: string, d: string)
    requires d != ""
    ensures Render(DevicePieces(c, d), DEVICE, INTERFACE) == Replace(c, d, DEVICE)
    ensures forall i :: Render(DevicePieces(c, d), d, i) == c
    decreases |c|
  {
    if c != [] {
      if |c| >= |d| && c[..|d|] == d {
        DevicePiecesRender(c[|d|..], d);
        assert c == d + c[|d|..];
      } else {
        DevicePiecesRender(c[1..], d);
        assert c == [c[0]] + c[1..];
        if |c| < |d| { assert Replace(c[1..], d, DEVICE) == c[1..]; }
      }
    }
  }

  lemma {:induction false} DevicePiecesAreClean(c: string, d: string)
    requires NoOpenBrace(c) && d != ""
    ensures var ps := DevicePieces(c, d);
            Clean(ps) && Interface !in ps && (Device in ps ==> NoOpenBrace(d))
    decreases |c|
  {
    if c != [] {
      if |c| >= |d| && c[..|d|] == d {
        DevicePiecesAreClean(c[|d|..], d);
        assert forall k :: 0 <= k < |d| ==> d[k] == c[k];
      } else {
        DevicePiecesAreClean(c[1..], d);
      }
    }
  }

  lemma DeviceStepIsRender(c: string, d: string)
    requires NoOpenBrace(c) && d != ""
    ensures var ps := DevicePieces(c, d);
            && Render(ps, DEVICE, INTERFACE) == Replace(c, d, DEVICE)
            && (forall i :: Render(ps, d, i) == c)
            && Clean(ps) && Interface !in ps && (Device in ps ==> NoOpenBrace(d))
  {
    DevicePiecesRender(c, d);
    DevicePiecesAreClean(c, d);
  }

  /** A braced word without digits, slashes or dots. */
  predicate IsPlaceholder(t: string) {
    |t| >= 2 && t[0] == '{' && t[|t| - 1] == '}' && forall k :: 0 <= k < |t| ==> !IsTail(t[k])
  }

  lemma {:induction false} MarkedAt(x: string, marks: seq<nat>, n: nat)
    requires WellMarked(x, marks) && n <= |x|
    ensures WellMarked(x[n..], marks[n..])
    ensures n < |x| && marks[n] > 0 ==> n + marks[n] <= |x| && IsToken(x[n..][..marks[n]])
    decreases n
  {
    if n == 0 {
      assert x[0..] == x && marks[0..] == marks;
    } else {
      MarkedAt(x[1..], marks[1..], n - 1);
      assert x[n..] == x[1..][n - 1..] && marks[n..] == marks[1..][n - 1..];
    }
  }

  lemma PlaceholderIsNoToken(x: string, dev: string, q: nat, n: nat)
    requires IsPlaceholder(dev) && |dev| <= |x| && x[..|dev|] == dev && q < |dev| && 0 < n && q + n <= |x|
    ensures !IsToken(x[q..][..n])
  {
    var last, t := |dev| - 1, x[q..][..n];
    assert forall k :: 0 <= k < |dev| ==> x[k] == dev[k];
    if q + n <= last {
      assert t[n - 1] == dev[q + n - 1];
    } else {
      assert t[last - q] == dev[last];
    }
  }

  /** No interface name starts inside a placeholder. */
  lemma NoTokenInPlaceholder(x: string, marks: seq<nat>, dev: string)
    requires WellMarked(x, marks) && IsPlaceholder(dev) && |dev| <= |x| && x[..|dev|] == dev
    ensures forall q :: 0 <= q < |dev| ==> marks[q] == 0
  {
    forall q | 0 <= q < |dev|
      ensures marks[q] == 0
    {
      MarkedAt(x, marks, q);
      if 0 < marks[q] && q + marks[q] <= |x| { PlaceholderIsNoToken(x, dev, q, marks[q]); }
    }
  }

  lemma {:induction false} SubCopies(x: string, marks: seq<nat>, n: nat, ifc: string, i: string)
    requires |marks| == |x| && n <= |x| && forall q :: 0 <= q < n ==> marks[q] == 0
    ensures SubTokens(x, marks, ifc) == x[..n] + SubTokens(x[n..], marks[n..], ifc)
    ensures AllTokensAre(x, marks, i) <==> AllTokensAre(x[n..], marks[n..], i)
    decreases n
  {
    if n == 0 {
      assert x[0..] == x && marks[0..] == marks && x[..0] == "";
    } else {
      SubCopies(x[1..], marks[1..], n - 1, ifc, i);
      assert x[1..][n - 1..] == x[n..] && marks[1..][n - 1..] == marks[n..];
      assert x[..n] == [x[0]] + x[1..][..n - 1];
    }
  }

  /** A stretch of rendered text without braces comes from plain pieces. */
  lemma {:induction false} PlainPrefix(ps: seq<Piece>, n: nat, dev: string, ifc: string)
    requires IsPlaceholder(dev) && Interface !in ps && n <= |Render(ps, dev, ifc)| && NoOpenBrace(Render(ps, dev, ifc)[..n])
    ensures n <= |ps| && forall d, i :: Render(ps[..n], d, i) == Render(ps, dev, ifc)[..n]
    ensures Render(ps[n..], dev, ifc) == Render(ps, dev, ifc)[n..]
    decreases n
  {
    var text := Render(ps, dev, ifc);
    if n == 0 {
      assert ps[..0] == [] && ps[0..] == ps;
    } else {
      assert ps[0] in ps;
      assert text[0] == text[..n][0];
      assert ps[0].Plain?;
      assert text[1..] == Render(ps[1..], dev, ifc);
      assert text[..n] == [ps[0].c] + text[1..][..n - 1];
      PlainPrefix(ps[1..], n - 1, dev, ifc);
      assert ps[..n][1..] == ps[1..][..n - 1] && ps[n..] == ps[1..][n - 1..];
    }
  }

  predicate VisibleEdges(s: string) {
    s != "" ==> !IsSpace(s[0]) && !IsSpace(s[|s| - 1])
  }

  /** `qs` renders to the substituted text and has the same raw text as `ps`. */
  ghost predicate Rewrites(qs: seq<Piece>, ps: seq<Piece>, sub: string, d: string, i: string, dev: string,
                           ifc: string) {
    && Render(qs, dev, ifc) == sub && Render(qs, d, i) == Render(ps, d, i)
    && Clean(qs) && (Device in qs ==> Device in ps)
    && (Interface in qs ==> i != "" && VisibleEdges(i))
  }

  /** The interface step applied to rendered device pieces is again a rendering, of pieces with the same raw text. */
  lemma {:induction false} InterfaceStepIsRender(ps: seq<Piece>, marks: seq<nat>, d: string, i: string, dev: string,
                                                 ifc: string)
    returns (qs: seq<Piece>)
    requires IsPlaceholder(dev) && Clean(ps) && Interface !in ps
    requires var x := Render(ps, dev, ifc); WellMarked(x, marks) && AllTokensAre(x, marks, i)
    ensures Rewrites(qs, ps, SubTokens(Render(ps, dev, ifc), marks, ifc), d, i, dev, ifc)
    decreases |ps|
  {
    var x := Render(ps, dev, ifc);
    if ps == [] {
      qs := [];
    } else if ps[0].Device? {
      DeviceAhead(ps, marks, i, dev, ifc);
      var rest := InterfaceStepIsRender(ps[1..], marks[|dev|..], d, i, dev, ifc);
      qs := [Device] + rest;
      RenderCons(Device, rest, dev, ifc);
      RenderCons(Device, rest, d, i);
    } else if marks[0] > 0 {
      var n := marks[0];
      TokenAhead(ps, marks, d, i, dev, ifc);
      var rest := InterfaceStepIsRender(ps[n..], marks[n..], d, i, dev, ifc);
      qs := [Interface] + rest;
      RenderCons(Interface, rest, dev, ifc);
      RenderCons(Interface, rest, d, i);
    } else {
      assert x[1..] == Render(ps[1..], dev, ifc);
      var rest := InterfaceStepIsRender(ps[1..], marks[1..], d, i, dev, ifc);
      qs := [ps[0]] + rest;
      RenderCons(ps[0], rest, dev, ifc);
      RenderCons(ps[0], rest, d, i);
    }
  }

  lemma RenderCons(p: Piece, rest: seq<Piece>, d: string, i: string)
    ensures Render([p] + rest, d, i) == RenderPiece(p, d, i) + Render(rest, d, i)
    ensures CleanPiece(p) && Clean(rest) ==> Clean([p] + rest)
    ensures forall q :: q in [p] + rest <==> q == p || q in rest
  {
    assert ([p] + rest)[1..] == rest;
  }

  lemma TailPieces(ps: seq<Piece>, n: nat)
    requires n <= |ps| && Clean(ps) && Interface !in ps
    ensures Clean(ps[n..]) && Interface !in ps[n..] && (Device in ps[n..] ==> Device in ps)
  {
    assert forall q :: q in ps[n..] ==> q in ps;
  }

  lemma DeviceAhead(ps: seq<Piece>, marks: seq<nat>, i: string, dev: string, ifc: string)
    requires IsPlaceholder(dev) && Clean(ps) && Interface !in ps && ps != [] && ps[0].Device?
    requires var x := Render(ps, dev, ifc); WellMarked(x, marks) && AllTokensAre(x, marks, i)
    ensures var x, n := Render(ps, dev, ifc), |dev|;
            && n <= |x| && x[n..] == Render(ps[1..], dev, ifc)
            && WellMarked(x[n..], marks[n..]) && AllTokensAre(x[n..], marks[n..], i)
            && SubTokens(x, marks, ifc) == dev + SubTokens(x[n..], marks[n..], ifc)
            && Clean(ps[1..]) && Interface !in ps[1..] && (Device in ps[1..] ==> Device in ps)
  {
    var x, n := Render(ps, dev, ifc), |dev|;
    assert x[..n] == dev && x[n..] == Render(ps[1..], dev, ifc);
    NoTokenInPlaceholder(x, marks, dev);
    SubCopies(x, marks, n, ifc, i);
    MarkedAt(x, marks, n);
    TailPieces(ps, 1);
  }

  lemma TokenAhead(ps: seq<Piece>, marks: seq<nat>, d: string, i: string, dev: string, ifc: string)
    requires IsPlaceholder(dev) && Clean(ps) && Interface !in ps && ps != [] && ps[0].Plain?
    requires var x := Render(ps, dev, ifc); WellMarked(x, marks) && AllTokensAre(x, marks, i) && marks[0] > 0
    ensures var x, n := Render(ps, dev, ifc), marks[0];
            && n <= |x| && n <= |ps| && x[n..] == Render(ps[n..], dev, ifc)
            && WellMarked(x[n..], marks[n..]) && AllTokensAre(x[n..], marks[n..], i)
            && SubTokens(x, marks, ifc) == ifc + SubTokens(x[n..], marks[n..], ifc)
            && Render(ps, d, i) == i + Render(ps[n..], d, i) && i != "" && VisibleEdges(i)
            && Clean(ps[n..]) && Interface !in ps[n..] && (Device in ps[n..] ==> Device in ps)
  {
    var x, n := Render(ps, dev, ifc), marks[0];
    MarkedAt(x, marks, n);
    assert x[..n] == i;
    TokenIsVisible(i);
    TokenText(ps, n, d, i, dev, ifc);
    TailPieces(ps, n);
  }

  lemma TokenText(ps: seq<Piece>, n: nat, d: string, i: string, dev: string, ifc: string)
    requires IsPlaceholder(dev) && Interface !in ps && NoOpenBrace(i)
    requires n <= |Render(ps, dev, ifc)| && Render(ps, dev, ifc)[..n] == i
    ensures n <= |ps| && Render(ps, dev, ifc)[n..] == Render(ps[n..], dev, ifc) && Render(ps, d, i) == i + Render(ps[n..], d, i)
  {
    PlainPrefix(ps, n, dev, ifc);
    RenderConcat(ps[..n], ps[n..], d, i);
    assert ps == ps[..n] + ps[n..];
  }

  lemma TokenIsVisible(t: string)
    requires IsToken(t)
    ensures NoOpenBrace(t) && VisibleEdges(t)
  {
    assert InToken(t[0]) && InToken(t[|t| - 1]);
  }

  // ---------------------------------------------------------------- stripping

  predicate VisiblePiece(p: Piece, d: string, i: string) {
    match p
    case Plain(_) => true
    case Device => d != "" && VisibleEdges(d)
    case Interface => i != "" && VisibleEdges(i)
  }

  predicate Visible(ps: seq<Piece>, d: string, i: string) {
    forall k :: 0 <= k < |ps| ==> VisiblePiece(ps[k], d, i)
  }

  function TrimLeft(ps: seq<Piece>): seq<Piece> {
    if ps != [] && ps[0].Plain? && IsSpace(ps[0].c) then TrimLeft(ps[1..]) else ps
  }

  function TrimRight(ps: seq<Piece>): seq<Piece> {
    if ps != [] && ps[|ps| - 1].Plain? && IsSpace(ps[|ps| - 1].c) then TrimRight(ps[..|ps| - 1]) else ps
  }

  lemma {:induction false} TrimLeftIsLStrip(ps: seq<Piece>, d: string, i: string)
    requires Visible(ps, d, i)
    ensures LStrip(Render(ps, d, i)) == Render(TrimLeft(ps), d, i)
    ensures forall p :: p in TrimLeft(ps) ==> p in ps
    decreases |ps|
  {
    if ps != [] {
      TrimLeftIsLStrip(ps[1..], d, i);
      assert VisiblePiece(ps[0], d, i);
      if ps[0].Plain? {
        assert Render(ps, d, i)[1..] == Render(ps[1..], d, i);
      } else {
        assert Render(ps, d, i)[0] == RenderPiece(ps[0], d, i)[0];
      }
    }
  }

  lemma RenderLast(ps: seq<Piece>, d: string, i: string)
    requires ps != []
    ensures Render(ps, d, i) == Render(ps[..|ps| - 1], d, i) + RenderPiece(ps[|ps| - 1], d, i)
  {
    var last := [ps[|ps| - 1]];
    assert ps == ps[..|ps| - 1] + last;
    RenderConcat(ps[..|ps| - 1], last, d, i);
    assert last[1..] == [];
  }

  lemma RStripLast(text: string, c: char)
    ensures RStrip(text + [c]) == if IsSpace(c) then RStrip(text) else text + [c]
  {
    assert (text + [c])[..|text|] == text;
  }

  lemma RStripVisible(text: string, last: string)
    requires last != "" && !IsSpace(last[|last| - 1])
    ensures RStrip(text + last) == text + last
  {
    assert (text + last)[|text + last| - 1] == last[|last| - 1];
  }

  lemma {:induction false} TrimRightIsRStrip(ps: seq<Piece>, d: string, i: string)
    requires Visible(ps, d, i)
    ensures RStrip(Render(ps, d, i)) == Render(TrimRight(ps), d, i)
    ensures forall p :: p in TrimRight(ps) ==> p in ps
    decreases |ps|
  {
    if ps != [] {
      var front, last := ps[..|ps| - 1], ps[|ps| - 1];
      assert VisiblePiece(last, d, i);
      RenderLast(ps, d, i);
      if last.Plain? {
        RStripLast(Render(front, d, i), last.c);
        if IsSpace(last.c) {
          TrimRightIsRStrip(front, d, i);
        }
      } else {
        RStripVisible(Render(front, d, i), RenderPiece(last, d, i));
      }
    }
  }

  lemma TrimIsStrip(ps: seq<Piece>, d: string, i: string)
    requires Visible(ps, d, i)
    ensures Strip(Render(ps, d, i)) == Render(TrimRight(TrimLeft(ps)), d, i)
    ensures forall p :: p in TrimRight(TrimLeft(ps)) ==> p in ps
  {
    TrimLeftIsLStrip(ps, d, i);
    forall k | 0 <= k < |TrimLeft(ps)|
      ensures VisiblePiece(TrimLeft(ps)[k], d, i)
    {
      assert TrimLeft(ps)[k] in ps;
    }
    TrimRightIsRStrip(TrimLeft(ps), d, i);
  }

  // ---------------------------------------------------------------- the round trip

  /** Keys after the first two find nothing left to replace. */
  lemma {:induction false} LaterKeysFindNothing(template: string, ctx: seq<(string, string)>, n: nat)
    requires n <= |ctx| && NoOpenBrace(Fill(template, ctx[..n]))
    ensures Fill(template, ctx) == Fill(template, ctx[..n])
    decreases |ctx|
  {
    if |ctx| > n {
      var front := ctx[..|ctx| - 1];
      assert front[..n] == ctx[..n];
      LaterKeysFindNothing(template, front, n);
      NothingToReplace(Fill(template, front), "{" + ctx[|ctx| - 1].0 + "}", ctx[|ctx| - 1].1);
    } else {
      assert ctx[..n] == ctx;
    }
  }

  lemma DevicesAsPieces(c: string, d: string) returns (ps: seq<Piece>)
    requires NoOpenBrace(c)
    ensures Render(ps, DEVICE, INTERFACE) == DeviceStep(c, d)
    ensures forall i :: Render(ps, d, i) == c
    ensures Clean(ps) && Interface !in ps && (Device in ps ==> d != "" && NoOpenBrace(d))
  {
    if d != "" {
      DeviceStepIsRender(c, d);
      ps := DevicePieces(c, d);
    } else {
      PlainPiecesRender(c);
      ps := PlainPieces(c);
    }
  }

  /** The commands and their template are two renderings of one sequence of pieces. */
  lemma CommandsAsPieces(c: string, d: string, i: string, marks: seq<nat>) returns (ps: seq<Piece>)
    requires NoOpenBrace(c) && VisibleEdges(d)
    requires WellMarked(DeviceStep(c, d), marks) && AllTokensAre(DeviceStep(c, d), marks, i)
    ensures Render(ps, DEVICE, INTERFACE) == SubTokens(DeviceStep(c, d), marks, INTERFACE) && Render(ps, d, i) == c
    ensures Clean(ps) && Visible(ps, d, i) && (Device in ps ==> NoOpenBrace(d))
  {
    var first := DevicesAsPieces(c, d);
    ps := InterfaceStepIsRender(first, marks, d, i, DEVICE, INTERFACE);
    VisibleFromEdges(ps, d, i);
  }

  lemma VisibleFromEdges(ps: seq<Piece>, d: string, i: string)
    requires Device in ps ==> d != "" && VisibleEdges(d)
    requires Interface in ps ==> i != "" && VisibleEdges(i)
    ensures Visible(ps, d, i)
  {
    forall k | 0 <= k < |ps|
      ensures VisiblePiece(ps[k], d, i)
    {
      assert ps[k] in ps;
    }
  }

  function PlainPieces(c: string): seq<Piece> {
    if c == [] then [] else [Plain(c[0])] + PlainPieces(c[1..])
  }

  lemma {:induction false} PlainPiecesRender(c: string)
    requires NoOpenBrace(c)
    ensures forall d, i :: Render(PlainPieces(c), d, i) == c
    ensures Clean(PlainPieces(c)) && Interface !in PlainPieces(c) && Device !in PlainPieces(c)
    decreases |c|
  {
    if c != [] {
      PlainPiecesRender(c[1..]);
      assert c == [c[0]] + c[1..];
    }
  }

  /** Every interface name found after the device step is `i`. */
  predicate OnlyInterface(c: string, d: string, i: string) {
    var x := DeviceStep(c, d);
    AllTokensAre(x, Marks(x), i)
  }

  /** Filling in device, then interface, turns the stripped template into the stripped commands. */
  lemma TemplateRoundTrip(c: string, d: string, i: string, marks: seq<nat>)
    requires NoOpenBrace(c) && VisibleEdges(d)
    requires WellMarked(DeviceStep(c, d), marks) && AllTokensAre(DeviceStep(c, d), marks, i)
    ensures Replace(Replace(Strip(SubTokens(DeviceStep(c, d), marks, INTERFACE)), DEVICE, d), INTERFACE, i) == Strip(c)
  {
    var ps := CommandsAsPieces(c, d, i, marks);
    var qs := TrimRight(TrimLeft(ps));
    TrimIsStrip(ps, d, i);
    VisibleFromEdges(ps, DEVICE, INTERFACE);
    TrimIsStrip(ps, DEVICE, INTERFACE);
    forall k | 0 <= k < |qs|
      ensures CleanPiece(qs[k])
    {
      assert qs[k] in ps;
    }
    FillsDevice(qs, d);
    FillsInterface(qs, d, i);
  }

  /** Generalising commands and filling the template in gives the commands back, stripped, whatever further keys
      the context holds: for commands without an opening brace, a device name without outer spaces, and an interface
      that is every interface named in them. */
  lemma GeneralizeThenFill(c: string, d: string, i: string, ctx: seq<(string, string)>)
    requires NoOpenBrace(c) && VisibleEdges(d) && OnlyInterface(c, d, i)
    requires |ctx| >= 2 && ctx[0] == ("device", d) && ctx[1] == ("interface", i)
    ensures Fill(Generalize(c, d), ctx) == Strip(c)
  {
    TemplateRoundTrip(c, d, i, Marks(DeviceStep(c, d)));
    FillTwo(Generalize(c, d), ctx);
    StripKeepsBraceFree(c);
    LaterKeysFindNothing(Generalize(c, d), ctx, 2);
  }

  lemma FillTwo(template: string, ctx: seq<(string, string)>)
    requires |ctx| >= 2 && ctx[0].0 == "device" && ctx[1].0 == "interface"
    ensures Fill(template, ctx[..2]) == Replace(Replace(template, DEVICE, ctx[0].1), INTERFACE, ctx[1].1)
  {
    var two := ctx[..2];
    var one := two[..1];
    assert one[..0] == [] && one[0] == ctx[0] && two[1] == ctx[1];
    assert "{" + "device" + "}" == DEVICE && "{" + "interface" + "}" == INTERFACE;
    assert Fill(template, one) == Replace(template, DEVICE, ctx[0].1);
  }

  lemma StripKeepsBraceFree(c: string)
    requires NoOpenBrace(c)
    ensures NoOpenBrace(Strip(c))
  {
    LStripWithin(c);
    var l, r := LStrip(c), Strip(c);
    assert forall k :: 0 <= k < |r| ==> r[k] == l[k];
  }

  lemma {:induction false} LStripWithin(s: string)
    ensures forall c :: c in LStrip(s) ==> c in s
    decreases |s|
  {
    if s != [] { LStripWithin(s[1..]); }
  }
}
