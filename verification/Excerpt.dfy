/** Cutting a text to a bounded excerpt (app/turn-context.js:132-182).

    Sentences and graphemes are found by segmenters, about which only this is assumed: the
    segments of a string, put together, are the string. */
module Excerpt {
  const MARKER := "…[truncated]"

  function Concat(parts: seq<string>): string {
    if parts == [] then "" else Concat(parts[..|parts| - 1]) + parts[|parts| - 1]
  }

  lemma ConcatNothing()
    ensures Concat([]) == ""
  {
  }

  lemma ConcatPush(a: seq<string>, s: string)
    ensures Concat(a + [s]) == Concat(a) + s
  {
    assert (a + [s])[..|a|] == a;
  }

  lemma {:induction false} ConcatAppend(a: seq<string>, b: seq<string>)
    ensures Concat(a + b) == Concat(a) + Concat(b)
  {
    hide Concat;
    ConcatNothing();
    if b == [] {
      assert a + b == a;
    } else {
      var front, last := b[..|b| - 1], b[|b| - 1];
      ConcatAppend(a, front);
      ConcatPush(a + front, last);
      ConcatPush(front, last);
      assert a + b == a + front + [last] && b == front + [last];
    }
  }

  lemma ConcatOne(s: string)
    ensures Concat([s]) == s
  {
    assert [s][..0] == [];
  }

  type Segmenter = string -> seq<string>

  ghost predicate Partitions(segments: Segmenter) {
    forall s :: Concat(segments(s)) == s
  }

  // ---------------------------------------------------------------- white space

  /** `\s`, which is also what `trim` removes. */
  predicate IsSpace(c: char) {
    || c == ' ' || '\t' <= c <= '\r' || c == '\U{00A0}' || c == '\U{1680}' || '\U{2000}' <= c <= '\U{200A}'
    || c == '\U{2028}' || c == '\U{2029}' || c == '\U{202F}' || c == '\U{205F}' || c == '\U{3000}' || c == '\U{FEFF}'
  }

  /** The characters of `\s` by their codes. */
  lemma SpacesAre(c: char)
    ensures IsSpace(c) <==> c as int in {9, 10, 11, 12, 13, 32, 160, 5760, 8192, 8193, 8194, 8195, 8196, 8197, 8198, 8199,
                                         8200, 8201, 8202, 8232, 8233, 8239, 8287, 12288, 65279}
  {
    if IsSpace(c) && !(c as int < 14) && !(8192 <= c as int <= 8202) { assert c as int in {32, 160, 5760, 8232, 8233, 8239, 8287, 12288, 65279}; }
  }

  predicate Blank(s: string) {
    forall i :: 0 <= i < |s| ==> IsSpace(s[i])
  }

  lemma BlankAppend(a: string, b: string)
    ensures Blank(a + b) <==> Blank(a) && Blank(b)
  {
    if Blank(a + b) {
      assert forall i :: 0 <= i < |a| ==> (a + b)[i] == a[i];
      assert forall i :: 0 <= i < |b| ==> (a + b)[|a| + i] == b[i];
    }
  }

  /** A piece of a text next to its kept end, up to white space. */
  ghost predicate Adjoins(s: string, piece: string, fromEnd: bool) {
    exists rest, gap :: Blank(gap) && s == Around(rest, piece, gap, fromEnd)
  }

  /** `gap` on the side of the kept end, `rest` on the other. */
  function Around(rest: string, piece: string, gap: string, fromEnd: bool): string {
    if fromEnd then rest + piece + gap else gap + piece + rest
  }

  lemma AroundAround(rest: string, a: string, piece: string, b: string, gap: string, fromEnd: bool)
    ensures Around(rest, Around(a, piece, b, fromEnd), gap, fromEnd) ==
            if fromEnd then Around(rest + a, piece, b + gap, fromEnd) else Around(a + rest, piece, gap + b, fromEnd)
  {
    if fromEnd {
      assert rest + (a + piece + b) + gap == (rest + a) + piece + (b + gap);
    } else {
      assert gap + (b + piece + a) + rest == (gap + b) + piece + (a + rest);
    }
  }

  /** A piece that adjoins a piece that adjoins. */
  lemma AdjoinsInside(s: string, out: string, a: string, piece: string, b: string, fromEnd: bool)
    requires Adjoins(s, out, fromEnd) && out == Around(a, piece, b, fromEnd) && Blank(b)
    ensures Adjoins(s, piece, fromEnd)
  {
    hide Around, Blank;
    var rest, gap :| Blank(gap) && s == Around(rest, out, gap, fromEnd);
    AroundAround(rest, a, piece, b, gap, fromEnd);
    BlankAppend(b, gap);
    BlankAppend(gap, b);
  }

  /** `trim` in two loops. */
  method Trim(s: string) returns (t: string)
    ensures exists a, b :: Blank(a) && Blank(b) && s == a + t + b
    ensures t != "" ==> !IsSpace(t[0]) && !IsSpace(t[|t| - 1])
    ensures t == "" <==> Blank(s)
    ensures |t| <= |s|
  {
    var i, j := 0, |s|;
    while i < j && IsSpace(s[i])
      invariant i <= j && Blank(s[..i])
    {
      i := i + 1;
    }
    while i < j && IsSpace(s[j - 1])
      invariant i <= j <= |s| && Blank(s[j..])
      invariant i < j ==> !IsSpace(s[i])
      invariant i == j ==> Blank(s)
    {
      j := j - 1;
    }
    t := s[i..j];
    assert s == s[..i] + t + s[j..];
  }

  // ---------------------------------------------------------------- filling a budget

  /** The `k` parts at the kept edge, put together. */
  function Edge(parts: seq<string>, k: nat, fromEnd: bool): string
    requires k <= |parts|
  {
    if fromEnd then Concat(parts[|parts| - k..]) else Concat(parts[..k])
  }

  lemma EdgeGrows(parts: seq<string>, k: nat, fromEnd: bool)
    requires k < |parts|
    ensures Edge(parts, k + 1, fromEnd) ==
            if fromEnd then parts[|parts| - 1 - k] + Edge(parts, k, fromEnd) else Edge(parts, k, fromEnd) + parts[k]
  {
    var n := |parts|;
    if fromEnd {
      assert parts[n - 1 - k..] == [parts[n - 1 - k]] + parts[n - k..];
      ConcatAppend([parts[n - 1 - k]], parts[n - k..]);
      ConcatOne(parts[n - 1 - k]);
    } else {
      assert parts[..k + 1] == parts[..k] + [parts[k]];
      ConcatAppend(parts[..k], [parts[k]]);
      ConcatOne(parts[k]);
    }
  }

  /** As many whole parts as the budget holds, no more and no fewer. */
  method Fill(parts: seq<string>, budget: int, fromEnd: bool) returns (out: string, ghost kept: nat)
    requires budget >= 0
    ensures kept <= |parts| && out == Edge(parts, kept, fromEnd) && |out| <= budget
    ensures kept < |parts| ==> |Edge(parts, kept + 1, fromEnd)| > budget
  {
    hide Concat;
    out, kept := "", 0;
    assert Edge(parts, 0, fromEnd) == "" by { EdgeEmpty(parts, fromEnd); }
    var n := |parts|;
    for i := 0 to n
      invariant kept == i && out == Edge(parts, kept, fromEnd) && |out| <= budget
    {
      EdgeGrows(parts, i, fromEnd);
      var part := if fromEnd then parts[n - 1 - i] else parts[i];
      var next := if fromEnd then part + out else out + part;
      if |next| > budget { return; }
      out, kept := next, i + 1;
    }
  }

  lemma EdgeEmpty(parts: seq<string>, fromEnd: bool)
    ensures Edge(parts, 0, fromEnd) == ""
  {
    assert parts[|parts|..] == [];
  }

  /** A piece that is itself at the edge: no gap. */
  ghost predicate AtEdge(s: string, piece: string, fromEnd: bool) {
    if fromEnd then |piece| <= |s| && s[|s| - |piece|..] == piece else piece <= s
  }

  lemma Suffix(a: string, b: string)
    ensures AtEdge(a + b, b, true) && AtEdge(a + b, a, false)
  {
  }

  lemma EdgeIsAtEdge(parts: seq<string>, k: nat, fromEnd: bool)
    requires k <= |parts|
    ensures AtEdge(Concat(parts), Edge(parts, k, fromEnd), fromEnd)
  {
    hide Concat, AtEdge;
    var cut := if fromEnd then |parts| - k else k;
    var front, back := parts[..cut], parts[cut..];
    ConcatAppend(front, back);
    assert front + back == parts;
    Suffix(Concat(front), Concat(back));
  }

  /** The part of a string that is segmented: all of it, or so much of it at the edge. */
  function Window(str: string, budget: nat, fromEnd: bool): (w: string)
    ensures AtEdge(str, w, fromEnd)
    ensures |str| <= budget * 2 + 64 ==> w == str
    ensures |str| > budget * 2 + 64 ==> |w| == budget * 2 + 64
  {
    var span := budget * 2 + 64;
    if |str| <= span then str else if fromEnd then str[|str| - span..] else str[..span]
  }

  /** `parts` is every segment of the window, but the one at its far end when the window has
      cut the string. */
  ghost predicate WholeSegments(str: string, segments: Segmenter, budget: nat, fromEnd: bool, parts: seq<string>) {
    var all := segments(Window(str, budget, fromEnd));
    if |str| <= budget * 2 + 64 || all == [] then parts == all
    else if fromEnd then all == [all[0]] + parts
    else all == parts + [all[|all| - 1]]
  }

  /** The segments of a window at the kept edge, without the one the window cut. */
  method EdgeSegments(str: string, segments: Segmenter, budget: nat, fromEnd: bool) returns (parts: seq<string>)
    requires Partitions(segments)
    ensures AtEdge(str, Concat(parts), fromEnd)
    ensures WholeSegments(str, segments, budget, fromEnd, parts)
  {
    hide Concat;
    var sliced := |str| > budget * 2 + 64;
    var region := Window(str, budget, fromEnd);
    parts := segments(region);
    assert Concat(parts) == region;
    if sliced && parts != [] {
      DropCut(parts, region, fromEnd);
      ghost var all := parts;
      parts := if fromEnd then parts[1..] else parts[..|parts| - 1];
      assert all == if fromEnd then [all[0]] + parts else parts + [all[|all| - 1]];
      AtEdgeTwice(str, region, Concat(parts), fromEnd);
    }
  }

  lemma DropCut(parts: seq<string>, region: string, fromEnd: bool)
    requires parts != [] && Concat(parts) == region
    ensures AtEdge(region, Concat(if fromEnd then parts[1..] else parts[..|parts| - 1]), fromEnd)
  {
    EdgeIsAtEdge(parts, |parts| - 1, fromEnd);
  }

  lemma AtEdgeTwice(s: string, mid: string, piece: string, fromEnd: bool)
    requires AtEdge(s, mid, fromEnd) && AtEdge(mid, piece, fromEnd)
    ensures AtEdge(s, piece, fromEnd)
  {
    if fromEnd {
      assert s[|s| - |mid|..][|mid| - |piece|..] == s[|s| - |piece|..];
    }
  }

  /** As many of these parts as the budget holds. */
  ghost predicate Fullest(parts: seq<string>, k: nat, budget: int, fromEnd: bool) {
    && k <= |parts| && |Edge(parts, k, fromEnd)| <= budget
    && (k < |parts| ==> |Edge(parts, k + 1, fromEnd)| > budget)
  }

  /** As many whole segments at the edge of the string as the budget holds. */
  ghost predicate FilledBy(str: string, segments: Segmenter, budget: nat, fromEnd: bool, out: string) {
    exists parts: seq<string>, k: nat :: WholeSegments(str, segments, budget, fromEnd, parts) && Fullest(parts, k, budget, fromEnd) && out == Edge(parts, k, fromEnd)
  }

  method EdgeFill(str: string, segments: Segmenter, budget: nat, fromEnd: bool) returns (out: string)
    requires Partitions(segments)
    ensures AtEdge(str, out, fromEnd) && |out| <= budget
    ensures FilledBy(str, segments, budget, fromEnd, out)
  {
    var parts := EdgeSegments(str, segments, budget, fromEnd);
    ghost var kept;
    out, kept := Fill(parts, budget, fromEnd);
    EdgeIsAtEdge(parts, kept, fromEnd);
    AtEdgeTwice(str, Concat(parts), out, fromEnd);
    assert Fullest(parts, kept, budget, fromEnd);
  }

  // ---------------------------------------------------------------- paragraphs

  datatype Para = Para(text: string, sep: string)

  /** The end of a run of blanks and tabs. */
  function SkipTabs(s: string, i: nat): (j: nat)
    requires i <= |s|
    ensures i <= j <= |s| && Blank(s[i..j])
    decreases |s| - i
  {
    if i < |s| && (s[i] == ' ' || s[i] == '\t') then
      var j := SkipTabs(s, i + 1);
      assert s[i..j] == [s[i]] + s[i + 1..j];
      j
    else i
  }

  function SkipSpace(s: string, i: nat): (j: nat)
    requires i <= |s|
    ensures i <= j <= |s| && Blank(s[i..j])
    decreases |s| - i
  {
    if i < |s| && IsSpace(s[i]) then
      var j := SkipSpace(s, i + 1);
      assert s[i..j] == [s[i]] + s[i + 1..j];
      j
    else i
  }

  /** The end of a paragraph break that starts at `i`, or `i` when none does. */
  function BreakAt(s: string, i: nat): (j: nat)
    requires i < |s|
    ensures i <= j <= |s| && Blank(s[i..j])
  {
    if s[i] != '\n' then i
    else
      var k := SkipTabs(s, i + 1);
      if k < |s| && s[k] == '\n' then
        var j := SkipSpace(s, k + 1);
        assert s[i..j] == [s[i]] + s[i + 1..k] + [s[k]] + s[k + 1..j];
        j
      else i
  }

  function NextBreak(s: string, i: nat): (j: nat)
    requires i <= |s|
    ensures i <= j <= |s|
    decreases |s| - i
  {
    if i == |s| || BreakAt(s, i) > i then i else NextBreak(s, i + 1)
  }

  function Joined(paras: seq<Para>): string {
    if paras == [] then "" else Joined(paras[..|paras| - 1]) + (paras[|paras| - 1].text + paras[|paras| - 1].sep)
  }

  lemma JoinedPush(a: seq<Para>, p: Para)
    ensures Joined(a + [p]) == Joined(a) + (p.text + p.sep)
  {
    assert (a + [p])[..|a|] == a;
  }

  lemma {:induction false} JoinedAppend(a: seq<Para>, b: seq<Para>)
    ensures Joined(a + b) == Joined(a) + Joined(b)
  {
    hide Joined;
    assert Joined([]) == "" by { JoinedNothing(); }
    if b == [] {
      assert a + b == a;
    } else {
      var front, last := b[..|b| - 1], b[|b| - 1];
      JoinedAppend(a, front);
      JoinedPush(a + front, last);
      JoinedPush(front, last);
      assert a + b == a + front + [last] && b == front + [last];
    }
  }

  lemma JoinedOne(p: Para)
    ensures Joined([p]) == p.text + p.sep
  {
    assert [p][..0] == [];
  }

  /** Paragraphs with the break after each; the last one has none. */
  ghost predicate Paragraphs(paras: seq<Para>, s: string) {
    && paras != [] && Joined(paras) == s
    && (forall i :: 0 <= i < |paras| ==> Blank(paras[i].sep))
    && paras[|paras| - 1].sep == ""
  }

  /** There is no paragraph break in the text, and the separator is one whole break. */
  ghost predicate Undivided(p: Para, last: bool) {
    && (forall x :: 0 <= x < |p.text| ==> BreakAt(p.text, x) == x)
    && (!last ==> p.sep != "" && BreakAt(p.sep, 0) == |p.sep|)
  }

  method SplitParagraphs(s: string) returns (paras: seq<Para>)
    ensures Paragraphs(paras, s)
    ensures forall i :: 0 <= i < |paras| ==> Undivided(paras[i], i == |paras| - 1)
  {
    hide Joined, NextBreak, BreakAt, Undivided;
    paras := [];
    var start := 0;
    assert Joined(paras) == s[..0] by { JoinedNothing(); }
    while true
      invariant start <= |s| && Joined(paras) == s[..start]
      invariant forall i :: 0 <= i < |paras| ==> Blank(paras[i].sep) && Undivided(paras[i], false)
      decreases |s| - start
    {
      var i := NextBreak(s, start);
      NextBreakIs(s, start);
      var end := if i < |s| then BreakAt(s, i) else i;
      var p := Para(s[start..i], s[i..end]);
      UndividedPiece(s, start, i, end);
      JoinedAppend(paras, [p]);
      JoinedOne(p);
      assert s[..start] + (p.text + p.sep) == s[..end];
      paras := paras + [p];
      if i == |s| {
        assert s[..end] == s;
        assert forall j :: 0 <= j < |paras| - 1 ==> Undivided(paras[j], false);
        return;
      }
      start := end;
    }
  }

  lemma {:induction false} TabsWithin(s: string, a: nat, b: nat, i: nat)
    requires a <= i <= b <= |s|
    ensures SkipTabs(s[a..b], i - a) == (if SkipTabs(s, i) < b then SkipTabs(s, i) else b) - a
    decreases b - i
  {
    if i < b {
      assert s[a..b][i - a] == s[i];
      if s[i] == ' ' || s[i] == '\t' { TabsWithin(s, a, b, i + 1); }
    }
  }

  lemma {:induction false} SpaceWithin(s: string, a: nat, b: nat, i: nat)
    requires a <= i <= b <= |s|
    ensures SkipSpace(s[a..b], i - a) == (if SkipSpace(s, i) < b then SkipSpace(s, i) else b) - a
    decreases b - i
  {
    if i < b {
      assert s[a..b][i - a] == s[i];
      if IsSpace(s[i]) { SpaceWithin(s, a, b, i + 1); }
    }
  }

  /** A break seen in a piece of the text is one in the text, and a whole break is one by
      itself. */
  lemma BreakWithin(s: string, a: nat, b: nat, x: nat)
    requires a <= x < b <= |s|
    ensures BreakAt(s[a..b], x - a) > x - a ==> BreakAt(s, x) > x
    ensures BreakAt(s, x) == b && a == x ==> BreakAt(s[a..b], 0) == b - a
  {
    hide SkipTabs, SkipSpace;
    assert s[a..b][x - a] == s[x];
    if s[x] == '\n' {
      TabsWithin(s, a, b, x + 1);
      var k := SkipTabs(s, x + 1);
      if k < b { assert s[a..b][k - a] == s[k]; }
      if k < b && s[k] == '\n' { SpaceWithin(s, a, b, k + 1); }
    }
  }

  lemma UndividedPiece(s: string, start: nat, i: nat, end: nat)
    requires start <= i <= end <= |s| && i == NextBreak(s, start)
    requires end == if i < |s| then BreakAt(s, i) else i
    ensures Undivided(Para(s[start..i], s[i..end]), i == |s|)
  {
    hide BreakAt, NextBreak;
    NextBreakIs(s, start);
    forall x | 0 <= x < i - start ensures BreakAt(s[start..i], x) == x {
      NoneBefore(s, start, start + x);
      BreakWithin(s, start, i, start + x);
    }
    if i < |s| { BreakWithin(s, i, end, i); }
  }

  lemma {:induction false} NoneBefore(s: string, i: nat, x: nat)
    requires i <= |s| && i <= x < NextBreak(s, i)
    ensures BreakAt(s, x) == x
    decreases |s| - i
  {
    if i < x { NoneBefore(s, i + 1, x); }
  }

  lemma JoinedNothing()
    ensures Joined([]) == ""
  {
  }

  lemma NextBreakIs(s: string, i: nat)
    requires i <= |s|
    ensures NextBreak(s, i) < |s| ==> BreakAt(s, NextBreak(s, i)) > NextBreak(s, i)
    decreases |s| - i
  {
    if i < |s| && BreakAt(s, i) == i { NextBreakIs(s, i + 1); }
  }

  // ---------------------------------------------------------------- the kept part

  function Index(paras: seq<Para>, k: nat, fromEnd: bool): (i: nat)
    requires k < |paras|
    ensures i < |paras|
  {
    if fromEnd then |paras| - 1 - k else k
  }

  /** `out` is what the `k` paragraphs at the kept edge hold, up to white space outside. */
  ghost predicate Taken(paras: seq<Para>, k: nat, out: string, fromEnd: bool)
    requires k <= |paras|
  {
    exists gap :: Blank(gap) && AtKeptEnd(paras, k, fromEnd) == Around(if fromEnd then "" else Trailing(paras, k), out, gap, fromEnd)
  }

  function AtKeptEnd(paras: seq<Para>, k: nat, fromEnd: bool): string
    requires k <= |paras|
  {
    if fromEnd then Joined(paras[|paras| - k..]) else Joined(paras[..k])
  }

  function Trailing(paras: seq<Para>, k: nat): string
    requires k <= |paras|
  {
    if k > 0 then paras[k - 1].sep else ""
  }

  /** The white space between what is kept and the next paragraph. */
  function Joiner(paras: seq<Para>, k: nat, out: string, fromEnd: bool): string
    requires k < |paras|
  {
    if out == "" then ""
    else if fromEnd then paras[|paras| - 1 - k].sep
    else Trailing(paras, k)
  }

  function Attached(piece: string, joiner: string, out: string, fromEnd: bool): string {
    if fromEnd then piece + joiner + out else out + joiner + piece
  }

  lemma TakenNothing(paras: seq<Para>, fromEnd: bool)
    ensures Taken(paras, 0, "", fromEnd)
  {
    assert AtKeptEnd(paras, 0, fromEnd) == "" by {
      assert paras[|paras|..] == [] && paras[..0] == [];
      JoinedNothing();
    }
    assert Around("", "", "", fromEnd) == "";
    assert Blank("");
  }

  lemma OneMoreBefore(paras: seq<Para>, k: nat)
    requires k < |paras|
    ensures var p := paras[|paras| - 1 - k];
            AtKeptEnd(paras, k + 1, true) == p.text + p.sep + AtKeptEnd(paras, k, true)
  {
    hide Joined;
    var p := paras[|paras| - 1 - k];
    assert paras[|paras| - 1 - k..] == [p] + paras[|paras| - k..];
    JoinedAppend([p], paras[|paras| - k..]);
    JoinedOne(p);
  }

  lemma OneMoreAfter(paras: seq<Para>, k: nat)
    requires k < |paras|
    ensures AtKeptEnd(paras, k + 1, false) == AtKeptEnd(paras, k, false) + (paras[k].text + paras[k].sep)
  {
    hide Joined;
    assert paras[..k + 1] == paras[..k] + [paras[k]];
    JoinedAppend(paras[..k], [paras[k]]);
    JoinedOne(paras[k]);
  }

  lemma TakeBefore(paras: seq<Para>, k: nat, out: string, gap: string) returns (more: string)
    requires k < |paras| && Blank(gap) && Blank(paras[|paras| - 1 - k].sep)
    requires AtKeptEnd(paras, k, true) == Around("", out, gap, true)
    ensures Blank(more)
    ensures AtKeptEnd(paras, k + 1, true) == Around("", Attached(paras[|paras| - 1 - k].text, Joiner(paras, k, out, true), out, true), more, true)
  {
    hide AtKeptEnd, Blank;
    OneMoreBefore(paras, k);
    var p := paras[|paras| - 1 - k];
    if out == "" {
      more := p.sep + gap;
      BlankAppend(p.sep, gap);
      assert p.text + p.sep + ("" + "" + gap) == "" + (p.text + "" + "") + (p.sep + gap);
    } else {
      more := gap;
      assert p.text + p.sep + ("" + out + gap) == "" + (p.text + p.sep + out) + gap;
    }
  }

  lemma TakeAfter(paras: seq<Para>, k: nat, out: string, gap: string) returns (more: string)
    requires k < |paras| && Blank(gap) && Blank(Trailing(paras, k))
    requires AtKeptEnd(paras, k, false) == Around(Trailing(paras, k), out, gap, false)
    ensures Blank(more)
    ensures AtKeptEnd(paras, k + 1, false) ==
            Around(Trailing(paras, k + 1), Attached(paras[k].text, Joiner(paras, k, out, false), out, false), more, false)
  {
    hide AtKeptEnd, Blank, Trailing;
    OneMoreAfter(paras, k);
    var p, sep := paras[k], Trailing(paras, k);
    assert Trailing(paras, k + 1) == p.sep by { TrailingIs(paras, k); }
    if out == "" {
      more := gap + sep;
      BlankAppend(gap, sep);
      assert (gap + "" + sep) + (p.text + p.sep) == (gap + sep) + ("" + "" + p.text) + p.sep;
    } else {
      more := gap;
      assert (gap + out + sep) + (p.text + p.sep) == gap + (out + sep + p.text) + p.sep;
    }
  }

  lemma TrailingIs(paras: seq<Para>, k: nat)
    requires k < |paras|
    ensures Trailing(paras, k + 1) == paras[k].sep
  {
  }

  lemma TrailingIsBlank(paras: seq<Para>, s: string, k: nat)
    requires Paragraphs(paras, s) && k <= |paras|
    ensures Blank(Trailing(paras, k))
  {
  }

  lemma TakeWhole(paras: seq<Para>, s: string, k: nat, out: string, fromEnd: bool)
    requires Paragraphs(paras, s) && k < |paras| && Taken(paras, k, out, fromEnd)
    ensures Taken(paras, k + 1, Attached(paras[Index(paras, k, fromEnd)].text, Joiner(paras, k, out, fromEnd), out, fromEnd), fromEnd)
  {
    hide Joined, AtKeptEnd, Around, Blank, Attached, Joiner, Trailing;
    assert Blank(paras[Index(paras, k, fromEnd)].sep);
    TrailingIsBlank(paras, s, k);
    var gap :| Blank(gap) && AtKeptEnd(paras, k, fromEnd) == Around(if fromEnd then "" else Trailing(paras, k), out, gap, fromEnd);
    if fromEnd {
      var more := TakeBefore(paras, k, out, gap);
    } else {
      var more := TakeAfter(paras, k, out, gap);
    }
  }

  /** What is taken adjoins the kept end of the whole text. */
  lemma TakenAdjoins(paras: seq<Para>, s: string, k: nat, out: string, fromEnd: bool)
    requires Paragraphs(paras, s) && k <= |paras| && Taken(paras, k, out, fromEnd)
    ensures Adjoins(s, out, fromEnd)
  {
    hide Joined, Around, Trailing, Blank;
    var cut := if fromEnd then |paras| - k else k;
    JoinedAppend(paras[..cut], paras[cut..]);
    assert paras[..cut] + paras[cut..] == paras;
    var other := if fromEnd then Joined(paras[..cut]) else Joined(paras[cut..]);
    var gap :| Blank(gap) && AtKeptEnd(paras, k, fromEnd) == Around(if fromEnd then "" else Trailing(paras, k), out, gap, fromEnd);
    var rest := if fromEnd then other else Trailing(paras, k) + other;
    AroundRest(other, if fromEnd then "" else Trailing(paras, k), out, gap, fromEnd);
    assert s == Around(rest, out, gap, fromEnd);
  }

  lemma AroundRest(other: string, near: string, out: string, gap: string, fromEnd: bool)
    ensures fromEnd && near == "" ==> other + Around(near, out, gap, true) == Around(other, out, gap, true)
    ensures !fromEnd ==> Around(near, out, gap, false) + other == Around(near + other, out, gap, false)
  {
    assert other + ("" + out + gap) == other + out + gap;
    assert (gap + out + near) + other == gap + out + (near + other);
  }

  /** A part of the next paragraph, at its kept edge, may be added as well. */
  lemma PartAdjoins(paras: seq<Para>, s: string, k: nat, out: string, piece: string, fromEnd: bool)
    requires Paragraphs(paras, s) && k < |paras| && Taken(paras, k, out, fromEnd)
    requires AtEdge(paras[Index(paras, k, fromEnd)].text, piece, fromEnd)
    ensures Adjoins(s, Attached(piece, Joiner(paras, k, out, fromEnd), out, fromEnd), fromEnd)
  {
    hide Joined, Taken, Paragraphs, Joiner, Adjoins;
    var text, joiner := paras[Index(paras, k, fromEnd)].text, Joiner(paras, k, out, fromEnd);
    var whole := Attached(text, joiner, out, fromEnd);
    TakeWhole(paras, s, k, out, fromEnd);
    TakenAdjoins(paras, s, k + 1, whole, fromEnd);
    var cut := EdgeCut(text, joiner, out, piece, fromEnd);
    AdjoinsInside(s, whole, cut, Attached(piece, joiner, out, fromEnd), "", fromEnd);
  }

  lemma EdgeCut(text: string, joiner: string, out: string, piece: string, fromEnd: bool) returns (cut: string)
    requires AtEdge(text, piece, fromEnd)
    ensures Attached(text, joiner, out, fromEnd) == Around(cut, Attached(piece, joiner, out, fromEnd), "", fromEnd)
  {
    if fromEnd {
      cut := text[..|text| - |piece|];
      assert text == cut + piece;
      assert (cut + piece) + joiner + out == cut + (piece + joiner + out) + "";
    } else {
      cut := text[|piece|..];
      assert text == piece + cut;
      assert out + joiner + (piece + cut) == "" + (out + joiner + piece) + cut;
    }
  }

  /** How a text was cut: `taken` is what `k` whole paragraphs at the kept end hold, `out`
      that with what was added of the next one. */
  datatype Choice = Choice(paras: seq<Para>, k: nat, taken: string, out: string)

  /** What is added of the paragraph that does not fit: its sentences that do, when they
      show anything; otherwise, if nothing else was taken, its characters. */
  ghost predicate Extends(text: string, joiner: string, taken: string, out: string, sentences: Segmenter, graphemes: Segmenter, budget: nat, fromEnd: bool) {
    if exists kept :: AddedSentences(text, joiner, taken, kept, sentences, budget, fromEnd) && !Blank(kept)
    then exists kept :: AddedSentences(text, joiner, taken, kept, sentences, budget, fromEnd) && !Blank(kept) && out == Attached(kept, joiner, taken, fromEnd)
    else if taken == "" then FilledBy(text, graphemes, budget, fromEnd, out)
    else out == taken
  }

  ghost predicate AddedSentences(text: string, joiner: string, taken: string, kept: string, sentences: Segmenter, budget: nat, fromEnd: bool) {
    |taken| + |joiner| < budget && FilledBy(text, sentences, budget - |taken| - |joiner|, fromEnd, kept)
  }

  /** All paragraphs at the kept end that fit, and of the next, which does not, as much as
      can be added. */
  ghost predicate Chosen(s: string, c: Choice, sentences: Segmenter, graphemes: Segmenter, budget: nat, fromEnd: bool) {
    && Paragraphs(c.paras, s) && (forall i :: 0 <= i < |c.paras| ==> Undivided(c.paras[i], i == |c.paras| - 1))
    && c.k <= |c.paras| && Taken(c.paras, c.k, c.taken, fromEnd)
    && if c.k == |c.paras| then c.out == c.taken
       else
         var next, joiner := c.paras[Index(c.paras, c.k, fromEnd)], Joiner(c.paras, c.k, c.taken, fromEnd);
         && |Attached(next.text, joiner, c.taken, fromEnd)| > budget
         && Extends(next.text, joiner, c.taken, c.out, sentences, graphemes, budget, fromEnd)
  }

  ghost predicate TrimmedFrom(out: string, r: string) {
    && (exists a, b :: Blank(a) && Blank(b) && out == a + r + b)
    && (r != "" ==> !IsSpace(r[0]) && !IsSpace(r[|r| - 1]))
    && (r == "" <==> Blank(out))
  }

  /** Whole paragraphs from the kept end, then the sentences, or at least the characters,
      of the first that does not fit. */
  method Within(s: string, sentences: Segmenter, graphemes: Segmenter, budget: nat, fromEnd: bool) returns (r: string, ghost c: Choice)
    requires Partitions(sentences) && Partitions(graphemes)
    ensures |r| <= budget && Adjoins(s, r, fromEnd)
    ensures Chosen(s, c, sentences, graphemes, budget, fromEnd) && TrimmedFrom(c.out, r)
  {
    hide Paragraphs, Taken, Adjoins, AtEdge, Blank, Partitions, Undivided, Extends;
    var paras := SplitParagraphs(s);
    var out := "";
    TakenNothing(paras, fromEnd);
    var k := 0;
    while k < |paras|
      invariant k <= |paras| && Taken(paras, k, out, fromEnd) && |out| <= budget
      decreases |paras| - k
    {
      var para := paras[Index(paras, k, fromEnd)];
      var joiner := Joiner(paras, k, out, fromEnd);
      var whole := Attached(para.text, joiner, out, fromEnd);
      if |whole| > budget { break; }
      TakeWhole(paras, s, k, out, fromEnd);
      out := whole;
      k := k + 1;
    }
    TakenAdjoins(paras, s, k, out, fromEnd);
    ghost var taken := out;
    if k < |paras| { out := AddPart(s, paras, k, out, sentences, graphemes, budget, fromEnd); }
    c := Choice(paras, k, taken, out);
    r := Trim(out);
    ghost var a, b :| Blank(a) && Blank(b) && out == a + r + b;
    AdjoinsInside(s, out, if fromEnd then a else b, r, if fromEnd then b else a, fromEnd);
  }

  method AddPart(s: string, paras: seq<Para>, k: nat, out: string, sentences: Segmenter, graphemes: Segmenter, budget: nat, fromEnd: bool)
    returns (r: string)
    requires Partitions(sentences) && Partitions(graphemes) && Paragraphs(paras, s)
    requires k < |paras| && Taken(paras, k, out, fromEnd) && |out| <= budget
    ensures |r| <= budget && Adjoins(s, r, fromEnd)
    ensures Extends(paras[Index(paras, k, fromEnd)].text, Joiner(paras, k, out, fromEnd), out, r, sentences, graphemes, budget, fromEnd)
  {
    hide Paragraphs, Taken, Adjoins, AtEdge, Partitions, Blank, FilledBy;
    TakenAdjoins(paras, s, k, out, fromEnd);
    var para := paras[Index(paras, k, fromEnd)];
    var joiner := Joiner(paras, k, out, fromEnd);
    var room := budget - |out| - |joiner|;
    var kept := "";
    if room > 0 {
      kept := EdgeFill(para.text, sentences, room, fromEnd);
      PartAdjoins(paras, s, k, out, kept, fromEnd);
      assert AddedSentences(para.text, joiner, out, kept, sentences, budget, fromEnd);
      forall other | AddedSentences(para.text, joiner, out, other, sentences, budget, fromEnd) ensures other == kept {
        FilledOnce(para.text, sentences, room, fromEnd, kept, other);
      }
    }
    var visible := Trim(kept);
    if visible != "" {
      r := Attached(kept, joiner, out, fromEnd);
    } else if out == "" {
      r := EdgeFill(para.text, graphemes, budget, fromEnd);
      PartAdjoins(paras, s, k, out, r, fromEnd);
      assert Attached(r, joiner, out, fromEnd) == r;
    } else {
      r := out;
    }
  }

  /** There is one way to fill a budget. */
  lemma FilledOnce(str: string, segments: Segmenter, budget: nat, fromEnd: bool, a: string, b: string)
    requires FilledBy(str, segments, budget, fromEnd, a) && FilledBy(str, segments, budget, fromEnd, b)
    ensures a == b
  {
    hide Concat, Edge;
    var parts: seq<string>, j: nat :| WholeSegments(str, segments, budget, fromEnd, parts) && Fullest(parts, j, budget, fromEnd) && a == Edge(parts, j, fromEnd);
    var others: seq<string>, k: nat :| WholeSegments(str, segments, budget, fromEnd, others) && Fullest(others, k, budget, fromEnd) && b == Edge(others, k, fromEnd);
    SameSegments(str, segments, budget, fromEnd, parts, others);
    if j < k { EdgesGrow(parts, j + 1, k, fromEnd); }
    if k < j { EdgesGrow(parts, k + 1, j, fromEnd); }
  }

  lemma SameSegments(str: string, segments: Segmenter, budget: nat, fromEnd: bool, a: seq<string>, b: seq<string>)
    requires WholeSegments(str, segments, budget, fromEnd, a) && WholeSegments(str, segments, budget, fromEnd, b)
    ensures a == b
  {
    var all := segments(Window(str, budget, fromEnd));
    if |str| > budget * 2 + 64 && all != [] {
      if fromEnd {
        assert all[1..] == a && all[1..] == b;
      } else {
        assert all[..|all| - 1] == a && all[..|all| - 1] == b;
      }
    }
  }

  lemma {:induction false} EdgesGrow(parts: seq<string>, j: nat, k: nat, fromEnd: bool)
    requires j <= k <= |parts|
    ensures |Edge(parts, j, fromEnd)| <= |Edge(parts, k, fromEnd)|
  {
    hide Edge;
    if j < k {
      EdgesGrow(parts, j, k - 1, fromEnd);
      EdgeGrows(parts, k - 1, fromEnd);
    }
  }

  // ---------------------------------------------------------------- the excerpt

  /** The text itself when it fits; as much of the marker as fits when nothing else does;
      otherwise the whole marker and, next to the cut, what was chosen of the text, a piece
      that adjoins its kept end up to white space.  The marker stands alone only when what
      was chosen is blank. */
  ghost predicate IsExcerpt(s: string, r: string, max: int, tail: bool, c: Choice, sentences: Segmenter, graphemes: Segmenter) {
    if |s| <= max then r == s
    else if max <= |MARKER| + 1 then r == MARKER[..if max <= 0 then 0 else if max < |MARKER| then max else |MARKER|]
    else
      && Chosen(s, c, sentences, graphemes, max - |MARKER| - 1, tail)
      && if Blank(c.out) then r == MARKER
         else exists body :: body != "" && TrimmedFrom(c.out, body) && Adjoins(s, body, tail) && r == if tail then MARKER + " " + body else body + " " + MARKER
  }

  method BoundedExcerpt(s: string, max: int, tail: bool, sentences: Segmenter, graphemes: Segmenter) returns (r: string, ghost c: Choice)
    requires Partitions(sentences) && Partitions(graphemes)
    ensures max >= 0 ==> |r| <= max
    ensures IsExcerpt(s, r, max, tail, c, sentences, graphemes)
  {
    hide Chosen, Adjoins, Partitions;
    c := Choice([], 0, "", "");
    if |s| <= max { return s, c; }
    var budget := max - |MARKER| - 1;
    if budget <= 0 {
      var n := if max > 0 then max else 0;
      return if n < |MARKER| then MARKER[..n] else MARKER, c;
    }
    var body;
    body, c := Within(s, sentences, graphemes, budget, tail);
    if body == "" { return MARKER, c; }
    assert body != "" && TrimmedFrom(c.out, body) && Adjoins(s, body, tail);
    r := if tail then MARKER + " " + body else body + " " + MARKER;
  }
}
