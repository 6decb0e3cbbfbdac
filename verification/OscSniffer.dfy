/** The OSC 52 clipboard sniffer of the terminal page (app/terminal-preload.js).

    A terminal stream arrives in frames cut at arbitrary places.  The sniffer must
    report the same copy sequences whatever the cuts.  Positions are counted over
    the whole stream, so a reported sequence is identified by where it stands and
    not only by its payload. */
module OscSniffer {
  import opened Options

  const ESC: char := '\U{1b}'
  const BEL: char := '\U{7}'
  const PREFIX: string := [ESC, ']', '5', '2', ';']

  // ---------------------------------------------------------------- the pattern

  /** One copy sequence: the prefix starts at `start`, the `;` after the selector is
      at `semi`, the terminator starts at `close` and ends before `end`. */
  datatype Span = Span(start: nat, semi: nat, close: nat, end: nat)

  predicate HasPrefix(s: string, i: nat) {
    i + 5 <= |s| && s[i..i + 5] == PREFIX
  }

  predicate PayloadChar(c: char) {
    'A' <= c <= 'Z' || 'a' <= c <= 'z' || '0' <= c <= '9' || c == '+' || c == '/' || c == '='
  }

  /** Length of the terminator that starts at `i`, 0 when none does. */
  function TermLen(s: string, i: nat): nat {
    if i < |s| && s[i] == BEL then 1
    else if i + 1 < |s| && s[i] == ESC && s[i + 1] == '\\' then 2
    else 0
  }

  /** What the regular expression matches, stated without saying how it is found. */
  ghost predicate IsMatch(s: string, m: Span) {
    && m.start + 5 <= m.semi < m.close < m.end <= |s|
    && s[m.start..m.start + 5] == "\U{1b}]52;"
    && (forall x :: m.start + 5 <= x < m.semi ==> s[x] != ';')
    && s[m.semi] == ';'
    && (forall x :: m.semi < x < m.close ==> PayloadChar(s[x]))
    && TermLen(s, m.close) == m.end - m.close
  }

  /** The pattern by its characters: the prefix, a selector without semicolons, one, base64
      characters, and BEL or ESC backslash. */
  lemma PatternIs(s: string, m: Span)
    ensures IsMatch(s, m) <==>
            && m.start + 5 <= m.semi < m.close < m.end <= |s|
            && s[m.start..m.start + 5] == "\U{1b}]52;"
            && ';' !in s[m.start + 5..m.semi] && s[m.semi] == ';'
            && (forall x :: m.semi < x < m.close ==>
                  65 <= s[x] as int <= 90 || 97 <= s[x] as int <= 122 || 48 <= s[x] as int <= 57 || s[x] in "+/=")
            && (s[m.close..m.end] == "\U{7}" || s[m.close..m.end] == "\U{1b}\\")
  {
    if m.start + 5 <= m.semi < m.close < m.end <= |s| {
      InField(s, m.start + 5, m.semi);
      Terminated(s, m.close, m.end);
    }
  }

  lemma InField(s: string, i: nat, k: nat)
    requires i <= k <= |s|
    ensures forall x :: i <= x < k ==> s[x] in s[i..k]
    ensures forall c :: c in s[i..k] ==> exists x :: i <= x < k && s[x] == c
  {
    forall x | i <= x < k ensures s[x] in s[i..k] { assert s[i..k][x - i] == s[x]; }
    forall c | c in s[i..k] ensures exists x :: i <= x < k && s[x] == c {
      var j :| 0 <= j < k - i && s[i..k][j] == c;
      assert s[i + j] == c;
    }
  }

  lemma Terminated(s: string, i: nat, k: nat)
    requires i < k <= |s|
    ensures TermLen(s, i) == k - i <==> s[i..k] == "\U{7}" || s[i..k] == "\U{1b}\\"
  {
    assert s[i..k][0] == s[i];
    if k == i + 2 { assert s[i..k] == [s[i], s[i + 1]]; }
    if k == i + 1 { assert s[i..k] == [s[i]]; }
  }

  /** The selector field holds no complete terminator. */
  ghost predicate CleanSelector(s: string, m: Span)
    requires IsMatch(s, m)
  {
    forall t :: m.start + 5 <= t < m.semi ==> TermLen(s[..m.semi], t) == 0
  }

  function SkipSelector(s: string, i: nat): (k: nat)
    requires i <= |s|
    ensures i <= k <= |s|
    ensures forall x :: i <= x < k ==> s[x] != ';'
    ensures k < |s| ==> s[k] == ';'
    decreases |s| - i
  {
    if i == |s| || s[i] == ';' then i else SkipSelector(s, i + 1)
  }

  function SkipPayload(s: string, i: nat): (k: nat)
    requires i <= |s|
    ensures i <= k <= |s|
    ensures forall x :: i <= x < k ==> PayloadChar(s[x])
    ensures k < |s| ==> !PayloadChar(s[k])
    decreases |s| - i
  {
    if i == |s| || !PayloadChar(s[i]) then i else SkipPayload(s, i + 1)
  }

  /** The regular expression tried at one position. */
  function MatchAt(s: string, i: nat): (r: Option<Span>)
    ensures r.Some? ==> IsMatch(s, r.value) && r.value.start == i
    ensures r.None? ==> forall m :: IsMatch(s, m) ==> m.start != i
  {
    if !HasPrefix(s, i) then None
    else
      var semi := SkipSelector(s, i + 5);
      if semi == |s| then None
      else
        var close := SkipPayload(s, semi + 1);
        if TermLen(s, close) == 0 then
          NoMatchAt(s, i, semi, close);
          None
        else Some(Span(i, semi, close, close + TermLen(s, close)))
  }

  lemma NoMatchAt(s: string, i: nat, semi: nat, close: nat)
    requires HasPrefix(s, i) && i + 5 <= semi < close <= |s|
    requires forall x :: i + 5 <= x < semi ==> s[x] != ';'
    requires s[semi] == ';'
    requires forall x :: semi < x < close ==> PayloadChar(s[x])
    requires close < |s| ==> !PayloadChar(s[close])
    requires TermLen(s, close) == 0
    ensures forall m :: IsMatch(s, m) ==> m.start != i
  {
    forall m | IsMatch(s, m) ensures m.start != i {
      assert m.start == i ==> m.semi == semi;
      assert m.start == i ==> m.close == close;
    }
  }

  /** Two matches with the same start are the same match. */
  lemma MatchUnique(s: string, m: Span, n: Span)
    requires IsMatch(s, m) && IsMatch(s, n) && m.start == n.start
    ensures m == n
  {
    assert m.semi == n.semi;
    assert m.close == n.close;
  }

  /** The leftmost match at or after `from`, as `RegExp.exec` finds it. */
  function FindFrom(s: string, from: nat): (r: Option<Span>)
    ensures r.Some? ==> from <= r.value.start < r.value.end <= |s|
    decreases if from <= |s| then |s| - from + 1 else 0
  {
    if from > |s| then None
    else if MatchAt(s, from).Some? then MatchAt(s, from)
    else FindFrom(s, from + 1)
  }

  lemma {:induction false} FindLeftmost(s: string, from: nat)
    ensures var r := FindFrom(s, from);
      && (r.Some? ==> IsMatch(s, r.value) && forall m :: IsMatch(s, m) && from <= m.start ==> r.value.start <= m.start)
      && (r.None? ==> forall m :: IsMatch(s, m) ==> m.start < from)
    decreases if from <= |s| then |s| - from + 1 else 0
  {
    if from <= |s| && MatchAt(s, from).None? { FindLeftmost(s, from + 1); }
  }

  /** All non-overlapping matches from `from` on, leftmost first. */
  function Matches(s: string, from: nat): (r: seq<Span>)
    decreases if from <= |s| then |s| - from + 1 else 0
  {
    match FindFrom(s, from)
    case None => []
    case Some(m) => [m] + Matches(s, m.end)
  }

  function LastEnd(ms: seq<Span>, from: nat): nat {
    if ms == [] then from else ms[|ms| - 1].end
  }

  /** `ms` stands in order from `from` on, without overlap. */
  predicate InOrder(ms: seq<Span>, from: nat) {
    && (forall k :: 0 <= k < |ms| ==> from <= ms[k].start <= ms[k].end <= LastEnd(ms, from))
    && (forall j, k :: 0 <= j < k < |ms| ==> ms[j].end <= ms[k].start)
    && from <= LastEnd(ms, from)
  }

  lemma InOrderCons(m: Span, rest: seq<Span>, from: nat)
    requires from <= m.start <= m.end && InOrder(rest, m.end)
    ensures InOrder([m] + rest, from) && LastEnd([m] + rest, from) == LastEnd(rest, m.end)
  {
    var ms := [m] + rest;
    assert LastEnd(ms, from) == LastEnd(rest, m.end);
    assert forall k :: 0 < k < |ms| ==> ms[k] == rest[k - 1];
  }

  ghost predicate AllMatch(s: string, ms: seq<Span>) {
    forall k :: 0 <= k < |ms| ==> IsMatch(s, ms[k])
  }

  /** The selected matches are real matches, in order without overlap, and no match
      follows the last of them. */
  lemma {:induction false} MatchesOrdered(s: string, from: nat)
    ensures AllMatch(s, Matches(s, from))
    ensures InOrder(Matches(s, from), from)
    ensures FindFrom(s, LastEnd(Matches(s, from), from)).None?
    decreases if from <= |s| then |s| - from + 1 else 0
  {
    hide FindFrom, MatchAt, IsMatch;
    var f := FindFrom(s, from);
    FindLeftmost(s, from);
    if f.Some? {
      MatchesOrdered(s, f.value.end);
      InOrderCons(f.value, Matches(s, f.value.end), from);
    }
  }

  // ---------------------------------------------------------------- one push

  /** End of the earliest terminator at or after `from`. */
  function TerminatorEnd(s: string, from: nat): (r: Option<nat>)
    ensures r.Some? ==> exists t :: from <= t && TermLen(s, t) > 0 && r.value == t + TermLen(s, t) &&
                                    forall u :: from <= u < t ==> TermLen(s, u) == 0
    ensures r.None? ==> forall t :: from <= t ==> TermLen(s, t) == 0
    decreases if from < |s| then |s| - from else 0
  {
    if from >= |s| then None
    else if TermLen(s, from) > 0 then Some(from + TermLen(s, from))
    else TerminatorEnd(s, from + 1)
  }

  /** First position of the prefix at or after `from`. */
  function PrefixFrom(s: string, from: nat): (r: Option<nat>)
    ensures r.Some? ==> from <= r.value && HasPrefix(s, r.value) &&
                        forall j :: from <= j < r.value ==> !HasPrefix(s, j)
    ensures r.None? ==> forall j :: from <= j ==> !HasPrefix(s, j)
    decreases if from <= |s| then |s| - from + 1 else 0
  {
    if from > |s| then None
    else if HasPrefix(s, from) then Some(from)
    else PrefixFrom(s, from + 1)
  }

  /** The prefix could still begin at `j` once more characters arrive. */
  predicate PartialPrefix(s: string, j: nat) {
    j <= |s| && |s| - j < 5 && s[j..] == PREFIX[..|s| - j]
  }

  /** Start of the longest tail of `s[from..]` that is a proper prefix of PREFIX. */
  function TailFrom(s: string, from: nat): (p: nat)
    requires from <= |s|
    ensures from <= p <= |s| && PartialPrefix(s, p)
    ensures forall j :: from <= j < p ==> !PartialPrefix(s, j)
    decreases |s| - from
  {
    if PartialPrefix(s, from) then from else TailFrom(s, from + 1)
  }

  /** Where the text kept for the next frame begins. */
  function Resync(s: string, from: nat): (p: nat)
    requires from <= |s|
    ensures from <= p <= |s|
    decreases |s| - from
  {
    match PrefixFrom(s, from)
    case None => TailFrom(s, from)
    case Some(si) =>
      match TerminatorEnd(s, si + 5)
      case None => si
      case Some(te) => Resync(s, te)
  }

  function Shift(m: Span, d: nat): Span {
    Span(m.start + d, m.semi + d, m.close + d, m.end + d)
  }

  function ShiftAll(ms: seq<Span>, d: nat): (r: seq<Span>)
    ensures |r| == |ms|
    ensures forall k :: 0 <= k < |ms| ==> r[k] == Shift(ms[k], d)
  {
    if ms == [] then [] else [Shift(ms[0], d)] + ShiftAll(ms[1..], d)
  }

  /** The sniffer between frames.  `base` is the stream position of the first
      buffered character, `found` the sequences reported so far and `payloads` what
      each of them captured. */
  datatype State = State(buf: string, base: nat, found: seq<Span>, payloads: seq<string>)

  const START := State("", 0, [], [])

  /** The captured payload of a match. */
  function Payload(s: string, m: Span): string {
    if m.semi < m.close <= |s| then s[m.semi + 1..m.close] else ""
  }

  function Payloads(s: string, ms: seq<Span>): (r: seq<string>)
    ensures |r| == |ms|
    ensures forall k :: 0 <= k < |ms| ==> r[k] == Payload(s, ms[k])
  {
    if ms == [] then [] else [Payload(s, ms[0])] + Payloads(s, ms[1..])
  }

  /** Where the text kept after reporting all matches begins. */
  function KeptFrom(text: string): (p: nat)
    ensures p <= |text|
  {
    MatchesOrdered(text, 0);
    Resync(text, LastEnd(Matches(text, 0), 0))
  }

  function Pushed(st: State, chunk: string, maxBuf: nat): State {
    var text := st.buf + chunk;
    var ms := Matches(text, 0);
    var p := KeptFrom(text);
    var kept := if |text| - p > maxBuf then |text| else p;
    State(text[kept..], st.base + kept, st.found + ShiftAll(ms, st.base), st.payloads + Payloads(text, ms))
  }

  function Run(chunks: seq<string>, maxBuf: nat): State {
    if chunks == [] then START
    else Pushed(Run(chunks[..|chunks| - 1], maxBuf), chunks[|chunks| - 1], maxBuf)
  }

  function Concat(chunks: seq<string>): string {
    if chunks == [] then "" else Concat(chunks[..|chunks| - 1]) + chunks[|chunks| - 1]
  }

  /** The buffer limit was never hit before the last frame. */
  predicate Fits(chunks: seq<string>, maxBuf: nat) {
    |chunks| > 1 ==>
      && Fits(chunks[..|chunks| - 1], maxBuf)
      && Kept(chunks[..|chunks| - 1], maxBuf)
  }

  /** The last frame's remainder stayed within the limit. */
  predicate Kept(chunks: seq<string>, maxBuf: nat)
    requires chunks != []
  {
    var before := Run(chunks[..|chunks| - 1], maxBuf);
    var text := before.buf + chunks[|chunks| - 1];
    |text| - KeptFrom(text) <= maxBuf
  }

  /** No selected sequence has a terminator inside its selector. */
  ghost predicate Clean(s: string) {
    MatchesOrdered(s, 0);
    forall k :: 0 <= k < |Matches(s, 0)| ==> CleanSelector(s, Matches(s, 0)[k])
  }

  // ---------------------------------------------------------------- matches of a growing stream

  lemma TermExtends(s: string, t: string, i: nat)
    requires TermLen(s, i) > 0
    ensures TermLen(s + t, i) == TermLen(s, i)
  {
  }

  lemma PrefixExtends(s: string, t: string, i: nat)
    requires i + 5 <= |s|
    ensures HasPrefix(s + t, i) <==> HasPrefix(s, i)
  {
    assert (s + t)[i..i + 5] == s[i..i + 5];
  }

  lemma MatchExtends(s: string, t: string, m: Span)
    requires IsMatch(s, m)
    ensures IsMatch(s + t, m)
  {
    PrefixExtends(s, t, m.start);
    TermExtends(s, t, m.close);
  }

  lemma MatchRestricts(s: string, t: string, m: Span)
    requires IsMatch(s + t, m) && m.end <= |s|
    ensures IsMatch(s, m)
  {
    PrefixExtends(s, t, m.start);
    forall x | m.start + 5 <= x < m.semi ensures s[x] != ';' { assert (s + t)[x] == s[x]; }
    forall x | m.semi < x < m.close ensures PayloadChar(s[x]) { assert (s + t)[x] == s[x]; }
  }

  lemma PrefixChars(s: string, i: nat)
    requires HasPrefix(s, i)
    ensures s[i] == ESC && s[i + 1] == ']' && s[i + 2] == '5' && s[i + 3] == '2' && s[i + 4] == ';'
  {
    var w := s[i..i + 5];
    assert w[0] == s[i] && w[1] == s[i + 1] && w[2] == s[i + 2] && w[3] == s[i + 3] && w[4] == s[i + 4];
  }

  /** A match that starts before a complete one cannot reach past its end. */
  lemma EarlierEndsFirst(s: string, n: Span, m: Span)
    requires IsMatch(s, n) && IsMatch(s, m) && n.start < m.start
    ensures n.end <= m.end
  {
    PrefixChars(s, m.start);
    assert n.semi <= m.start + 4;
    if n.semi == m.start + 4 {
      assert n.close <= m.semi;
    } else {
      assert n.semi < m.start;
      assert n.close <= m.start;
    }
  }

  lemma FindStable(s: string, t: string, from: nat)
    requires FindFrom(s, from).Some?
    ensures FindFrom(s + t, from) == FindFrom(s, from)
  {
    FindLeftmost(s, from);
    FindLeftmost(s + t, from);
    var m := FindFrom(s, from).value;
    MatchExtends(s, t, m);
    var n := FindFrom(s + t, from).value;
    if n.start < m.start {
      EarlierEndsFirst(s + t, n, m);
      MatchRestricts(s, t, n);
    }
    MatchUnique(s + t, n, m);
  }

  /** What has been selected stays selected when the stream grows. */
  lemma {:induction false} MatchesPrefix(s: string, z: string, from: nat, ms: seq<Span>)
    requires s <= z && ms == Matches(s, from)
    ensures Matches(z, from) == ms + Matches(z, LastEnd(ms, from))
    decreases |ms|
  {
    var f := FindFrom(s, from);
    if f.Some? {
      var m := f.value;
      assert z == s + z[|s|..];
      FindStable(s, z[|s|..], from);
      MatchesCons(s, from, m);
      MatchesCons(z, from, m);
      var rest := Matches(s, m.end);
      MatchesPrefix(s, z, m.end, rest);
      LastEndCons(m, rest, from);
      ConsAssoc(m, rest, Matches(z, LastEnd(rest, m.end)));
    }
  }

  lemma ConsAssoc(m: Span, rest: seq<Span>, more: seq<Span>)
    ensures [m] + (rest + more) == ([m] + rest) + more
  {
  }

  lemma LastEndCons(m: Span, rest: seq<Span>, from: nat)
    ensures LastEnd([m] + rest, from) == LastEnd(rest, m.end)
  {
  }

  lemma MatchesCons(s: string, from: nat, m: Span)
    requires FindFrom(s, from) == Some(m)
    ensures Matches(s, from) == [m] + Matches(s, m.end)
  {
  }

  lemma MatchShift(s: string, d: nat, m: Span)
    requires d <= |s|
    ensures IsMatch(s[d..], m) <==> IsMatch(s, Shift(m, d))
  {
    var u := s[d..];
    var n := Shift(m, d);
    if m.start + 5 <= |u| { assert u[m.start..m.start + 5] == s[n.start..n.start + 5]; }
    if IsMatch(u, m) {
      forall x | n.start + 5 <= x < n.semi ensures s[x] != ';' { assert s[x] == u[x - d]; }
      forall x | n.semi < x < n.close ensures PayloadChar(s[x]) { assert s[x] == u[x - d]; }
    }
    if IsMatch(s, n) {
      forall x | m.start + 5 <= x < m.semi ensures u[x] != ';' { assert u[x] == s[x + d]; }
      forall x | m.semi < x < m.close ensures PayloadChar(u[x]) { assert u[x] == s[x + d]; }
    }
  }

  function Unshift(m: Span, d: nat): Span
    requires d <= m.start <= m.semi && m.start <= m.close && m.start <= m.end
  {
    Span(m.start - d, m.semi - d, m.close - d, m.end - d)
  }

  lemma FindShift(s: string, d: nat, i: nat)
    requires d <= |s|
    ensures FindFrom(s[d..], i).Some? <==> FindFrom(s, d + i).Some?
    ensures FindFrom(s, d + i).Some? ==> FindFrom(s, d + i).value == Shift(FindFrom(s[d..], i).value, d)
  {
    hide FindFrom, MatchAt, HasPrefix, TermLen;
    FindLeftmost(s[d..], i);
    FindLeftmost(s, d + i);
    var a, b := FindFrom(s[d..], i), FindFrom(s, d + i);
    if a.Some? { MatchShift(s, d, a.value); }
    if b.Some? {
      var n := Unshift(b.value, d);
      assert Shift(n, d) == b.value;
      MatchShift(s, d, n);
      assert IsMatch(s[d..], n);
      MatchUnique(s, b.value, Shift(a.value, d));
    }
  }

  /** Matching a stored tail of the stream is matching the stream from that point. */
  lemma {:induction false} MatchesShift(s: string, d: nat, i: nat)
    requires d <= |s|
    ensures ShiftAll(Matches(s[d..], i), d) == Matches(s, d + i)
    decreases if i <= |s| then |s| - i + 1 else 0
  {
    hide FindFrom, MatchAt;
    FindShift(s, d, i);
    var a := FindFrom(s[d..], i);
    if a.Some? {
      MatchesShift(s, d, a.value.end);
      assert Matches(s[d..], i)[1..] == Matches(s[d..], a.value.end);
    }
  }

  // ---------------------------------------------------------------- the discarded text

  predicate Differs(s: string, j: nat, x: nat) {
    x < 5 && j + x < |s| && s[j + x] != PREFIX[x]
  }

  /** No clean match of any longer stream can start at `j` and end beyond `s`. */
  ghost predicate Dead(s: string, j: nat) {
    || (exists x: nat :: Differs(s, j, x))
    || (exists t: nat :: j + 5 <= t && TermLen(s, t) > 0)
  }

  ghost predicate DeadZone(s: string, lo: nat, hi: nat) {
    forall j :: lo <= j < hi ==> Dead(s, j)
  }

  lemma NotPrefixDiffers(s: string, j: nat)
    requires j < |s| && !HasPrefix(s, j) && !PartialPrefix(s, j)
    ensures exists x: nat :: Differs(s, j, x)
  {
    var n := if j + 5 <= |s| then 5 else |s| - j;
    var w := s[j..j + n];
    assert s[j..] == w || n == 5;
    var k: nat :| k < n && w[k] != PREFIX[..n][k];
    assert Differs(s, j, k);
  }

  lemma DeadExtends(s: string, t: string, j: nat)
    requires Dead(s, j)
    ensures Dead(s + t, j)
  {
    if x: nat :| Differs(s, j, x) {
      assert Differs(s + t, j, x);
    } else {
      var u: nat :| j + 5 <= u && TermLen(s, u) > 0;
      TermExtends(s, t, u);
    }
  }

  lemma DeadShift(s: string, d: nat, j: nat)
    requires d <= |s| && Dead(s[d..], j)
    ensures Dead(s, d + j)
  {
    if x: nat :| Differs(s[d..], j, x) {
      assert Differs(s, d + j, x);
    } else {
      var u: nat :| j + 5 <= u && TermLen(s[d..], u) > 0;
      assert TermLen(s, d + u) > 0;
    }
  }

  /** A position before a terminator is dead: the prefix contains neither. */
  lemma DeadBeforeTerminator(s: string, j: nat, t: nat)
    requires TermLen(s, t) > 0 && j < t + TermLen(s, t)
    ensures Dead(s, j)
  {
    if t < j + 5 {
      var x: nat := if t < j then 0 else t - j;
      if s[t] == BEL {
        assert Differs(s, j, x);
      } else if t < j {
        assert Differs(s, j, 0);
      } else if x == 0 {
        assert Differs(s, j, 1);
      } else {
        assert Differs(s, j, x);
      }
    }
  }

  /** Everything the resynchronisation drops is dead. */
  lemma {:induction false} ResyncDead(s: string, from: nat)
    requires from <= |s|
    ensures DeadZone(s, from, Resync(s, from))
    decreases |s| - from
  {
    match PrefixFrom(s, from)
    case None =>
      forall j | from <= j < TailFrom(s, from) ensures Dead(s, j) { NotPrefixDiffers(s, j); }
    case Some(si) =>
      forall j | from <= j < si ensures Dead(s, j) { NotPrefixDiffers(s, j); }
      var e := TerminatorEnd(s, si + 5);
      if e.Some? {
        var t: nat :| si + 5 <= t && TermLen(s, t) > 0 && e.value == t + TermLen(s, t);
        forall j | si <= j < e.value ensures Dead(s, j) { DeadBeforeTerminator(s, j, t); }
        ResyncDead(s, e.value);
      }
  }

  /** A clean match of the grown stream that was not complete before does not start
      in dead text. */
  lemma DeadHidesNothing(s: string, t: string, m: Span)
    requires IsMatch(s + t, m) && CleanSelector(s + t, m) && Dead(s, m.start)
    ensures m.end <= |s|
  {
    var z := s + t;
    PrefixChars(z, m.start);
    assert !exists x: nat :: Differs(s, m.start, x);
    var u: nat :| m.start + 5 <= u && TermLen(s, u) > 0;
    TermExtends(s, t, u);
    assert u < m.semi ==> TermLen(z[..m.semi], u) == 0;
    assert u >= m.close;
  }

  // ---------------------------------------------------------------- fragmentation

  /** What the sniffer holds after the stream `s`. */
  ghost predicate Tracks(st: State, s: string) {
    && st.base <= |s| && st.buf == s[st.base..]
    && st.found == Matches(s, 0)
    && st.payloads == Payloads(s, st.found)
    && LastEnd(st.found, 0) <= st.base
    && DeadZone(s, LastEnd(st.found, 0), st.base)
  }

  lemma FindSkip(z: string, lo: nat, hi: nat)
    requires lo <= hi
    requires FindFrom(z, lo).Some? ==> hi <= FindFrom(z, lo).value.start
    ensures FindFrom(z, hi) == FindFrom(z, lo)
  {
    FindLeftmost(z, lo);
    FindLeftmost(z, hi);
    var a, b := FindFrom(z, lo), FindFrom(z, hi);
    if a.Some? && b.Some? { MatchUnique(z, a.value, b.value); }
  }

  lemma MatchesHead(z: string, from: nat)
    requires FindFrom(z, from).Some?
    ensures Matches(z, from) != [] && Matches(z, from)[0] == FindFrom(z, from).value
  {
  }

  /** In a clean stream the next selected match starts after all discarded text. */
  lemma NextIsKept(st: State, s: string, z: string)
    requires Tracks(st, s) && s <= z && Clean(z)
    ensures Matches(z, 0) == st.found + Matches(z, st.base)
  {
    hide MatchAt, CleanSelector, TermLen, HasPrefix;
    var lo := LastEnd(st.found, 0);
    MatchesPrefix(s, z, 0, st.found);
    var f := FindFrom(z, lo);
    if f.Some? && f.value.start < st.base {
      MatchesHead(z, lo);
      var k := |st.found|;
      assert Matches(z, 0)[k] == f.value;
      MatchesOrdered(z, 0);
      FindLeftmost(z, lo);
      assert CleanSelector(z, f.value);
      assert z == s + z[|s|..];
      DeadHidesNothing(s, z[|s|..], f.value);
      MatchRestricts(s, z[|s|..], f.value);
      MatchesOrdered(s, 0);
      FindLeftmost(s, lo);
    }
    FindSkip(z, lo, st.base);
  }

  lemma PushFinds(st: State, s: string, chunk: string, maxBuf: nat)
    requires Tracks(st, s) && Clean(s + chunk)
    ensures Pushed(st, chunk, maxBuf).found == Matches(s + chunk, 0)
  {
    hide Matches, FindFrom, MatchAt, Resync;
    var z := s + chunk;
    assert st.buf + chunk == z[st.base..];
    NextIsKept(st, s, z);
    MatchesShift(z, st.base, 0);
  }

  lemma PayloadKept(s: string, t: string, m: Span)
    requires IsMatch(s, m)
    ensures Payload(s, m) == Payload(s + t, m)
  {
    hide HasPrefix, TermLen;
    assert (s + t)[m.semi + 1..m.close] == s[m.semi + 1..m.close];
  }

  lemma PayloadShifts(z: string, base: nat, m: Span)
    requires base <= |z| && IsMatch(z[base..], m)
    ensures Payload(z[base..], m) == Payload(z, Shift(m, base))
  {
    hide HasPrefix, TermLen;
    assert z[base..][m.semi + 1..m.close] == z[m.semi + 1 + base..m.close + base];
  }

  lemma PayloadsOf(s: string, t: string, base: nat, ms: seq<Span>, found: seq<Span>)
    requires base <= |s + t| && AllMatch((s + t)[base..], ms) && AllMatch(s, found)
    ensures Payloads(s, found) + Payloads((s + t)[base..], ms) == Payloads(s + t, found + ShiftAll(ms, base))
  {
    hide Payload, Payloads, IsMatch, Shift, ShiftAll;
    var z := s + t;
    forall k | 0 <= k < |found| ensures Payload(s, found[k]) == Payload(z, found[k]) { PayloadKept(s, t, found[k]); }
    forall k | 0 <= k < |ms| ensures Payload(z[base..], ms[k]) == Payload(z, Shift(ms[k], base)) { PayloadShifts(z, base, ms[k]); }
  }

  /** Each push adds exactly the payloads of the sequences it adds. */
  lemma PushPayloads(st: State, s: string, chunk: string, maxBuf: nat)
    requires Tracks(st, s)
    ensures var st' := Pushed(st, chunk, maxBuf); st'.payloads == Payloads(s + chunk, st'.found)
  {
    hide Matches, Resync;
    var text := st.buf + chunk;
    assert text == (s + chunk)[st.base..];
    MatchesOrdered(text, 0);
    MatchesOrdered(s, 0);
    PayloadsOf(s, chunk, st.base, Matches(text, 0), st.found);
  }

  lemma ZoneExtends(s: string, t: string, lo: nat, hi: nat)
    requires DeadZone(s, lo, hi)
    ensures DeadZone(s + t, lo, hi)
  {
    hide TermLen;
    forall j | lo <= j < hi ensures Dead(s + t, j) { DeadExtends(s, t, j); }
  }

  lemma ZoneShift(s: string, d: nat, lo: nat, hi: nat)
    requires d <= |s| && DeadZone(s[d..], lo, hi)
    ensures DeadZone(s, d + lo, d + hi)
  {
    forall j | d + lo <= j < d + hi ensures Dead(s, j) { DeadShift(s, d, j - d); }
  }

  lemma LastEndShift(found: seq<Span>, ms: seq<Span>, d: nat)
    ensures LastEnd(found + ShiftAll(ms, d), 0) == if ms == [] then LastEnd(found, 0) else d + LastEnd(ms, 0)
  {
    var all := found + ShiftAll(ms, d);
    if ms == [] { assert all == found; } else { assert all[|all| - 1] == Shift(ms[|ms| - 1], d); }
  }

  /** Everything between the last reported sequence and the kept text is dead. */
  lemma DroppedIsDead(text: string)
    ensures LastEnd(Matches(text, 0), 0) <= KeptFrom(text)
    ensures DeadZone(text, LastEnd(Matches(text, 0), 0), KeptFrom(text))
  {
    hide Matches, Resync, Dead;
    MatchesOrdered(text, 0);
    ResyncDead(text, LastEnd(Matches(text, 0), 0));
  }

  lemma PushTracks(st: State, s: string, chunk: string, maxBuf: nat)
    requires Tracks(st, s) && Clean(s + chunk)
    requires |st.buf + chunk| - KeptFrom(st.buf + chunk) <= maxBuf
    ensures Tracks(Pushed(st, chunk, maxBuf), s + chunk)
  {
    hide Matches, KeptFrom, Dead, Clean, Payloads, LastEnd, ShiftAll;
    PushFinds(st, s, chunk, maxBuf);
    PushPayloads(st, s, chunk, maxBuf);
    var z := s + chunk;
    var text := st.buf + chunk;
    assert text == z[st.base..];
    DroppedIsDead(text);
    ZoneShift(z, st.base, LastEnd(Matches(text, 0), 0), KeptFrom(text));
    ZoneExtends(s, chunk, LastEnd(st.found, 0), st.base);
    LastEndShift(st.found, Matches(text, 0), st.base);
    LastEndNone();
    assert text[KeptFrom(text)..] == z[st.base + KeptFrom(text)..];
  }

  lemma LastEndNone()
    ensures LastEnd([], 0) == 0
  {
  }

  lemma CleanPrefix(s: string, z: string)
    requires s <= z && Clean(z)
    ensures Clean(s)
  {
    hide Matches, FindFrom, MatchAt;
    var ms := Matches(s, 0);
    MatchesOrdered(s, 0);
    MatchesOrdered(z, 0);
    MatchesPrefix(s, z, 0, ms);
    forall k | 0 <= k < |ms| ensures CleanSelector(s, ms[k]) {
      assert ms[k] == Matches(z, 0)[k];
      assert IsMatch(s, ms[k]);
      assert s[..ms[k].semi] == z[..ms[k].semi];
    }
  }

  lemma {:induction false} RunTracks(chunks: seq<string>, maxBuf: nat)
    requires Fits(chunks, maxBuf) && Clean(Concat(chunks))
    ensures Run(chunks, maxBuf).found == Matches(Concat(chunks), 0)
    ensures Run(chunks, maxBuf).payloads == Payloads(Concat(chunks), Run(chunks, maxBuf).found)
    ensures chunks == [] || Kept(chunks, maxBuf) ==> Tracks(Run(chunks, maxBuf), Concat(chunks))
  {
    if chunks == [] {
      assert FindFrom("", 1).None?;
    } else {
      var before := chunks[..|chunks| - 1];
      CleanPrefix(Concat(before), Concat(chunks));
      RunTracks(before, maxBuf);
      PushFinds(Run(before, maxBuf), Concat(before), chunks[|chunks| - 1], maxBuf);
      PushPayloads(Run(before, maxBuf), Concat(before), chunks[|chunks| - 1], maxBuf);
      if Kept(chunks, maxBuf) {
        PushTracks(Run(before, maxBuf), Concat(before), chunks[|chunks| - 1], maxBuf);
      }
    }
  }

  /** One push of the whole stream reports exactly the matches of the pattern. */
  lemma OnePush(s: string, maxBuf: nat)
    ensures Concat([s]) == s && Fits([s], maxBuf)
    ensures Run([s], maxBuf).found == Matches(s, 0)
    ensures Run([s], maxBuf).payloads == Payloads(s, Matches(s, 0))
  {
    assert [s][..0] == [];
    var ms := Matches(s, 0);
    assert "" + s == s;
    assert ShiftAll(ms, 0) == ms;
  }

  /** However the stream is cut, the same payloads are reported as in one push. */
  ghost predicate FragmentationInvariant(s: string, maxBuf: nat) {
    forall chunks :: Concat(chunks) == s && Fits(chunks, maxBuf) ==>
      Run(chunks, maxBuf).payloads == Run([s], maxBuf).payloads
  }

  // ---------------------------------------------------------------- the failing cut

  lemma TerminatorNotPartial(s: string, t: nat, p: nat)
    requires TermLen(s, t) > 0 && t + TermLen(s, t) == |s| && p < |s|
    ensures !PartialPrefix(s, p)
  {
    var n := |s| - 1 - p;
    assert s[|s| - 1] == BEL || s[|s| - 1] == '\\';
    assert s[p..][n] == s[|s| - 1];
    assert n < 4 ==> PREFIX[..n + 1][n] == PREFIX[n];
  }

  lemma {:induction false} ResyncAtTerminator(s: string, from: nat, t: nat)
    requires from <= t && TermLen(s, t) > 0 && t + TermLen(s, t) == |s|
    ensures Resync(s, from) == |s|
    decreases |s| - from
  {
    hide TailFrom, PrefixFrom, TerminatorEnd, PartialPrefix, Resync;
    ResyncStep(s, from);
    var f := PrefixFrom(s, from);
    if f.None? {
      var p := TailFrom(s, from);
      if p < |s| { TerminatorNotPartial(s, t, p); }
    } else {
      PrefixChars(s, f.value);
      var e := TerminatorEnd(s, f.value + 5);
      var u: nat :| f.value + 5 <= u && TermLen(s, u) > 0 && e.value == u + TermLen(s, u) &&
                    forall v :: f.value + 5 <= v < u ==> TermLen(s, v) == 0;
      assert u <= t;
      if u < t { ResyncAtTerminator(s, e.value, t); } else { ResyncAtEnd(s); }
    }
  }

  lemma ResyncAtEnd(s: string)
    ensures Resync(s, |s|) == |s|
  {
  }

  lemma RunOne(a: string, maxBuf: nat)
    ensures Run([a], maxBuf) == Pushed(START, a, maxBuf)
    ensures Concat([a]) == a && Fits([a], maxBuf)
    ensures Kept([a], maxBuf) <==> |a| - KeptFrom(a) <= maxBuf
  {
    hide Pushed, KeptFrom;
    assert [a][..0] == [];
    assert "" + a == a;
  }

  lemma RunTwo(a: string, b: string, maxBuf: nat)
    ensures Run([a, b], maxBuf) == Pushed(Pushed(START, a, maxBuf), b, maxBuf)
    ensures Concat([a, b]) == a + b
    ensures Fits([a, b], maxBuf) <==> |a| - KeptFrom(a) <= maxBuf
  {
    hide Pushed, KeptFrom;
    RunOne(a, maxBuf);
    assert [a, b][..1] == [a];
  }

  /** The matches complete in `head` all precede one that ends beyond it. */
  lemma BeforeUnfinished(ms: seq<Span>, all: seq<Span>, head: string, k: nat)
    requires ms <= all && k < |all| && InOrder(all, 0) && AllMatch(head, ms) && |head| < all[k].end
    ensures LastEnd(ms, 0) <= all[k].start
  {
    assert forall j :: 0 <= j < |ms| ==> ms[j] == all[j];
    assert forall j :: 0 <= j < |ms| ==> IsMatch(head, ms[j]) && ms[j].end <= |head|;
    assert |ms| <= k;
  }

  lemma CleanIsInvariant(s: string, maxBuf: nat)
    requires Clean(s)
    ensures FragmentationInvariant(s, maxBuf)
  {
    hide Matches, Run, Fits, Clean;
    OnePush(s, maxBuf);
    forall chunks | Concat(chunks) == s && Fits(chunks, maxBuf)
      ensures Run(chunks, maxBuf).payloads == Run([s], maxBuf).payloads
    {
      RunTracks(chunks, maxBuf);
    }
  }

  /** On clean streams every cut yields the same captured payloads in the same order. */
  lemma SamePayloads(chunks: seq<string>, maxBuf: nat)
    requires Fits(chunks, maxBuf) && Clean(Concat(chunks))
    ensures Run(chunks, maxBuf).payloads == Run([Concat(chunks)], maxBuf).payloads
  {
    hide Matches, Run, Fits, Clean;
    RunTracks(chunks, maxBuf);
    OnePush(Concat(chunks), maxBuf);
  }

  /** Pushing a frame that ends with a terminator into an empty buffer leaves it empty and
      adds one payload for each match in the frame. */
  lemma PushEmpties(st: State, a: string, t: nat, maxBuf: nat)
    requires st.buf == "" && TermLen(a, t) > 0 && t + TermLen(a, t) == |a| && LastEnd(Matches(a, 0), 0) <= t
    ensures |a| == KeptFrom(a) && st.buf + a == a
    ensures Pushed(st, a, maxBuf).buf == "" && |Pushed(st, a, maxBuf).payloads| == |st.payloads| + |Matches(a, 0)|
  {
    hide Matches, Resync, LastEnd, TermLen;
    MatchesOrdered(a, 0);
    ResyncAtTerminator(a, LastEnd(Matches(a, 0), 0), t);
    assert st.buf + a == a;
  }

  /** The matches after the k-th one are those found from its end on. */
  lemma {:induction false} MatchesAfter(s: string, from: nat, k: nat)
    requires k < |Matches(s, from)|
    ensures Matches(s, Matches(s, from)[k].end) == Matches(s, from)[k + 1..]
    decreases k
  {
    hide FindFrom;
    var m := FindFrom(s, from).value;
    var rest := Matches(s, m.end);
    assert Matches(s, from) == [m] + rest;
    if k > 0 {
      MatchesAfter(s, m.end, k - 1);
      assert Matches(s, from)[k + 1..] == rest[k..];
    }
  }

  /** The rest of a sequence after a cut in its selector holds one `;`, and a sequence needs
      two. */
  lemma RestHasNoMatch(s: string, m: Span, c: nat)
    requires IsMatch(s, m) && m.start + 5 <= c <= m.semi
    ensures Matches(s[c..m.end], 0) == []
  {
    hide HasPrefix, Matches, FindFrom, MatchAt;
    var b := s[c..m.end];
    forall x: nat | x < |b| && b[x] == ';' ensures x == m.semi - c {
      assert s[c + x] == ';';
      assert TermLen(s, m.close) > 0;
    }
    forall n | IsMatch(b, n) ensures false { TwoSemicolons(b, n); }
    FindLeftmost(b, 0);
    NoMatches(b, 0);
  }

  lemma TwoSemicolons(s: string, n: Span)
    requires IsMatch(s, n)
    ensures n.start + 4 < n.semi < |s| && s[n.start + 4] == ';' && s[n.semi] == ';'
  {
    assert s[n.start..n.start + 5][4] == PREFIX[4];
  }

  lemma TermInside(s: string, c: nat, e: nat, t: nat)
    requires c <= t < e <= |s| && TermLen(s, t) == e - t
    ensures TermLen(s[c..e], t - c) == e - t
  {
  }

  lemma TermWithin(s: string, n: nat, t: nat)
    requires n <= |s| && TermLen(s[..n], t) > 0
    ensures TermLen(s, t) == TermLen(s[..n], t) && t + TermLen(s, t) <= n
    ensures TermLen(s[..t + TermLen(s, t)], t) == TermLen(s, t)
  {
  }

  lemma ThreeFrames(a: string, b: string, c: string, maxBuf: nat)
    ensures Run([a, b, c], maxBuf) == Pushed(Pushed(Pushed(START, a, maxBuf), b, maxBuf), c, maxBuf)
    ensures Concat([a, b, c]) == a + b + c
    ensures Fits([a, b, c], maxBuf) <==>
              && |a| - KeptFrom(a) <= maxBuf
              && (var text := Pushed(START, a, maxBuf).buf + b; |text| - KeptFrom(text) <= maxBuf)
  {
    hide Pushed, KeptFrom;
    RunOne(a, maxBuf);
    RunTwo(a, b, maxBuf);
    assert [a, b, c][..2] == [a, b];
    assert [a, b][..1] == [a];
  }

  /** The frames of the failing stream: up to the terminator, the rest of the sequence,
      everything after it. */
  function LosingCut(s: string, m: Span, t: nat): seq<string>
    requires t + TermLen(s, t) <= m.end <= |s|
  {
    var c := t + TermLen(s, t);
    [s[..c], s[c..m.end], s[m.end..]]
  }

  /** Cut that way, the stream yields fewer payloads than in one push, and the buffer is
      empty at both cuts, whatever its limit. */
  lemma CutLosesPayload(s: string, k: nat, t: nat, maxBuf: nat)
    requires k < |Matches(s, 0)|
    requires var m := Matches(s, 0)[k]; m.start + 5 <= t && m.semi <= m.end <= |s| && TermLen(s[..m.semi], t) > 0
    ensures t + TermLen(s, t) <= Matches(s, 0)[k].end
    ensures var chunks := LosingCut(s, Matches(s, 0)[k], t);
            && Concat(chunks) == s && Fits(chunks, maxBuf)
            && |Run(chunks, maxBuf).payloads| < |Run([s], maxBuf).payloads|
  {
    hide Matches, FindFrom, MatchAt, Run, Fits, KeptFrom, LastEnd, InOrder, HasPrefix, TermLen, Pushed, Concat, Payloads, IsMatch;
    var all := Matches(s, 0);
    var m := all[k];
    MatchesOrdered(s, 0);
    assert IsMatch(s, m);
    TermWithin(s, m.semi, t);
    var c := t + TermLen(s, t);
    var a, b, rest := s[..c], s[c..m.end], s[m.end..];
    FirstFrame(s, k, t, maxBuf);
    var st := Pushed(START, a, maxBuf);
    MiddleFrame(s, m, c, st, maxBuf);
    LastFrame(s, k, Pushed(st, b, maxBuf), maxBuf);
    ThreeFrames(a, b, rest, maxBuf);
    assert a + b + rest == s;
    OnePush(s, maxBuf);
    PayloadsCount(s, all);
  }

  lemma PayloadsCount(s: string, ms: seq<Span>)
    ensures |Payloads(s, ms)| == |ms|
  {
  }

  lemma FirstFrame(s: string, k: nat, t: nat, maxBuf: nat)
    requires k < |Matches(s, 0)|
    requires var m := Matches(s, 0)[k]; m.start + 5 <= t && m.semi <= m.end <= |s| && TermLen(s[..m.semi], t) > 0
    ensures t + TermLen(s, t) <= |s|
    ensures var a := s[..t + TermLen(s, t)];
            |a| == KeptFrom(a) && Pushed(START, a, maxBuf).buf == "" && |Pushed(START, a, maxBuf).payloads| <= k
  {
    hide Matches, KeptFrom, LastEnd, InOrder, HasPrefix, TermLen, Pushed, IsMatch;
    var all := Matches(s, 0);
    TermWithin(s, all[k].semi, t);
    var a := s[..t + TermLen(s, t)];
    var ms := Matches(a, 0);
    MatchesOrdered(s, 0);
    MatchesOrdered(a, 0);
    assert IsMatch(s, all[k]);
    SemiBeforeEnd(s, all[k]);
    MatchesPrefix(a, s, 0, ms);
    BeforeUnfinished(ms, all, a, k);
    FewBefore(ms, all, a, k);
    PushEmpties(START, a, t, maxBuf);
  }

  lemma SemiBeforeEnd(s: string, m: Span)
    requires IsMatch(s, m)
    ensures m.semi < m.end
  {
  }

  lemma MiddleFrame(s: string, m: Span, c: nat, st: State, maxBuf: nat)
    requires IsMatch(s, m) && m.start + 5 <= c <= m.semi && st.buf == ""
    ensures var b := s[c..m.end];
            && st.buf + b == b && |b| == KeptFrom(b)
            && Pushed(st, b, maxBuf).buf == "" && |Pushed(st, b, maxBuf).payloads| == |st.payloads|
  {
    hide Matches, KeptFrom, Pushed, HasPrefix, TermLen;
    RestHasNoMatch(s, m, c);
    TermInside(s, c, m.end, m.close);
    LastEndNone();
    PushEmpties(st, s[c..m.end], m.close - c, maxBuf);
  }

  lemma LastFrame(s: string, k: nat, st: State, maxBuf: nat)
    requires k < |Matches(s, 0)| && Matches(s, 0)[k].end <= |s| && st.buf == ""
    ensures |Pushed(st, s[Matches(s, 0)[k].end..], maxBuf).payloads| == |st.payloads| + |Matches(s, 0)| - (k + 1)
  {
    hide Matches, Pushed;
    var e := Matches(s, 0)[k].end;
    MatchesAfter(s, 0, k);
    MatchesShift(s, e, 0);
    PayloadCount(st, s[e..], maxBuf);
  }

  lemma PayloadCount(st: State, chunk: string, maxBuf: nat)
    requires st.buf == ""
    ensures |Pushed(st, chunk, maxBuf).payloads| == |st.payloads| + |Matches(chunk, 0)|
  {
    hide Matches, KeptFrom;
    assert st.buf + chunk == chunk;
  }

  lemma FewBefore(ms: seq<Span>, all: seq<Span>, head: string, k: nat)
    requires ms <= all && k < |all| && AllMatch(head, ms) && |head| < all[k].end
    ensures |ms| <= k
  {
    assert forall j :: 0 <= j < |ms| ==> IsMatch(head, ms[j]) && ms[j] == all[j] && ms[j].end <= |head|;
  }

  lemma UncleanIsNot(s: string, k: nat, maxBuf: nat)
    requires k < |Matches(s, 0)| && IsMatch(s, Matches(s, 0)[k]) && !CleanSelector(s, Matches(s, 0)[k])
    ensures !FragmentationInvariant(s, maxBuf)
  {
    hide Matches, Run, Fits, HasPrefix, TermLen, Concat, Payloads, LosingCut;
    var m := Matches(s, 0)[k];
    var t: nat :| m.start + 5 <= t < m.semi && TermLen(s[..m.semi], t) != 0;
    CutLosesPayload(s, k, t, maxBuf);
    var chunks := LosingCut(s, m, t);
    assert Run(chunks, maxBuf).payloads != Run([s], maxBuf).payloads;
  }

  /** Every cut yields the payloads of one push exactly on the streams in which no selected
      sequence carries a terminator in its selector. */
  lemma FragmentationInvariantIffClean(s: string, maxBuf: nat)
    ensures FragmentationInvariant(s, maxBuf) <==> Clean(s)
  {
    hide Matches, FragmentationInvariant, CleanSelector;
    MatchesOrdered(s, 0);
    if Clean(s) {
      CleanIsInvariant(s, maxBuf);
    } else {
      var k: nat :| k < |Matches(s, 0)| && !CleanSelector(s, Matches(s, 0)[k]);
      UncleanIsNot(s, k, maxBuf);
    }
  }

  // ---------------------------------------------------------------- the sniffer itself

  /** What `onCopy` receives for the captured payloads: decodable and not empty. */
  function Copies(atob: string -> Option<string>, payloads: seq<string>): seq<string> {
    if payloads == [] then []
    else
      var d := atob(payloads[|payloads| - 1]);
      Copies(atob, payloads[..|payloads| - 1]) + (if d.Some? && d.value != "" then [d.value] else [])
  }

  class Sniffer {
    const maxBuf: nat
    const atob: string -> Option<string>
    var buf: string
    var copied: seq<string>
    ghost var st: State

    ghost predicate Valid()
      reads this
    {
      st.buf == buf && copied == Copies(atob, st.payloads)
    }

    constructor (maxBuf: nat, atob: string -> Option<string>)
      ensures Valid() && st == START && this.maxBuf == maxBuf && this.atob == atob
    {
      this.maxBuf := maxBuf;
      this.atob := atob;
      buf, copied, st := "", [], START;
    }

    method TerminatorAfter(s: string, from: nat) returns (r: Option<nat>)
      ensures r == TerminatorEnd(s, from)
    {
      var i := from;
      while i < |s|
        invariant from <= i && TerminatorEnd(s, from) == TerminatorEnd(s, i)
      {
        if s[i] == BEL { return Some(i + 1); }
        if s[i] == ESC && i + 1 < |s| && s[i + 1] == '\\' { return Some(i + 2); }
        i := i + 1;
      }
      return None;
    }

    /** The longest tail of `s` that is a proper prefix of PREFIX. */
    method PrefixTail(s: string, from: nat) returns (tail: string)
      requires from <= |s|
      ensures tail == s[TailFrom(s, from)..]
    {
      var max := if |PREFIX| - 1 < |s| - from then |PREFIX| - 1 else |s| - from;
      var len := max;
      while len > 0
        invariant 0 <= len <= max
        invariant forall j :: from <= j < |s| - len ==> !PartialPrefix(s, j)
      {
        if s[|s| - len..] == PREFIX[..len] {
          assert PartialPrefix(s, |s| - len);
          return s[|s| - len..];
        }
        len := len - 1;
      }
      return "";
    }

    /** The matching loop: every complete sequence is decoded and handed to `onCopy`. */
    method ReportMatches(text: string, ghost before: seq<string>) returns (lastEnd: nat)
      requires copied == Copies(atob, before)
      modifies this`copied
      ensures lastEnd == LastEnd(Matches(text, 0), 0) && lastEnd <= |text|
      ensures copied == Copies(atob, before + Payloads(text, Matches(text, 0)))
    {
      hide FindFrom, MatchAt, IsMatch, Copies, Payloads, Payload, Matches;
      ghost var ms: seq<Span> := [];
      lastEnd := 0;
      var m := FindFrom(text, 0);
      NoPayloads(before, text);
      while m.Some?
        invariant m == FindFrom(text, lastEnd) && lastEnd == LastEnd(ms, 0) && lastEnd <= |text|
        invariant Matches(text, 0) == ms + Matches(text, lastEnd)
        invariant copied == Copies(atob, before + Payloads(text, ms))
        decreases |text| - lastEnd
      {
        FindLeftmost(text, lastEnd);
        MatchBounds(text, m.value);
        var data := atob(text[m.value.semi + 1..m.value.close]);
        CopiesStep(atob, before, text, ms, m.value);
        if data.Some? && data.value != "" { copied := copied + [data.value]; }
        MatchesStep(text, lastEnd, ms, m.value);
        PayloadIs(text, m.value);
        ms := ms + [m.value];
        lastEnd := m.value.end;
        m := FindFrom(text, lastEnd);
      }
      NoMatches(text, lastEnd);
      assert ms + [] == ms;
    }

    /** The resynchronisation loop: the text that has to wait for the next frame. */
    method Resynchronise(text: string, lastEnd: nat) returns (kept: string)
      requires lastEnd <= |text|
      ensures kept == text[Resync(text, lastEnd)..]
    {
      hide Resync, TailFrom, PrefixFrom, TerminatorEnd, HasPrefix;
      var rest := lastEnd;
      while true
        invariant rest <= |text| && Resync(text, rest) == Resync(text, lastEnd)
        decreases |text| - rest
      {
        ResyncStep(text, rest);
        var si := PrefixFrom(text, rest);
        if si.None? {
          kept := PrefixTail(text, rest);
          return;
        }
        var te := TerminatorAfter(text, si.value + 5);
        if te.None? { return text[si.value..]; }
        rest := te.value;
      }
    }

    method Push(chunk: string)
      requires Valid()
      modifies this
      ensures Valid() && st == Pushed(old(st), chunk, maxBuf)
    {
      hide Matches, Resync, Copies;
      var text := buf + chunk;
      var lastEnd := ReportMatches(text, st.payloads);
      buf := Resynchronise(text, lastEnd);
      if |buf| > maxBuf { buf := ""; }
      st := Pushed(st, chunk, maxBuf);
    }
  }

  lemma MatchBounds(s: string, m: Span)
    requires IsMatch(s, m)
    ensures m.semi < m.close <= m.end <= |s|
  {
  }

  lemma NoPayloads(before: seq<string>, text: string)
    ensures before + Payloads(text, []) == before
  {
  }

  lemma PayloadIs(s: string, m: Span)
    requires m.semi < m.close <= |s|
    ensures Payload(s, m) == s[m.semi + 1..m.close]
  {
  }

  lemma NoMatches(s: string, from: nat)
    requires FindFrom(s, from).None?
    ensures Matches(s, from) == []
  {
  }

  lemma MatchesStep(s: string, from: nat, ms: seq<Span>, m: Span)
    requires FindFrom(s, from) == Some(m) && Matches(s, 0) == ms + Matches(s, from)
    ensures Matches(s, 0) == (ms + [m]) + Matches(s, m.end)
  {
    hide Matches, FindFrom;
    MatchesCons(s, from, m);
    assert ms + ([m] + Matches(s, m.end)) == (ms + [m]) + Matches(s, m.end);
  }

  lemma ResyncStep(s: string, from: nat)
    requires from <= |s|
    ensures PrefixFrom(s, from).None? ==> Resync(s, from) == TailFrom(s, from)
    ensures PrefixFrom(s, from).Some? ==>
      var si := PrefixFrom(s, from).value;
      var te := TerminatorEnd(s, si + 5);
      if te.None? then Resync(s, from) == si
      else from < te.value <= |s| && Resync(s, from) == Resync(s, te.value)
  {
    hide PrefixFrom, TailFrom, TerminatorEnd;
  }

  lemma CopiesStep(atob: string -> Option<string>, before: seq<string>, text: string, ms: seq<Span>, m: Span)
    ensures var d := atob(Payload(text, m));
      Copies(atob, before + Payloads(text, ms + [m])) ==
      Copies(atob, before + Payloads(text, ms)) + (if d.Some? && d.value != "" then [d.value] else [])
  {
    var a, b := before + Payloads(text, ms), before + Payloads(text, ms + [m]);
    assert b == a + [Payload(text, m)];
    assert b[..|b| - 1] == a;
  }
}
