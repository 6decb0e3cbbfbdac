/** User names as path segments (app/user-credentials.js:71-104).

    The codec works on the UTF-8 bytes of a name; how these come from its UTF-16 code units
    is at the end.  Percent-encoding is that of section 2.1 of RFC 3986 with upper-case
    digits; which bytes are well formed is section 4 of RFC 3629. */
module UserNameCodec {
  import opened Options

  type byte = x: int | 0 <= x < 256

  type Bytes = seq<byte>

  const LONGEST: nat := 255

  // ---------------------------------------------------------------- UTF-8

  predicate Continuation(b: byte) {
    0x80 <= b <= 0xBF
  }

  /** How many bytes a sequence that starts with this one has; 0 for none. */
  function Expected(lead: byte): (n: nat)
    ensures n <= 4
  {
    if lead <= 0x7F then 1
    else if 0xC2 <= lead <= 0xDF then 2
    else if 0xE0 <= lead <= 0xEF then 3
    else if 0xF0 <= lead <= 0xF4 then 4
    else 0
  }

  /** No overlong forms, surrogates or code points past the last one. */
  predicate SecondFits(lead: byte, second: byte) {
    && Continuation(second)
    && (lead == 0xE0 ==> second >= 0xA0)
    && (lead == 0xED ==> second <= 0x9F)
    && (lead == 0xF0 ==> second >= 0x90)
    && (lead == 0xF4 ==> second <= 0x8F)
  }

  /** How many bytes at the front belong to one sequence, complete or cut short. */
  function Matched(b: Bytes): (n: nat)
    ensures n <= |b| && n <= 4
    ensures b != [] && Expected(b[0]) > 0 ==> 1 <= n <= Expected(b[0])
  {
    if b == [] || Expected(b[0]) == 0 then 0
    else if Expected(b[0]) == 1 || |b| == 1 || !SecondFits(b[0], b[1]) then 1
    else if Expected(b[0]) == 2 || |b| == 2 || !Continuation(b[2]) then 2
    else if Expected(b[0]) == 3 || |b| == 3 || !Continuation(b[3]) then 3
    else 4
  }

  predicate StartsWell(b: Bytes) {
    b != [] && Expected(b[0]) > 0 && Matched(b) == Expected(b[0])
  }

  predicate WellFormed(b: Bytes) {
    b == [] || (StartsWell(b) && WellFormed(b[Matched(b)..]))
  }

  const REPLACEMENT: Bytes := [0xEF, 0xBF, 0xBD]

  /** Decoding to a string and encoding again: each maximal ill-formed piece becomes one
      replacement character. */
  function Repaired(b: Bytes): Bytes {
    if b == [] then []
    else if StartsWell(b) then b[..Matched(b)] + Repaired(b[Matched(b)..])
    else REPLACEMENT + Repaired(b[if Matched(b) == 0 then 1 else Matched(b)..])
  }

  lemma StartOfReplacement(b: Bytes)
    ensures |b| >= 3 && b[..3] == REPLACEMENT ==> StartsWell(b)
  {
    if |b| >= 3 && b[..3] == REPLACEMENT {
      assert b[0] == b[..3][0] && b[1] == b[..3][1] && b[2] == b[..3][2];
    }
  }

  /** Only well-formed bytes survive a string. */
  lemma {:induction false} RepairedIff(b: Bytes)
    ensures Repaired(b) == b <==> WellFormed(b)
  {
    if b != [] {
      if StartsWell(b) {
        var n := Matched(b);
        RepairedIff(b[n..]);
        assert b == b[..n] + b[n..];
        if Repaired(b) == b {
          assert Repaired(b)[n..] == b[n..];
        }
      } else {
        assert Repaired(b)[..3] == REPLACEMENT;
        assert |b| >= 3 && b[..3] == REPLACEMENT ==> StartsWell(b) by { StartOfReplacement(b); }
      }
    }
  }

  // ---------------------------------------------------------------- the codec

  predicate Safe(b: byte) {
    || ('A' as int <= b <= 'Z' as int) || ('a' as int <= b <= 'z' as int) || ('0' as int <= b <= '9' as int)
    || b == '_' as int || b == '-' as int
  }

  function Hex(d: nat): char
    requires d < 16
  {
    "0123456789ABCDEF"[d]
  }

  function HexValue(c: char): Option<nat> {
    if '0' <= c <= '9' then Some(c as int - '0' as int)
    else if 'A' <= c <= 'F' then Some(c as int - 'A' as int + 10)
    else None
  }

  lemma HexBack(d: nat)
    requires d < 16
    ensures HexValue(Hex(d)) == Some(d)
  {
  }

  lemma HexForth(c: char)
    requires HexValue(c).Some?
    ensures HexValue(c).value < 16 && Hex(HexValue(c).value) == c
  {
  }

  function One(b: byte): string {
    if Safe(b) then [b as char] else ['%', Hex(b / 16), Hex(b % 16)]
  }

  function Encoded(b: Bytes): string {
    if b == [] then "" else Encoded(b[..|b| - 1]) + One(b[|b| - 1])
  }

  lemma EncodedNothing()
    ensures Encoded([]) == ""
  {
  }

  lemma EncodedPush(b: Bytes, x: byte)
    ensures Encoded(b + [x]) == Encoded(b) + One(x)
  {
    hide One;
    assert (b + [x])[..|b|] == b;
  }

  /** The encoding of a whole is that of its parts. */
  lemma {:induction false} EncodedAppend(a: Bytes, b: Bytes)
    ensures Encoded(a + b) == Encoded(a) + Encoded(b)
  {
    hide Encoded;
    if b == [] {
      assert a + b == a;
      assert Encoded([]) == "" by { EncodedNothing(); }
    } else {
      var front, last := b[..|b| - 1], b[|b| - 1];
      EncodedAppend(a, front);
      EncodedPush(a + front, last);
      EncodedPush(front, last);
      assert a + b == a + front + [last] && b == front + [last];
    }
  }

  lemma EncodedOne(b: byte)
    ensures Encoded([b]) == One(b)
  {
    assert [b][..0] == [];
  }

  /** A safe character or an escape at the front: its byte and its length. */
  function Unit(s: string): Option<(byte, nat)> {
    if s == "" then None
    else if s[0] as int < 256 && Safe(s[0] as int) then Some((s[0] as int, 1))
    else if s[0] == '%' && |s| >= 3 && HexValue(s[1]).Some? && HexValue(s[2]).Some? then
      HexForth(s[1]);
      HexForth(s[2]);
      Some((HexValue(s[1]).value * 16 + HexValue(s[2]).value, 3))
    else None
  }

  /** `decodeUserName` up to its last step, which makes a string of the bytes. */
  function Decoded(s: string): Option<Bytes> {
    if s == "" then Some([])
    else
      var u := Unit(s);
      if u.None? || u.value.1 > |s| then None
      else
        var rest := Decoded(s[u.value.1..]);
        if rest.None? then None else Some([u.value.0] + rest.value)
  }

  lemma UnitOfOne(b: byte, rest: string)
    ensures Unit(One(b) + rest) == Some((b, |One(b)|)) && (One(b) + rest)[|One(b)|..] == rest
  {
    if !Safe(b) {
      HexBack(b / 16);
      HexBack(b % 16);
    }
  }

  /** Decoding undoes encoding, on every sequence of bytes. */
  lemma {:induction false} DecodeEncode(b: Bytes)
    ensures Decoded(Encoded(b)) == Some(b)
  {
    if b != [] {
      DecodeEncode(b[1..]);
      assert b == [b[0]] + b[1..];
      EncodedAppend([b[0]], b[1..]);
      EncodedOne(b[0]);
      UnitOfOne(b[0], Encoded(b[1..]));
    }
  }

  /** No two byte sequences share a segment. */
  lemma Injective(a: Bytes, b: Bytes)
    requires Encoded(a) == Encoded(b)
    ensures a == b
  {
    DecodeEncode(a);
    DecodeEncode(b);
  }

  lemma OneChars(b: byte, i: nat)
    requires i < |One(b)|
    ensures One(b)[i] != '.' && One(b)[i] != '/' && One(b)[i] != '\\' && One(b)[i] != '\0'
  {
  }

  lemma {:induction false} EncodedChars(b: Bytes, i: nat)
    requires i < |Encoded(b)|
    ensures Encoded(b)[i] != '.' && Encoded(b)[i] != '/' && Encoded(b)[i] != '\\' && Encoded(b)[i] != '\0'
  {
    hide One;
    var front := Encoded(b[..|b| - 1]);
    if i < |front| { EncodedChars(b[..|b| - 1], i); } else { OneChars(b[|b| - 1], i - |front|); }
  }

  /** A segment is never a relative directory and holds no separator. */
  lemma SegmentIsOneName(b: Bytes)
    requires b != []
    ensures Encoded(b) != "" && Encoded(b) != "." && Encoded(b) != ".."
    ensures '/' !in Encoded(b) && '\\' !in Encoded(b) && '\0' !in Encoded(b)
  {
    forall i | 0 <= i < |Encoded(b)| ensures Encoded(b)[i] !in ['.', '/', '\\', '\0'] { EncodedChars(b, i); }
    assert Encoded(b) != "";
    EncodedChars(b, 0);
  }

  /** How one byte is spelled: letters, digits, `_` and `-` as they are, everything else as a
      percent sign and two hexadecimal digits, the letters among them upper-case. */
  lemma Spelling(b: byte)
    ensures var c := b as char;
            if 'A' <= c <= 'Z' || 'a' <= c <= 'z' || '0' <= c <= '9' || c == '_' || c == '-' then One(b) == [c]
            else One(b) == ['%', "0123456789ABCDEF"[b / 16], "0123456789ABCDEF"[b % 16]]
  {
  }

  datatype Result<T> = Ok(value: T) | Empty | TooLong

  /** `encodeUserName`; the two failures are exceptions. */
  method EncodeUserName(name: Bytes) returns (r: Result<string>)
    ensures r == if name == [] then Empty else if |Encoded(name)| > 255 then TooLong else Ok(Encoded(name))
  {
    if name == [] { return Empty; }
    var out := "";
    for i := 0 to |name|
      invariant out == Encoded(name[..i])
    {
      assert name[..i + 1][..i] == name[..i];
      out := out + if Safe(name[i]) then [name[i] as char] else ['%', Hex(name[i] / 16), Hex(name[i] % 16)];
    }
    assert name[..|name|] == name;
    if |out| > LONGEST { return TooLong; }
    r := Ok(out);
  }

  method DecodeUserName(s: string) returns (r: Option<Bytes>)
    ensures r == if Decoded(s).None? then None else Some(Repaired(Decoded(s).value))
  {
    var bytes: Bytes := [];
    var i := 0;
    assert s[0..] == s;
    assert Decoded(s).Some? ==> [] + Decoded(s).value == Decoded(s).value;
    while i < |s|
      invariant i <= |s|
      invariant Decoded(s) == if Decoded(s[i..]).None? then None else Some(bytes + Decoded(s[i..]).value)
      decreases |s| - i
    {
      var u := Unit(s[i..]);
      if u.None? || u.value.1 > |s| - i { return None; }
      assert s[i..][u.value.1..] == s[i + u.value.1..];
      assert Decoded(s[i + u.value.1..]).Some? ==> bytes + ([u.value.0] + Decoded(s[i + u.value.1..]).value) == bytes + [u.value.0] + Decoded(s[i + u.value.1..]).value;
      bytes := bytes + [u.value.0];
      i := i + u.value.1;
    }
    assert s[i..] == "" && bytes + [] == bytes;
    r := Some(Repaired(bytes));
  }

  /** The image of the encoder: the segments that belong to some name. */
  ghost predicate Segment(s: string) {
    exists name: Bytes :: name != [] && WellFormed(name) && Encoded(name) == s && |s| <= LONGEST
  }

  /** Ill-formed bytes whose repaired form no longer fits; the check throws on them. */
  ghost predicate Overflows(s: string) {
    s != "" && |s| <= LONGEST && Decoded(s).Some? && |Encoded(Repaired(Decoded(s).value))| > LONGEST
  }

  /** `isEncodedUserName`; `TooLong` is the exception that escapes from the re-encoding. */
  method IsEncodedUserName(s: string) returns (r: Result<bool>)
    ensures r == if Overflows(s) then TooLong else Ok(Segment(s))
  {
    if s == "" || |s| > LONGEST {
      SegmentsFit(s);
      return Ok(false);
    }
    var decoded := DecodeUserName(s);
    SegmentIff(s);
    if decoded.None? { return Ok(false); }
    var again := EncodeUserName(decoded.value);
    RepairedSome(s);
    match again
    case Ok(t) => r := Ok(t == s);
    case TooLong => r := TooLong;
  }

  lemma SegmentsFit(s: string)
    requires s == "" || |s| > LONGEST
    ensures !Segment(s)
  {
    forall name: Bytes | name != [] && Encoded(name) == s && |s| <= LONGEST ensures false { SegmentIsOneName(name); }
  }

  lemma RepairedSome(s: string)
    requires s != "" && Decoded(s).Some?
    ensures Decoded(s).value != [] && Repaired(Decoded(s).value) != []
  {
  }

  /** The canonical check: a segment is one exactly when encoding what it decodes to gives
      it back. */
  lemma SegmentIff(s: string)
    requires s != "" && |s| <= LONGEST
    ensures Segment(s) <==> Decoded(s).Some? && Encoded(Repaired(Decoded(s).value)) == s
    ensures Segment(s) ==> !Overflows(s)
  {
    if Segment(s) {
      var name: Bytes :| name != [] && WellFormed(name) && Encoded(name) == s && |s| <= LONGEST;
      DecodeEncode(name);
      RepairedIff(name);
    }
    if Decoded(s).Some? && Encoded(Repaired(Decoded(s).value)) == s {
      var name := Repaired(Decoded(s).value);
      DecodeEncode(name);
      assert Decoded(s) == Some(name);
      RepairedIff(name);
      RepairedSome(s);
    }
  }

  /** 85 escapes of a byte that is never well formed: within the length limit, and yet the
      check throws instead of answering no. */
  lemma CheckMayThrow()
    ensures Overflows(Encoded(seq(85, _ => 0xFF)))
  {
    var b: Bytes := seq(85, _ => 0xFF);
    RunOfFF(b);
    DecodeEncode(b);
  }

  lemma ReplacementLength()
    ensures |Encoded(REPLACEMENT)| == 9
  {
    assert REPLACEMENT == [0xEF] + [0xBF] + [0xBD];
    EncodedPush([0xEF] + [0xBF], 0xBD);
    EncodedPush([0xEF], 0xBF);
    EncodedOne(0xEF);
  }

  lemma {:induction false} RunOfFF(b: Bytes)
    requires forall i :: 0 <= i < |b| ==> b[i] == 0xFF
    ensures |Encoded(b)| == 3 * |b| && |Encoded(Repaired(b))| == 9 * |b|
  {
    hide Encoded;
    EncodedNothing();
    if b != [] {
      RunOfFF(b[1..]);
      assert b == [b[0]] + b[1..];
      EncodedAppend([b[0]], b[1..]);
      EncodedOne(b[0]);
      assert !StartsWell(b) && Matched(b) == 0;
      EncodedAppend(REPLACEMENT, Repaired(b[1..]));
      ReplacementLength();
    }
  }

  // ---------------------------------------------------------------- the names as strings

  type CodeUnit = x: int | 0 <= x < 0x10000

  type Name = seq<CodeUnit>

  predicate High(u: CodeUnit) {
    0xD800 <= u <= 0xDBFF
  }

  predicate Low(u: CodeUnit) {
    0xDC00 <= u <= 0xDFFF
  }

  type Scalar = p: int | 0 <= p < 0xD800 || 0xE000 <= p < 0x110000

  const REPLACED: Scalar := 0xFFFD

  predicate PairFirst(n: Name) {
    |n| >= 2 && High(n[0]) && Low(n[1])
  }

  /** The characters of a string as it is turned into bytes: a surrogate without its partner
      becomes the replacement character. */
  function Points(n: Name): seq<Scalar> {
    if n == [] then []
    else if PairFirst(n) then [0x10000 + (n[0] - 0xD800) * 0x400 + (n[1] - 0xDC00)] + Points(n[2..])
    else [if High(n[0]) || Low(n[0]) then REPLACED else n[0]] + Points(n[1..])
  }

  function Units(p: Scalar): Name {
    if p < 0x10000 then [p] else [0xD800 + (p - 0x10000) / 0x400, 0xDC00 + (p - 0x10000) % 0x400]
  }

  function UnitsOf(ps: seq<Scalar>): Name {
    if ps == [] then [] else Units(ps[0]) + UnitsOf(ps[1..])
  }

  /** Section 3 of RFC 3629. */
  function Utf8One(p: Scalar): Bytes {
    if p < 0x80 then [p]
    else if p < 0x800 then [0xC0 + p / 0x40, 0x80 + p % 0x40]
    else if p < 0x10000 then [0xE0 + p / 0x1000, 0x80 + p / 0x40 % 0x40, 0x80 + p % 0x40]
    else [0xF0 + p / 0x40000, 0x80 + p / 0x1000 % 0x40, 0x80 + p / 0x40 % 0x40, 0x80 + p % 0x40]
  }

  function Utf8(ps: seq<Scalar>): Bytes {
    if ps == [] then [] else Utf8One(ps[0]) + Utf8(ps[1..])
  }

  /** What the bytes of one sequence stand for. */
  function Value(b: seq<int>): int
    requires 1 <= |b| <= 4
  {
    if |b| == 1 then b[0]
    else if |b| == 2 then (b[0] - 0xC0) * 0x40 + (b[1] - 0x80)
    else if |b| == 3 then (b[0] - 0xE0) * 0x1000 + (b[1] - 0x80) * 0x40 + (b[2] - 0x80)
    else (b[0] - 0xF0) * 0x40000 + (b[1] - 0x80) * 0x1000 + (b[2] - 0x80) * 0x40 + (b[3] - 0x80)
  }

  /** The path segment of a name. */
  function SegmentOf(n: Name): string {
    Encoded(Utf8(Points(n)))
  }

  /** The name with each unpaired surrogate replaced. */
  function Mended(n: Name): Name {
    UnitsOf(Points(n))
  }

  /** Every surrogate has its partner beside it. */
  ghost predicate Paired(n: Name) {
    && (forall i :: 0 <= i < |n| && High(n[i]) ==> i + 1 < |n| && Low(n[i + 1]))
    && (forall i :: 0 <= i < |n| && Low(n[i]) ==> i > 0 && High(n[i - 1]))
  }

  lemma SplitBits(p: nat)
    ensures p / 0x1000 == p / 0x40 / 0x40 && p / 0x40000 == p / 0x1000 / 0x40
  {
  }

  /** One character is one well-formed sequence, whatever follows it. */
  lemma OneStarts(p: Scalar, rest: Bytes)
    ensures var b := Utf8One(p) + rest;
      StartsWell(b) && Matched(b) == |Utf8One(p)| && b[..Matched(b)] == Utf8One(p) && b[Matched(b)..] == rest
    ensures Value(Utf8One(p)) == p
  {
    SplitBits(p);
    var b := Utf8One(p) + rest;
    assert forall i :: 0 <= i < |Utf8One(p)| ==> b[i] == Utf8One(p)[i];
  }

  /** The bytes of a string are well formed and come from no other characters. */
  lemma {:induction false} Utf8Injective(ps: seq<Scalar>, qs: seq<Scalar>)
    ensures WellFormed(Utf8(ps))
    ensures Utf8(ps) == Utf8(qs) ==> ps == qs
  {
    hide Utf8One, StartsWell, Matched, Value;
    if ps == [] {
      if qs != [] { OneStarts(qs[0], Utf8(qs[1..])); NotNothing(Utf8(qs)); }
    } else {
      OneStarts(ps[0], Utf8(ps[1..]));
      NotNothing(Utf8(ps));
      if qs == [] {
        Utf8Injective(ps[1..], []);
      } else {
        OneStarts(qs[0], Utf8(qs[1..]));
        Utf8Injective(ps[1..], qs[1..]);
        if Utf8(ps) == Utf8(qs) { assert ps == [ps[0]] + ps[1..] && qs == [qs[0]] + qs[1..]; }
      }
    }
  }

  /** A sequence that starts well starts with the bytes of one character. */
lemma StartIsOne(b: Bytes)
    requires StartsWell(b)
    ensures exists p: Scalar :: Utf8One(p) == b[..Matched(b)]
  {
    hide Utf8One;
    var n := Matched(b);
    if n == 1 {
      One1(b[0]);
      assert b[..n] == [b[0]];
    } else if n == 2 {
      One2(b[0], b[1]);
      assert b[..n] == [b[0], b[1]];
    } else if n == 3 {
      One3(b[0], b[1], b[2]);
      assert b[..n] == [b[0], b[1], b[2]];
    } else {
      One4(b[0], b[1], b[2], b[3]);
      assert b[..n] == [b[0], b[1], b[2], b[3]];
    }
  }

  lemma One1(x: byte)
    requires Expected(x) == 1
    ensures exists p: Scalar :: Utf8One(p) == [x]
  {
    assert Utf8One(x) == [x];
  }

  lemma One2(x: byte, y: byte)
    requires Expected(x) == 2 && SecondFits(x, y)
    ensures exists p: Scalar :: Utf8One(p) == [x, y]
  {
    var p: Scalar := (x - 0xC0) * 0x40 + (y - 0x80);
    assert Utf8One(p) == [x, y];
  }

  lemma One3(x: byte, y: byte, z: byte)
    requires Expected(x) == 3 && SecondFits(x, y) && Continuation(z)
    ensures exists p: Scalar :: Utf8One(p) == [x, y, z]
  {
    var p: Scalar := (x - 0xE0) * 0x1000 + (y - 0x80) * 0x40 + (z - 0x80);
    assert Utf8One(p) == [x, y, z];
  }

  lemma LastSix(q: nat, r: nat)
    requires r < 0x40
    ensures (q * 0x40 + r) / 0x40 == q && (q * 0x40 + r) % 0x40 == r
  {
  }

  lemma One4(x: byte, y: byte, z: byte, w: byte)
    requires Expected(x) == 4 && SecondFits(x, y) && Continuation(z) && Continuation(w)
    ensures exists p: Scalar :: Utf8One(p) == [x, y, z, w]
  {
    var d := (x - 0xF0) * 0x40 + (y - 0x80);
    var p: Scalar := (d * 0x40 + (z - 0x80)) * 0x40 + (w - 0x80);
    LastSix(d * 0x40 + (z - 0x80), w - 0x80);
    LastSix(d, z - 0x80);
    LastSix(x - 0xF0, y - 0x80);
    SplitBits(p);
    assert Utf8One(p) == [x, y, z, w];
  }

  /** Well-formed bytes are those of some characters. */
lemma WellFormedIff(b: Bytes)
    ensures WellFormed(b) <==> exists ps: seq<Scalar> :: Utf8(ps) == b
  {
    hide WellFormed, Utf8;
    forall ps: seq<Scalar> | Utf8(ps) == b ensures WellFormed(b) { Utf8Injective(ps, ps); }
    if WellFormed(b) { var ps := Characters(b); }
  }

  lemma Utf8Cons(p: Scalar, ps: seq<Scalar>)
    ensures Utf8([p] + ps) == Utf8One(p) + Utf8(ps)
  {
    hide Utf8One;
    assert ([p] + ps)[1..] == ps;
  }

  lemma {:induction false} Characters(b: Bytes) returns (ps: seq<Scalar>)
    requires WellFormed(b)
    ensures Utf8(ps) == b
  {
    hide Utf8, Utf8One, Expected;
    ps := [];
    if b != [] {
      var n := Matched(b);
      StartIsOne(b);
      var p: Scalar :| Utf8One(p) == b[..n];
      var rest := Characters(b[n..]);
      ps := [p] + rest;
      Utf8Cons(p, rest);
      assert b == b[..n] + b[n..];
    } else {
      assert Utf8([]) == [] by { Utf8Nothing(); }
    }
  }

  lemma Utf8Nothing()
    ensures Utf8([]) == []
  {
  }

  /** No character has these bytes at its front. */
  ghost predicate Broken(b: Bytes) {
    forall p: Scalar :: !(b <= Utf8One(p))
  }

  /** Bytes that go together are the front of some character. */
  lemma MatchedStarts(b: Bytes)
    requires Matched(b) >= 2
    ensures !Broken(b[..Matched(b)])
  {
    hide StartsWell;
    var n, e := Matched(b), Expected(b[0]);
    var c: Bytes := b[..n] + [0x80, 0x80][..if e - n <= 2 then e - n else 2];
    assert |c| == e && forall i :: 0 <= i < n ==> c[i] == b[i];
    assert StartsWell(c) && Matched(c) == e by { Continued(b, c); }
    StartIsOne(c);
    var p: Scalar :| Utf8One(p) == c[..e];
    assert b[..n] <= Utf8One(p);
  }

  lemma Continued(b: Bytes, c: Bytes)
    requires Matched(b) >= 2 && |c| == Expected(b[0])
    requires forall i :: 0 <= i < |c| ==> c[i] == if i < Matched(b) then b[i] else 0x80
    ensures StartsWell(c) && Matched(c) == |c|
  {
  }

  /** A character cut short, by the end or by a byte that cannot continue it, becomes one
      replacement character. */
  lemma CutShort(p: Scalar, k: nat, rest: Bytes)
    requires 0 < k < |Utf8One(p)|
    requires rest == [] || Broken(Utf8One(p)[..k] + [rest[0]])
    ensures Repaired(Utf8One(p)[..k] + rest) == REPLACEMENT + Repaired(rest)
  {
    hide Repaired, Broken;
    var b := Utf8One(p)[..k] + rest;
    OneStarts(p, []);
    assert Utf8One(p) + [] == Utf8One(p);
    assert Matched(b) >= k by { FrontMatches(p, k, b); }
    if Matched(b) > k {
      MatchedStarts(b);
      assert Utf8One(p)[..k] + [rest[0]] <= b[..Matched(b)];
      StillBroken(Utf8One(p)[..k] + [rest[0]], b[..Matched(b)]);
      assert false;
    }
    assert b[k..] == rest;
    RepairedStep(b);
  }

  lemma StillBroken(a: Bytes, b: Bytes)
    requires Broken(a) && a <= b
    ensures Broken(b)
  {
    forall p: Scalar ensures !(b <= Utf8One(p)) { assert !(a <= Utf8One(p)); }
  }

  lemma FrontMatches(p: Scalar, k: nat, b: Bytes)
    requires 0 < k < |Utf8One(p)| && k <= |b| && b[..k] == Utf8One(p)[..k]
    ensures Matched(b) >= k && Expected(b[0]) == |Utf8One(p)|
  {
    var c := Utf8One(p) + [];
    OneStarts(p, []);
    assert c == Utf8One(p);
    assert forall i :: 0 <= i < k ==> b[i] == b[..k][i] && c[i] == c[..k][i];
  }

  lemma RepairedStep(b: Bytes)
    requires b != [] && Expected(b[0]) > Matched(b) > 0
    ensures Repaired(b) == REPLACEMENT + Repaired(b[Matched(b)..])
  {
  }

  /** A byte no character starts with becomes one too. */
lemma Stray(x: byte, rest: Bytes)
    requires Broken([x])
    ensures Repaired([x] + rest) == REPLACEMENT + Repaired(rest)
  {
    LeadIsWhole(x);
    assert ([x] + rest)[1..] == rest;
  }

  lemma LeadIsWhole(x: byte)
    ensures Expected(x) > 0 ==> !Broken([x])
  {
    if Expected(x) == 1 {
      assert [x] <= Utf8One(x);
    } else if Expected(x) == 2 {
      assert [x] <= Utf8One((x - 0xC0) * 0x40);
    } else if Expected(x) == 3 {
      assert [x] <= Utf8One(if x == 0xE0 then 0x800 else (x - 0xE0) * 0x1000);
    } else if Expected(x) == 4 {
      assert [x] <= Utf8One(if x == 0xF0 then 0x10000 else (x - 0xF0) * 0x40000);
    }
  }

  /** A character is kept. */
  lemma Kept(p: Scalar, rest: Bytes)
    ensures Repaired(Utf8One(p) + rest) == Utf8One(p) + Repaired(rest)
  {
    hide Utf8One;
    OneStarts(p, rest);
  }

  lemma NotNothing(b: Bytes)
    requires StartsWell(b)
    ensures b != []
  {
  }

  /** The characters of the units of characters are these characters. */
  lemma {:induction false} PointsBack(ps: seq<Scalar>)
    ensures Points(UnitsOf(ps)) == ps
  {
    if ps != [] {
      PointsBack(ps[1..]);
      var n, rest := UnitsOf(ps), UnitsOf(ps[1..]);
      if ps[0] < 0x10000 {
        assert n[0] == ps[0] && n[1..] == rest;
      } else {
        var d := ps[0] as int - 0x10000;
        assert n[0] == 0xD800 + d / 0x400 && n[1] == 0xDC00 + d % 0x400 && n[2..] == rest;
        assert d == d / 0x400 * 0x400 + d % 0x400;
      }
      assert ps == [ps[0]] + ps[1..];
    }
  }

  lemma PairedTail(n: Name, k: nat)
    requires n != [] && k == (if PairFirst(n) then 2 else 1)
    ensures Paired(n) <==> Paired(n[k..]) && (PairFirst(n) || (!High(n[0]) && !Low(n[0])))
  {
    var rest := n[k..];
    assert forall i :: 0 <= i < |rest| ==> rest[i] == n[i + k];
    if Paired(n) {
      forall i | 0 <= i < |rest| && High(rest[i]) ensures i + 1 < |rest| && Low(rest[i + 1]) { assert High(n[i + k]); }
      forall i | 0 <= i < |rest| && Low(rest[i]) ensures i > 0 && High(rest[i - 1]) { assert Low(n[i + k]); }
    }
    if Paired(rest) && (PairFirst(n) || (!High(n[0]) && !Low(n[0]))) {
      forall i | 0 <= i < |n| && High(n[i]) ensures i + 1 < |n| && Low(n[i + 1]) { if i >= k { assert High(rest[i - k]); } }
      forall i | 0 <= i < |n| && Low(n[i]) ensures i > 0 && High(n[i - 1]) { if i >= k { assert Low(rest[i - k]); } }
    }
  }

  /** A name comes through unchanged exactly when all its surrogates are paired. */
  lemma {:induction false} MendedIff(n: Name)
    ensures Mended(n) == n <==> Paired(n)
  {
    hide Paired;
    if n == [] {
      assert Paired(n) by { NothingPaired(); }
    } else {
      var k := if PairFirst(n) then 2 else 1;
      var rest := n[k..];
      PairedTail(n, k);
      MendedIff(rest);
      var u := Units(Points(n)[0]);
      assert Points(n)[1..] == Points(rest);
      assert Mended(n) == u + Mended(rest) && |u| == k;
      assert n == n[..k] + rest;
      if Mended(n) == n { assert (u + Mended(rest))[k..] == Mended(rest) && u[0] == n[0]; }
      if PairFirst(n) || (!High(n[0]) && !Low(n[0])) { assert u == n[..k]; }
    }
  }

  lemma NothingPaired()
    ensures Paired([])
  {
  }

  /** Two names share a segment exactly when they differ in unpaired surrogates only; among
      names without one no two do. */
  lemma NamesShareIff(a: Name, b: Name)
    ensures SegmentOf(a) == SegmentOf(b) <==> Mended(a) == Mended(b)
    ensures Paired(a) && Paired(b) && SegmentOf(a) == SegmentOf(b) ==> a == b
  {
    hide Points, UnitsOf, Utf8, Encoded, Paired;
    if SegmentOf(a) == SegmentOf(b) {
      Injective(Utf8(Points(a)), Utf8(Points(b)));
      Utf8Injective(Points(a), Points(b));
    }
    PointsBack(Points(a));
    PointsBack(Points(b));
    MendedIff(a);
    MendedIff(b);
  }

  /** A name can be told from every well-formed one exactly when it is well formed itself:
      an unpaired surrogate gives it the segment of the mended name. */
  lemma OwnSegmentIff(a: Name)
    ensures Paired(a) <==> forall b: Name :: Paired(b) && SegmentOf(b) == SegmentOf(a) ==> b == a
  {
    hide Points, UnitsOf, Utf8, Encoded, Paired;
    MendedIff(a);
    forall b: Name | Paired(a) && Paired(b) && SegmentOf(b) == SegmentOf(a) ensures b == a { NamesShareIff(a, b); }
    PointsBack(Points(a));
    MendedIff(Mended(a));
    assert SegmentOf(Mended(a)) == SegmentOf(a);
  }

  /** Decoding a name's segment gives the bytes of the mended name, unrepaired. */
  lemma NameDecodes(n: Name)
    ensures Decoded(SegmentOf(n)).Some? && Repaired(Decoded(SegmentOf(n)).value) == Utf8(Points(Mended(n)))
  {
    DecodeEncode(Utf8(Points(n)));
    Utf8Injective(Points(n), Points(n));
    RepairedIff(Utf8(Points(n)));
    PointsBack(Points(n));
  }
}
