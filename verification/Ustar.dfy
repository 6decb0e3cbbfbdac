/** The ustar writer (app/deployment/container-process.js:243-313) and a reader for the
    ustar interchange format of POSIX.1-2017 (`pax`, "ustar Interchange Format").

    Paths are the UTF-8 bytes of the source's strings; file contents are already decoded
    from base64. */
module Ustar {
  type byte = x: int | 0 <= x < 256

  type Bytes = seq<byte>

  const SLASH: byte := 47
  const ZERO: byte := 48
  const SPACE: byte := 32

  const BLOCK: nat := 512

  datatype Error = BadOwner | PathTooLong | TooLarge

  datatype Result<T> = Ok(value: T) | Err(error: Error)

  datatype File = File(path: Bytes, data: Bytes, executable: bool)

  /** A member of an archive, as its reader sees it. */
  datatype Entry = Entry(path: Bytes, directory: bool, mode: nat, uid: nat, gid: nat, content: Bytes)

  function Fill(b: byte, n: nat): Bytes {
    seq(n, _ => b)
  }

  // ---------------------------------------------------------------- octal fields

  function Oct(n: nat): (s: Bytes)
    ensures |s| >= 1
  {
    if n < 8 then [ZERO + n] else Oct(n / 8) + [ZERO + n % 8]
  }

  predicate IsOctal(s: Bytes) {
    forall i :: 0 <= i < |s| ==> ZERO <= s[i] < ZERO + 8
  }

  function Value(s: Bytes): nat
    requires IsOctal(s)
  {
    if s == [] then 0 else Value(s[..|s| - 1]) * 8 + (s[|s| - 1] - ZERO)
  }

  function Pow8(k: nat): (p: nat)
    ensures p >= 1
  {
    if k == 0 then 1 else 8 * Pow8(k - 1)
  }

  lemma {:induction false} OctIsValue(n: nat)
    ensures IsOctal(Oct(n)) && Value(Oct(n)) == n
  {
    if n >= 8 {
      OctIsValue(n / 8);
      assert Oct(n)[..|Oct(n)| - 1] == Oct(n / 8);
    } else {
      assert Oct(n)[..0] == [];
    }
  }

  lemma {:induction false} OctLength(n: nat, k: nat)
    requires k >= 1
    ensures |Oct(n)| <= k <==> n < Pow8(k)
  {
    if k == 1 {
      assert Pow8(1) == 8 * Pow8(0);
    } else {
      if n >= 8 { OctLength(n / 8, k - 1); }
      assert Pow8(k) == 8 * Pow8(k - 1);
      assert Pow8(k - 1) == 8 * Pow8(k - 2);
    }
  }

  lemma {:induction false} LeadingZeros(k: nat, s: Bytes)
    requires IsOctal(s)
    ensures IsOctal(Fill(ZERO, k) + s) && Value(Fill(ZERO, k) + s) == Value(s)
  {
    var t := Fill(ZERO, k) + s;
    if s != [] {
      LeadingZeros(k, s[..|s| - 1]);
      assert t[..|t| - 1] == Fill(ZERO, k) + s[..|s| - 1];
    } else if k > 0 {
      LeadingZeros(k - 1, s);
      assert t[..|t| - 1] == Fill(ZERO, k - 1) + s;
    }
  }

  function PadStart(s: Bytes, n: nat): (r: Bytes)
    ensures |r| == if |s| < n then n else |s|
  {
    if |s| < n then Fill(ZERO, n - |s|) + s else s
  }

  lemma PaddedValue(n: nat, k: nat)
    ensures IsOctal(PadStart(Oct(n), k)) && Value(PadStart(Oct(n), k)) == n
  {
    OctIsValue(n);
    if |Oct(n)| < k { LeadingZeros(k - |Oct(n)|, Oct(n)); }
  }

  function TarOctal(value: nat, length: nat): (r: Result<Bytes>)
    requires length >= 2
    ensures r.Ok? ==> |r.value| == length
  {
    if |Oct(value)| > length - 1 then Err(TooLarge) else Ok(PadStart(Oct(value), length - 1) + [0])
  }

  /** The reader's side: the digits up to the first byte that is none. */
  function Lead(s: Bytes): (d: Bytes)
    ensures IsOctal(d)
  {
    if s != [] && ZERO <= s[0] < ZERO + 8 then [s[0]] + Lead(s[1..]) else []
  }

  lemma {:induction false} LeadStops(d: Bytes, b: byte, rest: Bytes)
    requires IsOctal(d) && !(ZERO <= b < ZERO + 8)
    ensures Lead(d + [b] + rest) == d
  {
    if d != [] {
      LeadStops(d[1..], b, rest);
      assert (d + [b] + rest)[1..] == d[1..] + [b] + rest;
    }
  }

  /** A number fits its field exactly when it has a digit less than the field, and then
      reads back. */
  lemma OctalFieldReadsBack(value: nat, length: nat)
    requires length >= 2
    ensures TarOctal(value, length).Ok? <==> value < Pow8(length - 1)
    ensures TarOctal(value, length).Ok? ==> Value(Lead(TarOctal(value, length).value)) == value
  {
    OctLength(value, length - 1);
    var d := PadStart(Oct(value), length - 1);
    PaddedValue(value, length - 1);
    LeadStops(d, 0, []);
    assert d + [0] + [] == d + [0];
  }

  // ---------------------------------------------------------------- splitting a path

  function Split(p: Bytes): (parts: seq<Bytes>)
    ensures |parts| >= 1
  {
    if p == [] then [[]]
    else
      var rest := Split(p[1..]);
      if p[0] == SLASH then [[]] + rest else [[p[0]] + rest[0]] + rest[1..]
  }

  function Join(parts: seq<Bytes>): Bytes {
    if parts == [] then [] else if |parts| == 1 then parts[0] else parts[0] + [SLASH] + Join(parts[1..])
  }

  lemma {:induction false} JoinSplit(p: Bytes)
    ensures Join(Split(p)) == p
  {
    if p != [] {
      JoinSplit(p[1..]);
      var rest := Split(p[1..]);
      if p[0] == SLASH {
        assert Split(p)[1..] == rest;
      } else if |rest| > 1 {
        assert Split(p)[1..] == rest[1..];
      }
    }
  }

  lemma {:induction false} JoinAppend(a: seq<Bytes>, b: seq<Bytes>)
    requires a != [] && b != []
    ensures Join(a + b) == Join(a) + [SLASH] + Join(b)
  {
    assert (a + b)[1..] == a[1..] + b;
    if |a| > 1 { JoinAppend(a[1..], b); } else { assert a[1..] + b == b; }
  }

  function PrependByte(b: byte, parts: seq<Bytes>): seq<Bytes>
    requires |parts| >= 1
  {
    if b == SLASH then [[]] + parts else [[b] + parts[0]] + parts[1..]
  }

  lemma SplitStep(p: Bytes, rest: seq<Bytes>)
    requires p != [] && rest == Split(p[1..])
    ensures Split(p) == PrependByte(p[0], rest)
  {
  }

  lemma SplitNothing()
    ensures Split([]) == [[]]
  {
  }

  lemma PrependParts(a: seq<Bytes>, b: seq<Bytes>, c: byte)
    requires |a| >= 1
    ensures PrependByte(c, a + b) == PrependByte(c, a) + b
  {
    assert (a + b)[1..] == a[1..] + b;
  }

  lemma {:induction false} SplitAppend(x: Bytes, y: Bytes)
    ensures Split(x + [SLASH] + y) == Split(x) + Split(y)
  {
    hide Split;
    var p := x + [SLASH] + y;
    if x == [] {
      SplitStep(p, Split(y));
      assert Split(x) == [[]] by { SplitNothing(); }
      assert p[1..] == y;
    } else {
      SplitAppend(x[1..], y);
      assert p[1..] == x[1..] + [SLASH] + y && p[0] == x[0];
      SplitStep(p, Split(x[1..]) + Split(y));
      SplitStep(x, Split(x[1..]));
      PrependParts(Split(x[1..]), Split(y), x[0]);
    }
  }

  /** Cutting at the k-th slash. */
  lemma SplitAt(p: Bytes, k: nat)
    requires 0 < k < |Split(p)|
    ensures p == Join(Split(p)[..k]) + [SLASH] + Join(Split(p)[k..])
  {
    JoinSplit(p);
    JoinAppend(Split(p)[..k], Split(p)[k..]);
    assert Split(p)[..k] + Split(p)[k..] == Split(p);
  }

  predicate LegalSlash(p: Bytes, i: nat) {
    i < |p| && p[i] == SLASH && i <= 155 && |p| - i - 1 <= 100
  }

  /** Whether the format can hold the path at all. */
  ghost predicate Storable(p: Bytes) {
    |p| <= 100 || exists i :: LegalSlash(p, i)
  }

  lemma SlashIsSplit(p: Bytes, i: nat) returns (k: nat)
    requires i < |p| && p[i] == SLASH
    ensures 0 < k < |Split(p)| && Join(Split(p)[..k]) == p[..i] && Join(Split(p)[k..]) == p[i + 1..]
  {
    var x, y := p[..i], p[i + 1..];
    assert p == x + [SLASH] + y;
    SplitAppend(x, y);
    JoinSplit(x);
    JoinSplit(y);
    k := |Split(x)|;
    assert Split(p)[..k] == Split(x) && Split(p)[k..] == Split(y);
  }

  function SplitFrom(p: Bytes, parts: seq<Bytes>, split: nat): (r: Result<(Bytes, Bytes)>)
    requires split < |parts|
  {
    if split == 0 then Err(PathTooLong)
    else
      var prefix, name := Join(parts[..split]), Join(parts[split..]);
      if |prefix| <= 155 && |name| <= 100 then Ok((name, prefix)) else SplitFrom(p, parts, split - 1)
  }

  /** What `splitTarPath` returns: the name and the prefix. */
  function SplitTarPath(p: Bytes): Result<(Bytes, Bytes)> {
    if |p| <= 100 then Ok((p, [])) else SplitFrom(p, Split(p), |Split(p)| - 1)
  }

  method SplitTarPathLoop(p: Bytes) returns (r: Result<(Bytes, Bytes)>)
    ensures r == SplitTarPath(p)
  {
    if |p| <= 100 { return Ok((p, [])); }
    var parts := Split(p);
    var split: nat := |parts| - 1;
    while split > 0
      invariant split < |parts| && SplitTarPath(p) == SplitFrom(p, parts, split)
    {
      var prefix, name := Join(parts[..split]), Join(parts[split..]);
      if |prefix| <= 155 && |name| <= 100 { return Ok((name, prefix)); }
      split := split - 1;
    }
    r := Err(PathTooLong);
  }

  lemma {:induction false} SplitFromIs(p: Bytes, split: nat)
    requires split < |Split(p)|
    ensures var r := SplitFrom(p, Split(p), split);
            match r
            case Ok(v) => |v.0| <= 100 && |v.1| <= 155 && p == v.1 + [SLASH] + v.0
            case Err(_) => forall k :: 0 < k <= split ==> |Join(Split(p)[..k])| > 155 || |Join(Split(p)[k..])| > 100
  {
    if split > 0 {
      SplitAt(p, split);
      SplitFromIs(p, split - 1);
    }
  }

  /** What the reader makes of the two fields. */
  function Rejoined(name: Bytes, prefix: Bytes): Bytes {
    if prefix == [] then name else prefix + [SLASH] + name
  }

  /** `splitTarPath` fails only for a path the format cannot hold. */
  lemma SplitIsComplete(p: Bytes)
    ensures SplitTarPath(p).Ok? <==> Storable(p)
    ensures SplitTarPath(p).Ok? ==> |SplitTarPath(p).value.0| <= 100 && |SplitTarPath(p).value.1| <= 155
  {
    if |p| > 100 {
      SplitFromIs(p, |Split(p)| - 1);
      match SplitTarPath(p)
      case Ok(v) =>
        assert LegalSlash(p, |v.1|);
      case Err(_) =>
        forall i | LegalSlash(p, i) ensures false {
          var k := SlashIsSplit(p, i);
        }
    }
  }

  /** The two fields read back as the path except for one shape of path: a slash followed
      by exactly 100 bytes without another one, whose slash is lost. */
  lemma SplitReadsBackIff(p: Bytes)
    requires SplitTarPath(p).Ok?
    ensures var v := SplitTarPath(p).value;
            Rejoined(v.0, v.1) == p <==> !(|p| == 101 && p[0] == SLASH && forall i :: 0 < i < |p| ==> p[i] != SLASH)
  {
    var v := SplitTarPath(p).value;
    if |p| > 100 {
      SplitFromIs(p, |Split(p)| - 1);
      if v.1 == [] {
        LastSlashWins(p, |Split(p)| - 1);
        assert p[0] == SLASH && |p| == 101;
        forall i | 0 < i < |p| ensures p[i] != SLASH {
          assert p[i] == SLASH ==> LegalSlash(p, i);
        }
      } else {
        assert p[|v.1|] == SLASH;
      }
    }
  }

  /** The search starts at the last slash, so nothing legal lies behind the one taken. */
  lemma {:induction false} LastSlashWins(p: Bytes, split: nat)
    requires split < |Split(p)| && SplitFrom(p, Split(p), split).Ok?
    requires forall k :: split < k < |Split(p)| ==> |Join(Split(p)[..k])| > 155 || |Join(Split(p)[k..])| > 100
    ensures forall i :: |SplitFrom(p, Split(p), split).value.1| < i && LegalSlash(p, i) ==> false
  {
    hide Split, Join;
    var prefix, name := Join(Split(p)[..split]), Join(Split(p)[split..]);
    if |prefix| <= 155 && |name| <= 100 {
      forall i | |prefix| < i && LegalSlash(p, i) ensures false {
        var k := SlashIsSplit(p, i);
        if k <= split { PrefixesGrow(p, k, split); }
      }
    } else {
      LastSlashWins(p, split - 1);
    }
  }

  lemma PrefixesGrow(p: Bytes, j: nat, k: nat)
    requires 0 < j <= k <= |Split(p)|
    ensures |Join(Split(p)[..j])| <= |Join(Split(p)[..k])|
  {
    if j < k {
      JoinAppend(Split(p)[..j], Split(p)[j..k]);
      assert Split(p)[..j] + Split(p)[j..k] == Split(p)[..k];
    }
  }

  // ---------------------------------------------------------------- one header

  function Put(s: Bytes, at: nat, b: Bytes): (r: Bytes)
    requires at + |b| <= |s|
    ensures |r| == |s|
  {
    s[..at] + b + s[at + |b|..]
  }

  function At(s: Bytes, at: nat, n: nat): (r: Bytes)
    requires at + n <= |s|
    ensures |r| == n
  {
    s[at..at + n]
  }

  lemma Hit(s: Bytes, at: nat, b: Bytes)
    requires at + |b| <= |s|
    ensures At(Put(s, at, b), at, |b|) == b
  {
  }

  lemma Miss(s: Bytes, at: nat, b: Bytes, from: nat, n: nat)
    requires at + |b| <= |s| && from + n <= |s|
    requires from + n <= at || at + |b| <= from
    ensures At(Put(s, at, b), from, n) == At(s, from, n)
  {
    forall i | 0 <= i < n ensures At(Put(s, at, b), from, n)[i] == At(s, from, n)[i] {
    }
  }

  lemma PutTwice(s: Bytes, at: nat, b: Bytes, c: Bytes)
    requires at + |b| <= |s| && |b| == |c|
    ensures Put(Put(s, at, b), at, c) == Put(s, at, c)
  {
  }

  lemma PutBack(s: Bytes, at: nat, n: nat)
    requires at + n <= |s|
    ensures Put(s, at, At(s, at, n)) == s
  {
  }

  function Sum(s: Bytes): nat {
    if s == [] then 0 else Sum(s[..|s| - 1]) + s[|s| - 1]
  }

  lemma {:induction false} SumBound(s: Bytes)
    ensures Sum(s) <= 255 * |s|
  {
    if s != [] { SumBound(s[..|s| - 1]); }
  }

  const MAGIC: Bytes := [117, 115, 116, 97, 114, 0]
  const VERSION: Bytes := [ZERO, ZERO]
  const SPACES: Bytes := Fill(SPACE, 8)
  const NO_TIME: Bytes := Fill(ZERO, 11) + [0]

  function TypeFlag(directory: bool): byte {
    if directory then 53 else 48
  }

  /** The numbers of a header, encoded. */
  datatype Numbers = Numbers(mode: Bytes, uid: Bytes, gid: Bytes, size: Bytes) {
    predicate Fit() {
      |mode| == 8 && |uid| == 8 && |gid| == 8 && |size| == 12
    }
  }

  function Encoded(e: Entry): (r: Result<Numbers>)
    ensures r.Ok? ==> r.value.Fit()
  {
    var mode := TarOctal(e.mode, 8);
    if mode.Err? then Err(mode.error)
    else
      var uid := TarOctal(e.uid, 8);
      if uid.Err? then Err(uid.error)
      else
        var gid := TarOctal(e.gid, 8);
        if gid.Err? then Err(gid.error)
        else
          var size := TarOctal(|e.content|, 12);
          if size.Err? then Err(size.error)
          else Ok(Numbers(mode.value, uid.value, gid.value, size.value))
  }

  function WithNumbers(s: Bytes, n: Numbers): (r: Bytes)
    requires |s| == BLOCK && n.Fit()
    ensures |r| == BLOCK
  {
    Put(Put(Put(Put(Put(s, 100, n.mode), 108, n.uid), 116, n.gid), 124, n.size), 136, NO_TIME)
  }

  function WithMarks(s: Bytes, directory: bool): (r: Bytes)
    requires |s| == BLOCK
    ensures |r| == BLOCK
  {
    Put(Put(Put(Put(s, 148, SPACES), 156, [TypeFlag(directory)]), 257, MAGIC), 263, VERSION)
  }

  /** The header before its checksum is filled in. */
  function Unsummed(name: Bytes, prefix: Bytes, n: Numbers, directory: bool): (r: Bytes)
    requires |name| <= 100 && |prefix| <= 155 && n.Fit()
    ensures |r| == BLOCK
  {
    Put(WithMarks(WithNumbers(Put(Fill(0, BLOCK), 0, name), n), directory), 345, prefix)
  }

  function SumField(sum: nat): Bytes {
    PadStart(Oct(sum), 6) + [0, SPACE]
  }

  /** The sum of 512 bytes always fits its six digits. */
  lemma SumFits(s: Bytes)
    requires |s| == BLOCK
    ensures |SumField(Sum(s))| == 8
  {
    SumBound(s);
    OctLength(Sum(s), 6);
    assert Pow8(6) == 262144;
  }

  function Summed(s: Bytes): (r: Bytes)
    requires |s| == BLOCK
    ensures |r| == BLOCK
  {
    SumFits(s);
    Put(s, 148, SumField(Sum(s)))
  }

  function Header(e: Entry): (r: Result<Bytes>)
    ensures r.Ok? ==> |r.value| == BLOCK
  {
    var split := SplitTarPath(e.path);
    if split.Err? then Err(split.error)
    else
      var n := Encoded(e);
      if n.Err? then Err(n.error)
      else
        SplitIsComplete(e.path);
        Ok(Summed(Unsummed(split.value.0, split.value.1, n.value, e.directory)))
  }

  lemma PutOneMore(s: Bytes, at: nat, b: Bytes, i: nat)
    requires at + |b| <= |s| && i < |b|
    ensures Put(s, at, b[..i + 1]) == Put(s, at, b[..i])[at + i := b[i]]
  {
  }

  method Write(h: array<byte>, at: nat, b: Bytes)
    requires at + |b| <= h.Length
    modifies h
    ensures h[..] == Put(old(h[..]), at, b)
  {
    for i := 0 to |b|
      invariant h[..] == Put(old(h[..]), at, b[..i])
    {
      PutOneMore(old(h[..]), at, b, i);
      h[at + i] := b[i];
    }
    assert b[..|b|] == b;
  }

  method TarHeader(e: Entry) returns (r: Result<Bytes>)
    ensures r == Header(e)
  {
    hide Put, Split, SplitFrom, Oct, PadStart;
    var split := SplitTarPathLoop(e.path);
    if split.Err? { return Err(split.error); }
    SplitIsComplete(e.path);
    var n := Encoded(e);
    if n.Err? { return Err(n.error); }
    var h := new byte[BLOCK](_ => 0);
    assert h[..] == Fill(0, BLOCK);
    Write(h, 0, split.value.0);
    WriteNumbers(h, n.value);
    WriteMarks(h, e.directory);
    Write(h, 345, split.value.1);
    ghost var unsummed := h[..];
    assert unsummed == Unsummed(split.value.0, split.value.1, n.value, e.directory);
    var sum: nat := 0;
    for index := 0 to BLOCK
      invariant h[..] == unsummed && sum == Sum(unsummed[..index])
    {
      sum := sum + h[index];
      assert unsummed[..index + 1][..index] == unsummed[..index];
    }
    assert unsummed[..BLOCK] == unsummed;
    SumFits(unsummed);
    Write(h, 148, SumField(sum));
    r := Ok(h[..]);
  }

  method WriteNumbers(h: array<byte>, n: Numbers)
    requires h.Length == BLOCK && n.Fit()
    modifies h
    ensures h[..] == WithNumbers(old(h[..]), n)
  {
    hide Put;
    Write(h, 100, n.mode);
    Write(h, 108, n.uid);
    Write(h, 116, n.gid);
    Write(h, 124, n.size);
    Write(h, 136, NO_TIME);
  }

  method WriteMarks(h: array<byte>, directory: bool)
    requires h.Length == BLOCK
    modifies h
    ensures h[..] == WithMarks(old(h[..]), directory)
  {
    hide Put;
    Write(h, 148, SPACES);
    Write(h, 156, [TypeFlag(directory)]);
    Write(h, 257, MAGIC);
    Write(h, 263, VERSION);
  }

  // ---------------------------------------------------------------- reading a header

  function UpToNul(s: Bytes): Bytes {
    if s == [] || s[0] == 0 then [] else [s[0]] + UpToNul(s[1..])
  }

  lemma {:induction false} UpToNulIs(s: Bytes, k: nat)
    requires 0 !in s
    ensures UpToNul(s + Fill(0, k)) == s
  {
    if s != [] {
      UpToNulIs(s[1..], k);
      assert (s + Fill(0, k))[1..] == s[1..] + Fill(0, k);
    }
  }

  function Number(b: Bytes, at: nat, n: nat): nat
    requires at + n <= |b|
  {
    Value(Lead(At(b, at, n)))
  }

  predicate Genuine(b: Bytes)
    requires |b| == BLOCK
  {
    && At(b, 257, 6) == MAGIC && At(b, 263, 2) == VERSION
    && Number(b, 148, 8) == Sum(Put(b, 148, SPACES))
    && b[156] in {TypeFlag(true), TypeFlag(false)}
  }

  /** The entry a header describes, without its content, and the content's length. */
  function ReadHeader(b: Bytes): (Entry, nat)
    requires |b| == BLOCK && Genuine(b)
  {
    (Entry(Rejoined(UpToNul(At(b, 0, 100)), UpToNul(At(b, 345, 155))), b[156] == TypeFlag(true),
           Number(b, 100, 8), Number(b, 108, 8), Number(b, 116, 8), []),
     Number(b, 124, 12))
  }

  // Where the fields of a header are, one write at a time.

  lemma NumbersReadBack(s: Bytes, n: Numbers)
    requires |s| == BLOCK && n.Fit()
    ensures var r := WithNumbers(s, n);
            At(r, 100, 8) == n.mode && At(r, 108, 8) == n.uid && At(r, 116, 8) == n.gid && At(r, 124, 12) == n.size
    ensures At(WithNumbers(s, n), 0, 100) == At(s, 0, 100) && At(WithNumbers(s, n), 148, 364) == At(s, 148, 364)
  {
    hide Put, At;
    var a := Put(s, 100, n.mode);
    var b := Put(a, 108, n.uid);
    var c := Put(b, 116, n.gid);
    var d := Put(c, 124, n.size);
    Hit(s, 100, n.mode); Hit(a, 108, n.uid); Hit(b, 116, n.gid); Hit(c, 124, n.size);
    Miss(a, 108, n.uid, 100, 8); Miss(b, 116, n.gid, 100, 8); Miss(c, 124, n.size, 100, 8); Miss(d, 136, NO_TIME, 100, 8);
    Miss(b, 116, n.gid, 108, 8); Miss(c, 124, n.size, 108, 8); Miss(d, 136, NO_TIME, 108, 8);
    Miss(c, 124, n.size, 116, 8); Miss(d, 136, NO_TIME, 116, 8);
    Miss(d, 136, NO_TIME, 124, 12);
    Miss(s, 100, n.mode, 0, 100); Miss(a, 108, n.uid, 0, 100); Miss(b, 116, n.gid, 0, 100);
    Miss(c, 124, n.size, 0, 100); Miss(d, 136, NO_TIME, 0, 100);
    Miss(s, 100, n.mode, 148, 364); Miss(a, 108, n.uid, 148, 364); Miss(b, 116, n.gid, 148, 364);
    Miss(c, 124, n.size, 148, 364); Miss(d, 136, NO_TIME, 148, 364);
  }

  lemma MarksReadBack(s: Bytes, directory: bool)
    requires |s| == BLOCK
    ensures var r := WithMarks(s, directory);
            At(r, 148, 8) == SPACES && At(r, 156, 1) == [TypeFlag(directory)] && At(r, 257, 6) == MAGIC && At(r, 263, 2) == VERSION
    ensures At(WithMarks(s, directory), 0, 148) == At(s, 0, 148) && At(WithMarks(s, directory), 345, 155) == At(s, 345, 155)
  {
    hide Put, At;
    var t := [TypeFlag(directory)];
    var a := Put(s, 148, SPACES);
    var b := Put(a, 156, t);
    var c := Put(b, 257, MAGIC);
    Hit(s, 148, SPACES); Hit(a, 156, t); Hit(b, 257, MAGIC); Hit(c, 263, VERSION);
    Miss(a, 156, t, 148, 8); Miss(b, 257, MAGIC, 148, 8); Miss(c, 263, VERSION, 148, 8);
    Miss(b, 257, MAGIC, 156, 1); Miss(c, 263, VERSION, 156, 1); Miss(c, 263, VERSION, 257, 6);
    Miss(s, 148, SPACES, 0, 148); Miss(a, 156, t, 0, 148); Miss(b, 257, MAGIC, 0, 148); Miss(c, 263, VERSION, 0, 148);
    Miss(s, 148, SPACES, 345, 155); Miss(a, 156, t, 345, 155); Miss(b, 257, MAGIC, 345, 155); Miss(c, 263, VERSION, 345, 155);
  }

  lemma AtAt(s: Bytes, a: nat, n: nat, b: nat, m: nat)
    requires a + n <= |s| && a <= b && b + m <= a + n
    ensures At(At(s, a, n), b - a, m) == At(s, b, m)
  {
    forall i | 0 <= i < m ensures At(At(s, a, n), b - a, m)[i] == At(s, b, m)[i] {
      assert s[a..a + n][b - a + i] == s[b + i];
    }
  }

  lemma NarrowAt(s: Bytes, t: Bytes, a: nat, n: nat, b: nat, m: nat)
    requires a + n <= |s| && a + n <= |t| && a <= b && b + m <= a + n
    requires At(s, a, n) == At(t, a, n)
    ensures At(s, b, m) == At(t, b, m)
  {
    AtAt(s, a, n, b, m);
    AtAt(t, a, n, b, m);
  }

  /** Every field of the finished header. */
  lemma FieldsReadBack(name: Bytes, prefix: Bytes, n: Numbers, directory: bool, u: Bytes)
    requires |name| <= 100 && |prefix| <= 155 && n.Fit() && u == Unsummed(name, prefix, n, directory)
    ensures At(u, 148, 8) == SPACES
    ensures At(u, 100, 8) == n.mode && At(u, 108, 8) == n.uid && At(u, 116, 8) == n.gid && At(u, 124, 12) == n.size
    ensures At(u, 156, 1) == [TypeFlag(directory)] && At(u, 257, 6) == MAGIC && At(u, 263, 2) == VERSION
    ensures At(u, 0, 100) == name + Fill(0, 100 - |name|) && At(u, 345, 155) == prefix + Fill(0, 155 - |prefix|)
  {
    hide Put, At, WithNumbers, WithMarks, Fill;
    var z := Fill(0, BLOCK);
    assert |z| == BLOCK by { FillLength(0, BLOCK); }
    var s := Put(z, 0, name);
    var w := WithNumbers(s, n);
    var m := WithMarks(w, directory);
    assert u == Put(m, 345, prefix);
    NumbersReadBack(s, n);
    MarksReadBack(w, directory);
    NarrowAt(m, w, 0, 148, 100, 8);
    NarrowAt(m, w, 0, 148, 108, 8);
    NarrowAt(m, w, 0, 148, 116, 8);
    NarrowAt(m, w, 0, 148, 124, 12);
    NarrowAt(m, w, 0, 148, 0, 100);
    NarrowAt(w, s, 148, 364, 345, 155);
    NameField(name);
    PrefixField(m, prefix);
    Miss(z, 0, name, 345, 155);
    ZeroField(345, 155);
    Miss(m, 345, prefix, 148, 8);
    Miss(m, 345, prefix, 156, 1);
    Miss(m, 345, prefix, 257, 6);
    Miss(m, 345, prefix, 263, 2);
    Miss(m, 345, prefix, 100, 8);
    Miss(m, 345, prefix, 108, 8);
    Miss(m, 345, prefix, 116, 8);
    Miss(m, 345, prefix, 124, 12);
    Miss(m, 345, prefix, 0, 100);
  }

  lemma FillLength(b: byte, n: nat)
    ensures |Fill(b, n)| == n
  {
  }

  lemma ZeroField(at: nat, n: nat)
    requires at + n <= BLOCK
    ensures At(Fill(0, BLOCK), at, n) == Fill(0, n)
  {
  }

  lemma NameField(name: Bytes)
    requires |name| <= 100
    ensures At(Put(Fill(0, BLOCK), 0, name), 0, 100) == name + Fill(0, 100 - |name|)
  {
  }

  lemma PrefixField(m: Bytes, prefix: Bytes)
    requires |m| == BLOCK && |prefix| <= 155
    ensures At(m, 345, 155) == Fill(0, 155) ==> At(Put(m, 345, prefix), 345, 155) == prefix + Fill(0, 155 - |prefix|)
  {
    if At(m, 345, 155) == Fill(0, 155) {
      var r := At(Put(m, 345, prefix), 345, 155);
      forall i | |prefix| <= i < 155 ensures r[i] == 0 {
        assert r[i] == m[345 + i] == At(m, 345, 155)[i];
      }
    }
  }

  /** The checksum is what a reader recomputes, and the other fields stay. */
  lemma SummedReadsBack(u: Bytes)
    requires |u| == BLOCK && At(u, 148, 8) == SPACES
    ensures Number(Summed(u), 148, 8) == Sum(Put(Summed(u), 148, SPACES))
    ensures forall at: nat, n: nat :: at + n <= BLOCK && (at + n <= 148 || 156 <= at) ==> At(Summed(u), at, n) == At(u, at, n)
  {
    hide Put, At, Sum;
    SumFits(u);
    var field := SumField(Sum(u));
    var h := Put(u, 148, field);
    Hit(u, 148, field);
    PaddedValue(Sum(u), 6);
    LeadStops(PadStart(Oct(Sum(u)), 6), 0, [SPACE]);
    assert PadStart(Oct(Sum(u)), 6) + [0] + [SPACE] == field;
    PutTwice(u, 148, field, SPACES);
    PutBack(u, 148, 8);
    forall at: nat, n: nat | at + n <= BLOCK && (at + n <= 148 || 156 <= at) ensures At(h, at, n) == At(u, at, n) {
      Miss(u, 148, field, at, n);
    }
  }

  /** A path a reader can get back: no NUL in it, and not a slash followed by 100 bytes
      without another one. */
  predicate Portable(p: Bytes) {
    0 !in p && !(|p| == 101 && p[0] == SLASH && forall i :: 0 < i < |p| ==> p[i] != SLASH)
  }

  lemma PathReadsBack(p: Bytes)
    requires Portable(p) && SplitTarPath(p).Ok?
    ensures var v := SplitTarPath(p).value;
            |v.0| <= 100 && |v.1| <= 155 &&
            Rejoined(UpToNul(v.0 + Fill(0, 100 - |v.0|)), UpToNul(v.1 + Fill(0, 155 - |v.1|))) == p
  {
    hide Split, SplitFrom, SplitTarPath, UpToNul, Storable;
    var v := SplitTarPath(p).value;
    SplitIsComplete(p);
    SplitReadsBackIff(p);
    assert Rejoined(v.0, v.1) == p;
    assert forall i :: 0 <= i < |v.1| ==> v.1[i] == p[i];
    assert forall i :: 0 <= i < |v.0| ==> v.0[i] == p[i + (|p| - |v.0|)];
    UpToNulIs(v.0, 100 - |v.0|);
    UpToNulIs(v.1, 155 - |v.1|);
  }

  lemma NumbersAre(e: Entry)
    requires Encoded(e).Ok?
    ensures var n := Encoded(e).value;
            Value(Lead(n.mode)) == e.mode && Value(Lead(n.uid)) == e.uid && Value(Lead(n.gid)) == e.gid && Value(Lead(n.size)) == |e.content|
  {
    hide TarOctal, Lead, Value;
    OctalFieldReadsBack(e.mode, 8);
    OctalFieldReadsBack(e.uid, 8);
    OctalFieldReadsBack(e.gid, 8);
    OctalFieldReadsBack(|e.content|, 12);
  }

  lemma HeaderReadsBack(e: Entry)
    requires Header(e).Ok? && Portable(e.path)
    ensures var h := Header(e).value; Number(h, 148, 8) == Sum(Put(h, 148, Fill(32, 8)))
    ensures Genuine(Header(e).value) && ReadHeader(Header(e).value) == (e.(content := []), |e.content|)
  {
    hide Put, At, Sum, Lead, Value, UpToNul, Split, SplitFrom, Encoded, Unsummed, Summed, SplitTarPath, Rejoined, Fill;
    SplitIsComplete(e.path);
    var v := SplitTarPath(e.path).value;
    var n := Encoded(e).value;
    var u := Unsummed(v.0, v.1, n, e.directory);
    var h := Summed(u);
    assert h == Header(e).value;
    FieldsReadBack(v.0, v.1, n, e.directory, u);
    SummedReadsBack(u);
    NumbersAre(e);
    PathReadsBack(e.path);
    FirstOf(h, 156);
    assert At(h, 156, 1) == At(u, 156, 1);
    assert At(h, 0, 100) == At(u, 0, 100);
    assert At(h, 345, 155) == At(u, 345, 155);
    assert h[156] == TypeFlag(e.directory);
  }

  lemma PutIndex(s: Bytes, at: nat, b: Bytes, i: nat)
    requires at + |b| <= |s| && i < |s|
    ensures Put(s, at, b)[i] == if at <= i < at + |b| then b[i - at] else s[i]
  {
  }

  /** The bytes of a header that no reader asks for: the time is zero, the sum ends in NUL and
      a space, the magic and the version are those of the format and the rest is empty. */
  lemma HeaderLayout(e: Entry, i: nat)
    requires Header(e).Ok? && i < 512
    ensures var h := Header(e).value;
            && (136 <= i < 147 ==> h[i] == 48)
            && (148 <= i < 154 ==> 48 <= h[i] <= 55)
            && (i in {147, 154} ==> h[i] == 0) && h[155] == 32
            && h[156] == (if e.directory then 53 else 48)
            && h[257..265] == [117, 115, 116, 97, 114, 0, 48, 48]
            && (157 <= i < 257 || 265 <= i < 345 || 500 <= i ==> h[i] == 0)
  {
    hide Put, Sum, PadStart, Oct, SplitTarPath, Encoded;
    SplitIsComplete(e.path);
    var v, n := SplitTarPath(e.path).value, Encoded(e).value;
    var u := Unsummed(v.0, v.1, n, e.directory);
    SumFits(u);
    PaddedValue(Sum(u), 6);
    UnsummedLayout(v.0, v.1, n, e.directory, i);
    PutIndex(u, 148, SumField(Sum(u)), i);
    forall k | 155 <= k < 500 ensures Header(e).value[k] == if k == 155 then 32 else u[k] { PutIndex(u, 148, SumField(Sum(u)), k); }
    forall k | 156 <= k < 265 ensures k == 156 ==> u[k] == TypeFlag(e.directory) { UnsummedLayout(v.0, v.1, n, e.directory, k); }
    forall k | 257 <= k < 265 ensures u[k] == [117, 115, 116, 97, 114, 0, 48, 48][k - 257] { UnsummedLayout(v.0, v.1, n, e.directory, k); }
  }

  lemma UnsummedLayout(name: Bytes, prefix: Bytes, n: Numbers, directory: bool, i: nat)
    requires |name| <= 100 && |prefix| <= 155 && n.Fit() && i < 512
    ensures var u := Unsummed(name, prefix, n, directory);
            && (136 <= i < 147 ==> u[i] == 48)
            && (i == 147 ==> u[i] == 0)
            && (i == 156 ==> u[i] == TypeFlag(directory))
            && (257 <= i < 265 ==> u[i] == [117, 115, 116, 97, 114, 0, 48, 48][i - 257])
            && (157 <= i < 257 || 265 <= i < 345 || 500 <= i ==> u[i] == 0)
  {
    hide Put;
    var z := Fill(0, BLOCK);
    var s := Put(z, 0, name);
    var w := WithNumbers(s, n);
    var m := WithMarks(w, directory);
    PutIndex(m, 345, prefix, i);
    MarksLayout(w, directory, i);
    NumbersLayout(s, n, i);
    PutIndex(z, 0, name, i);
  }

  lemma MarksLayout(s: Bytes, directory: bool, i: nat)
    requires |s| == BLOCK && i < 512
    ensures var r := WithMarks(s, directory);
            && (i == 156 ==> r[i] == TypeFlag(directory))
            && (257 <= i < 265 ==> r[i] == [117, 115, 116, 97, 114, 0, 48, 48][i - 257])
            && (i < 148 || 157 <= i < 257 || 265 <= i ==> r[i] == s[i])
  {
    hide Put;
    var a := Put(s, 148, SPACES);
    var b := Put(a, 156, [TypeFlag(directory)]);
    var c := Put(b, 257, MAGIC);
    PutIndex(c, 263, VERSION, i);
    PutIndex(b, 257, MAGIC, i);
    PutIndex(a, 156, [TypeFlag(directory)], i);
    PutIndex(s, 148, SPACES, i);
  }

  lemma NumbersLayout(s: Bytes, n: Numbers, i: nat)
    requires |s| == BLOCK && n.Fit() && i < 512
    ensures var r := WithNumbers(s, n);
            && (136 <= i < 147 ==> r[i] == 48)
            && (i == 147 ==> r[i] == 0)
            && (148 <= i ==> r[i] == s[i])
  {
    hide Put;
    var a := Put(s, 100, n.mode);
    var b := Put(a, 108, n.uid);
    var c := Put(b, 116, n.gid);
    var d := Put(c, 124, n.size);
    PutIndex(d, 136, NO_TIME, i);
    PutIndex(c, 124, n.size, i);
    PutIndex(b, 116, n.gid, i);
    PutIndex(a, 108, n.uid, i);
    PutIndex(s, 100, n.mode, i);
  }

  lemma FirstOf(s: Bytes, at: nat)
    requires at < |s|
    ensures At(s, at, 1) == [s[at]]
  {
  }

  // ---------------------------------------------------------------- a whole archive

  function Padding(n: nat): nat {
    (BLOCK - n % BLOCK) % BLOCK
  }

  function Padded(content: Bytes): (r: Bytes)
    ensures |r| % BLOCK == 0 && |r| < |content| + 512
    ensures forall i :: |content| <= i < |r| ==> r[i] == 0
  {
    content + Fill(0, Padding(|content|))
  }

  function MemberBytes(e: Entry): Result<Bytes> {
    var h := Header(e);
    if h.Err? then Err(h.error) else Ok(h.value + Padded(e.content))
  }

  /** The bytes of the members, before the end marker; the first error otherwise. */
  function Body(es: seq<Entry>): Result<Bytes> {
    if es == [] then Ok([])
    else
      var front := Body(es[..|es| - 1]);
      if front.Err? then front
      else
        var last := MemberBytes(es[|es| - 1]);
        if last.Err? then last else Ok(front.value + last.value)
  }

  lemma {:induction false} BodyIsBlocks(es: seq<Entry>)
    requires Body(es).Ok?
    ensures |Body(es).value| % BLOCK == 0
  {
    hide Header;
    if es != [] {
      BodyIsBlocks(es[..|es| - 1]);
      assert MemberBytes(es[|es| - 1]).value == Header(es[|es| - 1]).value + Padded(es[|es| - 1].content);
    }
  }

  const END: Bytes := Fill(0, 2 * BLOCK)

  function Archive(es: seq<Entry>): Result<Bytes> {
    var body := Body(es);
    if body.Err? then body else Ok(body.value + END)
  }

  /** The reader: members until two zero blocks, nothing after them. */
  function Read(b: Bytes): Result<seq<Entry>>
    decreases |b|
  {
    if b == END then Ok([])
    else if |b| < BLOCK || !Genuine(b[..BLOCK]) then Err(TooLarge)
    else
      var (e, size) := ReadHeader(b[..BLOCK]);
      var end := BLOCK + size + Padding(size);
      if end > |b| then Err(TooLarge)
      else
        var rest := Read(b[end..]);
        if rest.Err? then rest else Ok([e.(content := b[BLOCK..BLOCK + size])] + rest.value)
  }

  lemma ReadOne(e: Entry, b: Bytes, rest: Bytes)
    requires MemberBytes(e).Ok? && Portable(e.path)
    requires b == MemberBytes(e).value + rest
    ensures Read(b) == if Read(rest).Err? then Read(rest) else Ok([e] + Read(rest).value)
  {
    hide Header, ReadHeader, Genuine;
    HeaderReadsBack(e);
    var h := Header(e).value;
    assert b == h + Padded(e.content) + rest;
    assert b[..BLOCK] == h;
    var size := |e.content|;
    assert b[BLOCK..BLOCK + size] == e.content;
    assert b[BLOCK + size + Padding(size)..] == rest;
    GenuineIsNotEnd(h, b);
  }

  lemma GenuineIsNotEnd(h: Bytes, b: Bytes)
    requires |h| == BLOCK && Genuine(h) && |b| >= BLOCK && b[..BLOCK] == h
    ensures b != END
  {
    assert At(h, 257, 6)[0] == h[257] == b[257];
    assert END[257] == 0;
  }

  lemma {:induction false} ReadBody(es: seq<Entry>, rest: Bytes)
    requires Body(es).Ok? && forall i :: 0 <= i < |es| ==> Portable(es[i].path)
    requires Read(rest).Ok?
    ensures Read(Body(es).value + rest) == Ok(es + Read(rest).value)
  {
    hide MemberBytes, Read;
    if es == [] {
      assert Body(es).value + rest == rest;
      assert [] + Read(rest).value == Read(rest).value;
    } else {
      var front, e := es[..|es| - 1], es[|es| - 1];
      var member := MemberBytes(e).value;
      ReadOne(e, member + rest, rest);
      ReadBody(front, member + rest);
      Associate(Body(front).value, member, rest);
      assert front + [e] == es;
      assert front + ([e] + Read(rest).value) == es + Read(rest).value;
    }
  }

  lemma Associate(a: Bytes, b: Bytes, c: Bytes)
    ensures a + (b + c) == (a + b) + c
  {
  }

  lemma ReadEnd()
    ensures Read(END) == Ok([])
  {
    hide Genuine, ReadHeader, Padding;
  }

  /** Reading back an archive gives exactly the members written, in order. */
  lemma ArchiveReadsBack(es: seq<Entry>)
    requires Archive(es).Ok? && forall i :: 0 <= i < |es| ==> Portable(es[i].path)
    ensures Read(Archive(es).value) == Ok(es) && |Archive(es).value| % BLOCK == 0
  {
    hide Read, Body, Fill;
    ReadEnd();
    ReadBody(es, END);
    BodyIsBlocks(es);
    assert es + [] == es;
    FillLength(0, 2 * BLOCK);
  }

  ghost predicate Packable(e: Entry) {
    Storable(e.path) && e.mode < Pow8(7) && e.uid < Pow8(7) && e.gid < Pow8(7) && |e.content| < Pow8(11)
  }

  lemma HeaderFails(e: Entry)
    ensures Header(e).Ok? <==> Packable(e)
  {
    hide TarOctal, Storable, SplitTarPath;
    SplitIsComplete(e.path);
    OctalFieldReadsBack(e.mode, 8);
    OctalFieldReadsBack(e.uid, 8);
    OctalFieldReadsBack(e.gid, 8);
    OctalFieldReadsBack(|e.content|, 12);
  }

  /** Packing fails only when some member cannot be held by the format. */
  lemma {:induction false} ArchiveFailsIff(es: seq<Entry>)
    ensures Archive(es).Ok? <==> forall i :: 0 <= i < |es| ==> Packable(es[i])
  {
    hide Header, Packable;
    if es != [] {
      ArchiveFailsIff(es[..|es| - 1]);
      HeaderFails(es[|es| - 1]);
      assert forall i :: 0 <= i < |es| - 1 ==> es[..|es| - 1][i] == es[i];
    }
  }

  // ---------------------------------------------------------------- which members

  /** The directories a path lies in, outermost first. */
  function Parents(p: Bytes): (ds: seq<Bytes>)
    ensures |ds| == |Split(p)| - 1
  {
    seq(|Split(p)| - 1, i requires 0 <= i < |Split(p)| - 1 => Join(Split(p)[..i + 1]))
  }

  /** `d` is a directory on the way to `p`: what comes before one of its slashes. */
  ghost predicate LiesIn(p: Bytes, d: Bytes) {
    exists i :: 0 <= i < |p| && p[i] == 47 && d == p[..i]
  }

  lemma ParentsAre(p: Bytes, d: Bytes)
    ensures d in Parents(p) <==> LiesIn(p, d)
  {
    hide Split, Join;
    if d in Parents(p) {
      var k :| 0 <= k < |Split(p)| - 1 && d == Join(Split(p)[..k + 1]);
      SplitAt(p, k + 1);
      assert p[|d|] == SLASH && p[..|d|] == d;
    }
    if LiesIn(p, d) {
      var i :| 0 <= i < |p| && p[i] == 47 && d == p[..i];
      var k := SlashIsSplit(p, i);
      assert Parents(p)[k - 1] == d;
    }
  }

  lemma {:induction false} SeenAre(files: seq<File>, d: Bytes)
    ensures d in SeenAfter(files) <==> exists i :: 0 <= i < |files| && LiesIn(files[i].path, d)
  {
    hide LiesIn, Parents;
    if files != [] {
      var front := files[..|files| - 1];
      SeenAre(front, d);
      ParentsAre(files[|files| - 1].path, d);
      assert forall i :: 0 <= i < |front| ==> front[i] == files[i];
    }
  }

  function Directory(p: Bytes, uid: nat, gid: nat): Entry {
    Entry(p, true, 0x1ED, uid, gid, [])
  }

  function Regular(f: File, uid: nat, gid: nat): Entry {
    Entry(f.path, false, if f.executable then 0x1ED else 0x1A4, uid, gid, f.data)
  }

  /** The members written for the first files, in order. */
  function DirectoryMembers(ds: seq<Bytes>, seen: set<Bytes>, uid: nat, gid: nat): seq<Entry> {
    if ds == [] then []
    else
      var front := DirectoryMembers(ds[..|ds| - 1], seen, uid, gid);
      var d := ds[|ds| - 1];
      if d in seen || d in ds[..|ds| - 1] then front else front + [Directory(d, uid, gid)]
  }

  function Elements(ds: seq<Bytes>): set<Bytes> {
    set d | d in ds
  }

  lemma OneMore(ds: seq<Bytes>, k: nat)
    requires k < |ds|
    ensures Elements(ds[..k + 1]) == Elements(ds[..k]) + {ds[k]}
  {
    assert ds[..k + 1] == ds[..k] + [ds[k]];
  }

  /** The directories in the archive after these files. */
  function SeenAfter(files: seq<File>): set<Bytes> {
    if files == [] then {} else SeenAfter(files[..|files| - 1]) + Elements(Parents(files[|files| - 1].path))
  }

  function Members(files: seq<File>, uid: nat, gid: nat): seq<Entry> {
    if files == [] then []
    else
      var front, f := files[..|files| - 1], files[|files| - 1];
      Members(front, uid, gid) + (DirectoryMembers(Parents(f.path), SeenAfter(front), uid, gid) + [Regular(f, uid, gid)])
  }

  const MAX_OWNER: nat := 0x1FFFFF

  function Concat(parts: seq<Bytes>): Bytes {
    if parts == [] then [] else Concat(parts[..|parts| - 1]) + parts[|parts| - 1]
  }

  lemma ConcatPush(parts: seq<Bytes>, p: Bytes)
    ensures Concat(parts + [p]) == Concat(parts) + p
  {
    assert (parts + [p])[..|parts|] == parts;
  }

  lemma BodyPush(es: seq<Entry>, e: Entry)
    ensures Body(es + [e]) ==
            if Body(es).Err? then Body(es)
            else if MemberBytes(e).Err? then MemberBytes(e) else Ok(Body(es).value + MemberBytes(e).value)
  {
    hide MemberBytes;
    assert (es + [e])[..|es|] == es;
  }

  lemma {:induction false} BodyStays(es: seq<Entry>, more: seq<Entry>)
    requires Body(es).Err?
    ensures Body(es + more) == Body(es)
  {
    hide MemberBytes;
    if more == [] {
      assert es + more == es;
    } else {
      BodyStays(es, more[..|more| - 1]);
      assert (es + more)[..|es + more| - 1] == es + more[..|more| - 1];
    }
  }

  lemma {:induction false} MembersOfPrefix(files: seq<File>, i: nat, uid: nat, gid: nat) returns (more: seq<Entry>)
    requires i <= |files|
    ensures Members(files, uid, gid) == Members(files[..i], uid, gid) + more
  {
    if i == |files| {
      assert files[..i] == files;
      more := [];
    } else {
      var front, f := files[..|files| - 1], files[|files| - 1];
      more := MembersOfPrefix(front, i, uid, gid);
      assert front[..i] == files[..i];
      more := more + (DirectoryMembers(Parents(f.path), SeenAfter(front), uid, gid) + [Regular(f, uid, gid)]);
    }
  }

  /** The ancestors of one file that are not in the archive yet. */
  method AddDirectories(f: File, uid: nat, gid: nat, directories: set<Bytes>, parts: seq<Bytes>, ghost done: seq<Entry>)
    returns (r: Result<seq<Bytes>>, seen: set<Bytes>)
    requires Body(done) == Ok(Concat(parts))
    ensures seen == directories + Elements(Parents(f.path)) || r.Err?
    ensures var es := done + DirectoryMembers(Parents(f.path), directories, uid, gid);
            if r.Ok? then Body(es) == Ok(Concat(r.value)) else Body(es) == Err(r.error)
  {
    hide MemberBytes, Split, Body, DirectoryMembers;
    var segments := Split(f.path);
    ghost var ds := Parents(f.path);
    var out := parts;
    seen := directories;
    NoDirectories(done, ds, directories, uid, gid);
    for end := 1 to |segments|
      invariant seen == directories + Elements(ds[..end - 1])
      invariant Body(done + DirectoryMembers(ds[..end - 1], directories, uid, gid)) == Ok(Concat(out))
    {
      var directory := Join(segments[..end]);
      assert ds[end - 1] == directory;
      OneMore(ds, end - 1);
      ghost var before := done + DirectoryMembers(ds[..end - 1], directories, uid, gid);
      NextDirectory(done, ds, end - 1, directories, uid, gid);
      if directory !in seen {
        var e := Directory(directory, uid, gid);
        DirectoryHeader(e);
        BodyPush(before, e);
        var h := TarHeader(e);
        if h.Err? {
          DirectoriesStay(done, ds, end, directories, uid, gid);
          return Err(h.error), seen;
        }
        ConcatPush(out, h.value);
        out := out + [h.value];
        seen := seen + {directory};
      }
    }
    assert ds[..|segments| - 1] == ds;
    r := Ok(out);
  }

  lemma NoDirectories(done: seq<Entry>, ds: seq<Bytes>, seen: set<Bytes>, uid: nat, gid: nat)
    ensures Elements(ds[..0]) == {} && done + DirectoryMembers(ds[..0], seen, uid, gid) == done
  {
  }

  lemma NextDirectory(done: seq<Entry>, ds: seq<Bytes>, k: nat, seen: set<Bytes>, uid: nat, gid: nat)
    requires k < |ds|
    ensures done + DirectoryMembers(ds[..k + 1], seen, uid, gid) ==
            if ds[k] in seen + Elements(ds[..k]) then done + DirectoryMembers(ds[..k], seen, uid, gid)
            else done + DirectoryMembers(ds[..k], seen, uid, gid) + [Directory(ds[k], uid, gid)]
  {
    assert ds[..k + 1][..k] == ds[..k];
  }

  lemma DirectoryHeader(e: Entry)
    requires e.content == []
    ensures MemberBytes(e) == Header(e)
  {
    assert forall h: Bytes :: h + Padded([]) == h;
  }

  lemma {:induction false} DirectoriesStay(done: seq<Entry>, ds: seq<Bytes>, k: nat, seen: set<Bytes>, uid: nat, gid: nat)
    requires k <= |ds| && Body(done + DirectoryMembers(ds[..k], seen, uid, gid)).Err?
    ensures Body(done + DirectoryMembers(ds, seen, uid, gid)) == Body(done + DirectoryMembers(ds[..k], seen, uid, gid))
    decreases |ds|
  {
    hide MemberBytes;
    if k == |ds| {
      assert ds[..k] == ds;
    } else {
      var front := ds[..|ds| - 1];
      assert front[..k] == ds[..k];
      DirectoriesStay(done, front, k, seen, uid, gid);
      var es := done + DirectoryMembers(front, seen, uid, gid);
      var d := ds[|ds| - 1];
      if !(d in seen || d in front) {
        BodyPush(es, Directory(d, uid, gid));
        assert es + [Directory(d, uid, gid)] == done + DirectoryMembers(ds, seen, uid, gid);
      }
    }
  }

  method AddFile(f: File, uid: nat, gid: nat, parts: seq<Bytes>, ghost done: seq<Entry>) returns (r: Result<seq<Bytes>>)
    requires Body(done) == Ok(Concat(parts))
    ensures if r.Ok? then Body(done + [Regular(f, uid, gid)]) == Ok(Concat(r.value)) else Body(done + [Regular(f, uid, gid)]) == Err(r.error)
  {
    hide Header;
    var e := Regular(f, uid, gid);
    BodyPush(done, e);
    var h := TarHeader(e);
    if h.Err? { return Err(h.error); }
    var out := parts + [h.value];
    ConcatPush(parts, h.value);
    ConcatPush(out, f.data);
    out := out + [f.data];
    var padding := (BLOCK - |f.data| % BLOCK) % BLOCK;
    ghost var filled := Concat(out) + Fill(0, padding);
    Associate(Concat(parts) + h.value, f.data, Fill(0, padding));
    Associate(Concat(parts), h.value, Padded(f.data));
    if padding > 0 {
      ConcatPush(out, Fill(0, padding));
      out := out + [Fill(0, padding)];
    } else {
      assert filled == Concat(out);
    }
    r := Ok(out);
  }

  /** The archive of a list of files: every missing directory, then the file. */
  method BuildTarArchive(files: seq<File>, uid: int, gid: int) returns (r: Result<Bytes>)
    ensures r == if 0 <= uid <= 2097151 && 0 <= gid <= 2097151 then Archive(Members(files, uid, gid)) else Err(BadOwner)
  {
    hide Body, Members, Fill;
    if !(0 <= uid <= MAX_OWNER && 0 <= gid <= MAX_OWNER) { return Err(BadOwner); }
    var parts: seq<Bytes> := [];
    var directories: set<Bytes> := {};
    NothingYet(uid, gid);
    for i := 0 to |files|
      invariant directories == SeenAfter(files[..i])
      invariant Body(Members(files[..i], uid, gid)) == Ok(Concat(parts))
    {
      MembersPush(files, i, uid, gid);
      ghost var done := Members(files[..i], uid, gid);
      ghost var withDirectories := done + DirectoryMembers(Parents(files[i].path), directories, uid, gid);
      var more, seen := AddDirectories(files[i], uid, gid, directories, parts, done);
      if more.Err? {
        BodyStays(withDirectories, [Regular(files[i], uid, gid)]);
        PrefixFails(files, i + 1, uid, gid);
        return Err(more.error);
      }
      var whole := AddFile(files[i], uid, gid, more.value, withDirectories);
      if whole.Err? {
        PrefixFails(files, i + 1, uid, gid);
        return Err(whole.error);
      }
      parts, directories := whole.value, seen;
    }
    assert files[..|files|] == files;
    ConcatPush(parts, END);
    parts := parts + [END];
    r := Ok(Concat(parts));
  }

  lemma NothingYet(uid: nat, gid: nat)
    ensures SeenAfter([]) == {} && Body(Members([], uid, gid)) == Ok(Concat([]))
  {
  }

  lemma MembersPush(files: seq<File>, i: nat, uid: nat, gid: nat)
    requires i < |files|
    ensures SeenAfter(files[..i + 1]) == SeenAfter(files[..i]) + Elements(Parents(files[i].path))
    ensures Members(files[..i + 1], uid, gid) ==
            Members(files[..i], uid, gid) + DirectoryMembers(Parents(files[i].path), SeenAfter(files[..i]), uid, gid) + [Regular(files[i], uid, gid)]
  {
    hide Parents;
    assert files[..i + 1][..i] == files[..i];
  }

  lemma PrefixFails(files: seq<File>, i: nat, uid: nat, gid: nat)
    requires i <= |files| && Body(Members(files[..i], uid, gid)).Err?
    ensures Body(Members(files, uid, gid)) == Body(Members(files[..i], uid, gid))
  {
    var more := MembersOfPrefix(files, i, uid, gid);
    BodyStays(Members(files[..i], uid, gid), more);
  }

  // ---------------------------------------------------------------- the order of the members

  lemma {:induction false} PiecesHaveNoSlash(p: Bytes)
    ensures forall i :: 0 <= i < |Split(p)| ==> SLASH !in Split(p)[i]
  {
    if p != [] { PiecesHaveNoSlash(p[1..]); }
  }

  lemma {:induction false} SplitPiece(x: Bytes)
    requires SLASH !in x
    ensures Split(x) == [x]
  {
    if x != [] {
      SplitPiece(x[1..]);
      assert [x[0]] + x[1..] == x;
    }
  }

  lemma {:induction false} SplitJoin(parts: seq<Bytes>)
    requires parts != [] && forall i :: 0 <= i < |parts| ==> SLASH !in parts[i]
    ensures Split(Join(parts)) == parts
  {
    SplitPiece(parts[0]);
    if |parts| > 1 {
      SplitJoin(parts[1..]);
      SplitAppend(parts[0], Join(parts[1..]));
      assert [parts[0]] + parts[1..] == parts;
    }
  }

  /** The directories a directory lies in are the ones before it. */
  lemma ParentsOfParent(p: Bytes, k: nat)
    requires k < |Parents(p)|
    ensures Parents(Parents(p)[k]) == Parents(p)[..k]
  {
    hide Split, Join;
    PiecesHaveNoSlash(p);
    var front := Split(p)[..k + 1];
    SplitJoin(front);
    forall i | 0 <= i < k ensures Parents(Parents(p)[k])[i] == Parents(p)[i] {
      assert front[..i + 1] == Split(p)[..i + 1];
    }
  }

  /** The path and every directory it lies in can be read back. */
  predicate AllTheWay(p: Bytes) {
    Portable(p) && forall k :: 0 <= k < |Parents(p)| ==> Portable(Parents(p)[k])
  }

  /** All relative paths without a NUL can. */
  lemma RelativeIsPortable(p: Bytes)
    requires 0 !in p && (p != [] ==> p[0] != SLASH)
    ensures AllTheWay(p)
  {
    hide Split, Join;
    forall k | 0 <= k < |Parents(p)| ensures Portable(Parents(p)[k]) {
      SplitAt(p, k + 1);
      var d := Parents(p)[k];
      assert d == [] || d[0] == p[0];
      assert forall b :: b in d ==> b in p;
    }
  }

  function Dirs(es: seq<Entry>): set<Bytes> {
    set e | e in es && e.directory :: e.path
  }

  /** Every directory once, and every member after the directories it lies in. */
  ghost predicate Ordered(es: seq<Entry>) {
    && (forall i, j :: 0 <= i < j < |es| && es[i].directory && es[j].directory ==> es[i].path != es[j].path)
    && (forall j, d :: 0 <= j < |es| && d in Parents(es[j].path) ==> d in Dirs(es[..j]))
  }

  ghost predicate AllPortable(es: seq<Entry>) {
    forall i :: 0 <= i < |es| ==> Portable(es[i].path)
  }

  lemma OrderedPush(es: seq<Entry>, e: Entry)
    requires Ordered(es) && (e.directory ==> e.path !in Dirs(es))
    requires forall d :: d in Parents(e.path) ==> d in Dirs(es)
    ensures Ordered(es + [e]) && Dirs(es + [e]) == Dirs(es) + (if e.directory then {e.path} else {})
  {
    hide Parents;
    var all := es + [e];
    forall i, j | 0 <= i < j < |all| && all[i].directory && all[j].directory ensures all[i].path != all[j].path {
      if j == |es| { assert es[i] in es; }
    }
    forall j, d | 0 <= j < |all| && d in Parents(all[j].path) ensures d in Dirs(all[..j]) {
      if j < |es| { assert all[..j] == es[..j]; } else { assert all[..j] == es; }
    }
    forall d | d in Dirs(es) + (if e.directory then {e.path} else {}) ensures d in Dirs(all) {
      if d in Dirs(es) {
        var x :| x in es && x.directory && x.path == d;
        assert x in all;
      } else {
        assert all[|es|] == e;
      }
    }
  }

  lemma {:induction false} DirectoriesOrdered(done: seq<Entry>, p: Bytes, k: nat, uid: nat, gid: nat)
    requires Ordered(done) && k <= |Parents(p)|
    ensures var es := done + DirectoryMembers(Parents(p)[..k], Dirs(done), uid, gid);
            Ordered(es) && Dirs(es) == Dirs(done) + Elements(Parents(p)[..k])
  {
    hide Parents, Ordered, Dirs, DirectoryMembers, Elements;
    var ds := Parents(p);
    if k == 0 {
      NoDirectories(done, ds, Dirs(done), uid, gid);
    } else {
      DirectoriesOrdered(done, p, k - 1, uid, gid);
      NextDirectory(done, ds, k - 1, Dirs(done), uid, gid);
      OneMore(ds, k - 1);
      var es := done + DirectoryMembers(ds[..k - 1], Dirs(done), uid, gid);
      if ds[k - 1] !in Dirs(es) {
        ParentsOfParent(p, k - 1);
        InElements(ds[..k - 1]);
        OrderedPush(es, Directory(ds[k - 1], uid, gid));
      }
    }
  }

  lemma InElements(ds: seq<Bytes>)
    ensures forall d :: d in ds <==> d in Elements(ds)
  {
  }

  /** Each parent directory is in the archive once and before its children, whatever the
      order of the files and however often they repeat a directory. */
  lemma {:induction false} MembersAreOrdered(files: seq<File>, uid: nat, gid: nat)
    ensures Ordered(Members(files, uid, gid))
    ensures Dirs(Members(files, uid, gid)) == SeenAfter(files)
  {
    hide Parents, Ordered, Dirs, DirectoryMembers, Elements;
    if files == [] {
      assert Ordered([]) && Dirs([]) == {} by { NothingOrdered(); }
    } else {
      var front, f := files[..|files| - 1], files[|files| - 1];
      MembersAreOrdered(front, uid, gid);
      var done, ds := Members(front, uid, gid), Parents(f.path);
      DirectoriesOrdered(done, f.path, |ds|, uid, gid);
      assert ds[..|ds|] == ds;
      InElements(ds);
      var es := done + DirectoryMembers(ds, Dirs(done), uid, gid);
      OrderedPush(es, Regular(f, uid, gid));
      assert Members(files, uid, gid) == es + [Regular(f, uid, gid)];
    }
  }

  lemma {:induction false} DirectoriesArePortable(ds: seq<Bytes>, seen: set<Bytes>, uid: nat, gid: nat)
    requires forall k :: 0 <= k < |ds| ==> Portable(ds[k])
    ensures AllPortable(DirectoryMembers(ds, seen, uid, gid))
  {
    if ds != [] { DirectoriesArePortable(ds[..|ds| - 1], seen, uid, gid); }
  }

  lemma {:induction false} MembersArePortable(files: seq<File>, uid: nat, gid: nat)
    requires forall i :: 0 <= i < |files| ==> AllTheWay(files[i].path)
    ensures AllPortable(Members(files, uid, gid))
  {
    hide Parents, DirectoryMembers, Portable;
    if files != [] {
      MembersArePortable(files[..|files| - 1], uid, gid);
      DirectoriesArePortable(Parents(files[|files| - 1].path), SeenAfter(files[..|files| - 1]), uid, gid);
    }
  }

  lemma NothingOrdered()
    ensures Ordered([]) && Dirs([]) == {}
  {
  }

  function FilesOf(es: seq<Entry>): seq<Entry> {
    if es == [] then [] else FilesOf(es[..|es| - 1]) + (if es[|es| - 1].directory then [] else [es[|es| - 1]])
  }

  lemma FilesOfPush(es: seq<Entry>, e: Entry)
    ensures FilesOf(es + [e]) == FilesOf(es) + (if e.directory then [] else [e])
  {
    assert (es + [e])[..|es|] == es;
  }

  lemma {:induction false} DirectoriesAreNoFiles(done: seq<Entry>, ds: seq<Bytes>, seen: set<Bytes>, uid: nat, gid: nat)
    ensures FilesOf(done + DirectoryMembers(ds, seen, uid, gid)) == FilesOf(done)
  {
    if ds == [] {
      assert done + DirectoryMembers(ds, seen, uid, gid) == done;
    } else {
      var front := DirectoryMembers(ds[..|ds| - 1], seen, uid, gid);
      DirectoriesAreNoFiles(done, ds[..|ds| - 1], seen, uid, gid);
      var e := Directory(ds[|ds| - 1], uid, gid);
      FilesOfPush(done + front, e);
      assert done + front + [e] == done + (front + [e]);
    }
  }

  /** Apart from directories the archive holds the files, once each and in order. */
  lemma {:induction false} MembersAreFiles(files: seq<File>, uid: nat, gid: nat)
    ensures FilesOf(Members(files, uid, gid)) == seq(|files|, i requires 0 <= i < |files| => Regular(files[i], uid, gid))
  {
    hide FilesOf, DirectoryMembers, Parents;
    if files == [] {
      assert FilesOf([]) == [] by { FilesOfNothing(); }
    } else {
      var front, f := files[..|files| - 1], files[|files| - 1];
      MembersAreFiles(front, uid, gid);
      var done := Members(front, uid, gid);
      DirectoriesAreNoFiles(done, Parents(f.path), SeenAfter(front), uid, gid);
      FilesOfPush(done + DirectoryMembers(Parents(f.path), SeenAfter(front), uid, gid), Regular(f, uid, gid));
      assert Members(files, uid, gid) == done + DirectoryMembers(Parents(f.path), SeenAfter(front), uid, gid) + [Regular(f, uid, gid)];
    }
  }

  lemma FilesOfNothing()
    ensures FilesOf([]) == []
  {
  }

  lemma EndsInZeros(es: seq<Entry>)
    requires Archive(es).Ok?
    ensures var b := Archive(es).value;
            |b| >= 1024 && forall i :: |b| - 1024 <= i < |b| ==> b[i] == 0
  {
    hide Body;
  }

  /** What a directory looks like in the archive. */
  predicate PlainDirectory(e: Entry, uid: nat, gid: nat) {
    e == Entry(e.path, true, 493, uid, gid, [])
  }

  lemma {:induction false} DirectoriesArePlain(ds: seq<Bytes>, seen: set<Bytes>, uid: nat, gid: nat)
    ensures forall e :: e in DirectoryMembers(ds, seen, uid, gid) ==> PlainDirectory(e, uid, gid)
  {
    if ds != [] { DirectoriesArePlain(ds[..|ds| - 1], seen, uid, gid); }
  }

  lemma {:induction false} MembersArePlain(files: seq<File>, uid: nat, gid: nat)
    ensures forall e :: e in Members(files, uid, gid) && e.directory ==> PlainDirectory(e, uid, gid)
  {
    hide DirectoryMembers, Parents, PlainDirectory;
    if files != [] {
      var front := files[..|files| - 1];
      MembersArePlain(front, uid, gid);
      DirectoriesArePlain(Parents(files[|files| - 1].path), SeenAfter(front), uid, gid);
    }
  }

  /** Every directory a member lies in comes before it, and the directories are those the
      files lie in. */
  ghost predicate Whole(es: seq<Entry>, files: seq<File>) {
    && (forall j, d {:trigger LiesIn(es[j].path, d)} :: 0 <= j < |es| && LiesIn(es[j].path, d) ==> d in Dirs(es[..j]))
    && (forall d :: d in Dirs(es) <==> exists i :: 0 <= i < |files| && LiesIn(files[i].path, d))
  }

  lemma MembersAreWhole(files: seq<File>, uid: nat, gid: nat)
    ensures Whole(Members(files, uid, gid), files)
  {
    hide Members, Dirs, Parents, SeenAfter, LiesIn;
    var es := Members(files, uid, gid);
    MembersAreOrdered(files, uid, gid);
    forall j, d | 0 <= j < |es| && LiesIn(es[j].path, d) ensures d in Dirs(es[..j]) { ParentsAre(es[j].path, d); }
    forall d ensures d in Dirs(es) <==> exists i :: 0 <= i < |files| && LiesIn(files[i].path, d) { SeenAre(files, d); }
  }

  /** Writing and reading back: the files with their paths, contents, modes and owners in
      order, among them each parent directory once and before its children. */
  lemma RoundTrip(files: seq<File>, uid: nat, gid: nat)
    requires forall i :: 0 <= i < |files| ==> AllTheWay(files[i].path)
    requires Archive(Members(files, uid, gid)).Ok?
    ensures var b := Archive(Members(files, uid, gid)).value;
            && |b| % 512 == 0 && |b| >= 1024 && (forall i :: |b| - 1024 <= i < |b| ==> b[i] == 0)
            && Read(b).Ok? && Ordered(Read(b).value) && Whole(Read(b).value, files)
            && FilesOf(Read(b).value) == seq(|files|, i requires 0 <= i < |files| =>
                 var f := files[i]; Entry(f.path, false, if f.executable then 493 else 420, uid, gid, f.data))
            && forall e :: e in Read(b).value && e.directory ==> PlainDirectory(e, uid, gid)
  {
    hide Archive, Read, Members, Ordered, FilesOf, SeenAfter, Dirs, Whole, PlainDirectory;
    var es := Members(files, uid, gid);
    MembersAreOrdered(files, uid, gid);
    MembersAreWhole(files, uid, gid);
    MembersArePlain(files, uid, gid);
    MembersArePortable(files, uid, gid);
    MembersAreFiles(files, uid, gid);
    ArchiveReadsBack(es);
    EndsInZeros(es);
  }
}
