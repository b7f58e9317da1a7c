/** The UTF-8 and UTF-16 transcoders of the string functions, and reads that truncate. */
module Utf {
  import opened Common

  type byte = x: int | 0 <= x < 0x100
  type Unit = x: int | 0 <= x < 0x1_0000
  type Bytes = seq<byte>
  type Units = seq<Unit>

  // ---- well-formedness, independent of the transcoders ----------------------------------------

  predicate Scalar(cp: int) { 0 <= cp < 0xD800 || 0xE000 <= cp <= 0x10FFFF }

  predicate Tail(b: byte) { 0x80 <= b <= 0xBF }

  /** UTF8-char of section 4 of RFC 3629. */
  predicate Utf8Char(s: Bytes) {
    || (|s| == 1 && s[0] <= 0x7F)
    || (|s| == 2 && 0xC2 <= s[0] <= 0xDF && Tail(s[1]))
    || (|s| == 3 && Tail(s[2]) && (|| (s[0] == 0xE0 && 0xA0 <= s[1] <= 0xBF)
                                   || (0xE1 <= s[0] <= 0xEC && Tail(s[1]))
                                   || (s[0] == 0xED && 0x80 <= s[1] <= 0x9F)
                                   || (0xEE <= s[0] <= 0xEF && Tail(s[1]))))
    || (|s| == 4 && Tail(s[2]) && Tail(s[3]) && (|| (s[0] == 0xF0 && 0x90 <= s[1] <= 0xBF)
                                                 || (0xF1 <= s[0] <= 0xF3 && Tail(s[1]))
                                                 || (s[0] == 0xF4 && 0x80 <= s[1] <= 0x8F)))
  }

  /** UTF8-octets: a sequence of UTF8-char. */
  ghost predicate WellFormed8(b: Bytes)
    decreases |b|
  {
    b == [] || exists n | 1 <= n <= |b| :: Utf8Char(b[..n]) && WellFormed8(b[n..])
  }

  predicate High(u: Unit) { 0xD800 <= u <= 0xDBFF }
  predicate Low(u: Unit) { 0xDC00 <= u <= 0xDFFF }

  /** A surrogate that is not half of a pair. */
  predicate Unpaired(s: Units, i: int)
    requires 0 <= i < |s|
  {
    || (High(s[i]) && (i + 1 == |s| || !Low(s[i + 1])))
    || (Low(s[i]) && (i == 0 || !High(s[i - 1])))
  }

  predicate WellFormed16(s: Units) {
    forall i | 0 <= i < |s| :: !Unpaired(s, i)
  }

  /** Each unpaired surrogate replaced by U+FFFD. */
  function Sanitize(s: Units): (r: Units)
    ensures |r| == |s|
    ensures forall i | 0 <= i < |s| :: r[i] == if Unpaired(s, i) then 0xFFFD else s[i]
  {
    seq(|s|, i requires 0 <= i < |s| => if Unpaired(s, i) then 0xFFFD else s[i])
  }

  // ---- decoding --------------------------------------------------------------------------------

  datatype Step = Bad | Point(cp: nat, used: nat)

  predicate Lead(c: byte) { 0xC0 <= c < 0xF8 }

  function Extra(c: byte): nat
    requires Lead(c)
  {
    if c < 0xE0 then 1 else if c < 0xF0 then 2 else 3
  }

  function LeadBits(c: byte): nat
    requires Lead(c)
  {
    if c < 0xE0 then c - 0xC0 else if c < 0xF0 then c - 0xE0 else c - 0xF0
  }

  function Least(extra: nat): nat { if extra == 1 then 0x80 else if extra == 2 then 0x800 else 0x10000 }

  /** The bits of the lead byte followed by six bits of each tail byte. */
  function Accumulate(acc: nat, tail: Bytes): nat {
    if tail == [] then acc else Accumulate(acc, tail[..|tail| - 1]) * 64 + tail[|tail| - 1] % 64
  }

  /** The character that b begins with, or Bad if the first byte starts none. */
  function DecodeOne(b: Bytes): (r: Step)
    requires |b| > 0
    ensures r.Point? ==> Scalar(r.cp) && 1 <= r.used <= 4 && r.used <= |b|
  {
    if b[0] < 0x80 then Point(b[0], 1)
    else if !Lead(b[0]) then Bad
    else if Extra(b[0]) >= |b| then Bad
    else
      var extra := Extra(b[0]);
      if exists k | 1 <= k <= extra :: !Tail(b[k]) then Bad
      else
        var cp := Accumulate(LeadBits(b[0]), b[1..extra + 1]);
        Check(extra, cp)
  }

  /** Rejects overlong forms, values past U+10FFFF and surrogates. */
  function Check(extra: nat, cp: nat): (r: Step)
    ensures r.Point? ==> Scalar(r.cp) && r.used == extra + 1
  {
    if cp < Least(extra) || cp > 0x10FFFF || 0xD800 <= cp <= 0xDFFF then Bad else Point(cp, extra + 1)
  }

  /** One code point as UTF-16. */
  function Emit(cp: nat): (u: Units)
    requires cp <= 0x10FFFF
    ensures 1 <= |u| <= 2
  {
    if cp <= 0xFFFF then [cp] else [0xD800 + (cp - 0x10000) / 0x400, 0xDC00 + (cp - 0x10000) % 0x400]
  }

  /** Every byte that starts no character gives one U+FFFD. */
  function Decode(b: Bytes): Units
    decreases |b|
  {
    if b == [] then []
    else
      match DecodeOne(b)
      case Bad => Emit(0xFFFD) + Decode(b[1..])
      case Point(cp, used) => Emit(cp) + Decode(b[used..])
  }

  // ---- encoding --------------------------------------------------------------------------------

  function EncodePoint(cp: nat): (b: Bytes)
    requires cp <= 0x10FFFF
    ensures 1 <= |b| <= 4
  {
    if cp < 0x80 then [cp]
    else if cp < 0x800 then [0xC0 + cp / 0x40, 0x80 + cp % 0x40]
    else if cp < 0x10000 then [0xE0 + cp / 0x1000, 0x80 + cp / 0x40 % 0x40, 0x80 + cp % 0x40]
    else [0xF0 + cp / 0x40000, 0x80 + cp / 0x1000 % 0x40, 0x80 + cp / 0x40 % 0x40, 0x80 + cp % 0x40]
  }

  function JoinPair(high: int, low: int): int { 0x10000 + (high - 0xD800) * 0x400 + (low - 0xDC00) }

  /** The code point that s begins with and its length in units. */
  function FirstPoint(s: Units): (r: (nat, nat))
    requires |s| > 0
    ensures Scalar(r.0) && 1 <= r.1 <= 2 && r.1 <= |s|
  {
    if High(s[0]) then
      if |s| > 1 && Low(s[1]) then (JoinPair(s[0], s[1]), 2) else (0xFFFD, 1)
    else if Low(s[0]) then (0xFFFD, 1)
    else (s[0], 1)
  }

  function Encode(s: Units): Bytes
    decreases |s|
  {
    if s == [] then [] else var (cp, used) := FirstPoint(s); EncodePoint(cp) + Encode(s[used..])
  }

  // ---- one character ---------------------------------------------------------------------------

  function Join2(x: int, y: int): int { (x - 0xC0) * 0x40 + y % 0x40 }
  function Join3(x: int, y: int, z: int): int { ((x - 0xE0) * 0x40 + y % 0x40) * 0x40 + z % 0x40 }
  function Join4(x: int, y: int, z: int, u: int): int {
    (((x - 0xF0) * 0x40 + y % 0x40) * 0x40 + z % 0x40) * 0x40 + u % 0x40
  }

  lemma AccumulateUnfold(acc: nat, tail: Bytes)
    requires 1 <= |tail| <= 3
    ensures |tail| == 1 ==> Accumulate(acc, tail) == acc * 64 + tail[0] % 64
    ensures |tail| == 2 ==> Accumulate(acc, tail) == (acc * 64 + tail[0] % 64) * 64 + tail[1] % 64
    ensures |tail| == 3 ==> Accumulate(acc, tail) == ((acc * 64 + tail[0] % 64) * 64 + tail[1] % 64) * 64 + tail[2] % 64
  {
    assert |tail| > 1 ==> tail[..|tail| - 1][..|tail| - 2] == tail[..|tail| - 2];
    assert Accumulate(acc, []) == acc;
  }

  /** A multi-byte sequence with its tail bytes in place decodes to the joined bits, if they pass the checks. */
  lemma DecodeTails(b: Bytes)
    requires |b| > 0 && Lead(b[0]) && Extra(b[0]) < |b|
    requires forall k | 1 <= k <= Extra(b[0]) :: Tail(b[k])
    ensures Extra(b[0]) == 1 ==> DecodeOne(b) == Check(1, Join2(b[0], b[1]))
    ensures Extra(b[0]) == 2 ==> DecodeOne(b) == Check(2, Join3(b[0], b[1], b[2]))
    ensures Extra(b[0]) == 3 ==> DecodeOne(b) == Check(3, Join4(b[0], b[1], b[2], b[3]))
  {
    hide Accumulate, Check;
    AccumulateUnfold(LeadBits(b[0]), b[1..Extra(b[0]) + 1]);
  }

  lemma Split2(x: byte, y: byte)
    requires 0xC0 <= x < 0xE0 && Tail(y) && Check(1, Join2(x, y)).Point?
    ensures EncodePoint(Join2(x, y)) == [x, y] && Utf8Char([x, y])
  {
  }

  lemma Split3(x: byte, y: byte, z: byte)
    requires 0xE0 <= x < 0xF0 && Tail(y) && Tail(z) && Check(2, Join3(x, y, z)).Point?
    ensures EncodePoint(Join3(x, y, z)) == [x, y, z] && Utf8Char([x, y, z])
  {
    hide Utf8Char;
    TailBits(y);
    TailBits(z);
    Chars3(x, y, z);
    Shifted(0, x - 0xE0, y - 0x80, z - 0x80);
    var cp := Join3(x, y, z);
    assert cp / 0x1000 == cp / 0x40 / 0x40;
  }

  lemma Split4(x: byte, y: byte, z: byte, u: byte)
    requires 0xF0 <= x < 0xF8 && Tail(y) && Tail(z) && Tail(u) && Check(3, Join4(x, y, z, u)).Point?
    ensures EncodePoint(Join4(x, y, z, u)) == [x, y, z, u] && Utf8Char([x, y, z, u])
  {
    hide Utf8Char;
    TailBits(y);
    TailBits(z);
    TailBits(u);
    Chars4(x, y, z, u);
    Shifted(x - 0xF0, y - 0x80, z - 0x80, u - 0x80);
  }

  lemma TailBits(y: byte)
    requires Tail(y)
    ensures y % 0x40 == y - 0x80
  {
  }

  /** The checks on the value are those of the byte ranges. */
  lemma Chars3(x: byte, y: byte, z: byte)
    requires 0xE0 <= x < 0xF0 && Tail(y) && Tail(z) && Check(2, Join3(x, y, z)).Point?
    ensures Utf8Char([x, y, z])
  {
    TailBits(y);
    TailBits(z);
  }

  lemma Chars4(x: byte, y: byte, z: byte, u: byte)
    requires 0xF0 <= x < 0xF8 && Tail(y) && Tail(z) && Tail(u) && Check(3, Join4(x, y, z, u)).Point?
    ensures Utf8Char([x, y, z, u])
  {
    TailBits(y);
    TailBits(z);
    TailBits(u);
  }

  lemma Shifted(a: int, b: int, c: int, d: int)
    requires 0 <= b < 0x40 && 0 <= c < 0x40 && 0 <= d < 0x40
    ensures var n := ((a * 0x40 + b) * 0x40 + c) * 0x40 + d;
      n / 0x40000 == a && n / 0x1000 == a * 0x40 + b && n / 0x1000 % 0x40 == b && n / 0x40 % 0x40 == c && n % 0x40 == d
  {
    var ab := a * 0x40 + b;
    var abc := ab * 0x40 + c;
    var n := abc * 0x40 + d;
    DropSix(abc, d);
    DropSix(ab, c);
    DropSix(a, b);
    DivSteps(n);
  }

  lemma DropSix(q: int, r: int)
    requires 0 <= r < 0x40
    ensures (q * 0x40 + r) / 0x40 == q && (q * 0x40 + r) % 0x40 == r
  {
  }

  lemma DivSteps(n: int)
    ensures n / 0x1000 == n / 0x40 / 0x40 && n / 0x40000 == n / 0x1000 / 0x40
  {
  }

  /** A decoded character is a UTF8-char, and its encoding gives its bytes back. */
  lemma DecodedIsChar(b: Bytes)
    requires |b| > 0 && DecodeOne(b).Point?
    ensures Utf8Char(b[..DecodeOne(b).used])
    ensures EncodePoint(DecodeOne(b).cp) == b[..DecodeOne(b).used]
  {
    hide Accumulate, EncodePoint, Utf8Char, Join2, Join3, Join4;
    if b[0] < 0x80 {
      AsciiPoint(b[0]);
      assert b[..1] == [b[0]];
    } else {
      DecodeTails(b);
      var extra := Extra(b[0]);
      if extra == 1 {
        Split2(b[0], b[1]);
        assert b[..2] == [b[0], b[1]];
      } else if extra == 2 {
        Split3(b[0], b[1], b[2]);
        assert b[..3] == [b[0], b[1], b[2]];
      } else {
        Split4(b[0], b[1], b[2], b[3]);
        assert b[..4] == [b[0], b[1], b[2], b[3]];
      }
    }
  }

  lemma AsciiPoint(c: byte)
    requires c < 0x80
    ensures EncodePoint(c) == [c] && Utf8Char([c])
  {
  }

  lemma CharPasses(c: Bytes)
    requires Utf8Char(c) && |c| > 1
    ensures |c| == 2 ==> Check(1, Join2(c[0], c[1])).Point?
    ensures |c| == 3 ==> Check(2, Join3(c[0], c[1], c[2])).Point?
    ensures |c| == 4 ==> Check(3, Join4(c[0], c[1], c[2], c[3])).Point?
    ensures forall k | 1 <= k < |c| :: Tail(c[k])
    ensures Lead(c[0]) && Extra(c[0]) == |c| - 1
  {
    assert forall k | 1 <= k < |c| :: Tail(c[k]);
    forall k | 1 <= k < |c|
      ensures c[k] % 0x40 == c[k] - 0x80
    {
      TailBits(c[k]);
    }
  }

  lemma CharIsDecoded(b: Bytes, n: nat)
    requires 1 <= n <= |b| && Utf8Char(b[..n])
    ensures DecodeOne(b).Point? && DecodeOne(b).used == n
  {
    hide Accumulate, Join2, Join3, Join4, Check;
    if n > 1 {
      CharPasses(b[..n]);
      var extra := n - 1;
      var c := b[..n];
      assert forall k | 0 <= k <= extra :: b[k] == c[k];
      DecodeTails(b);
    }
  }

  /** The bytes of a scalar value have the lead and tail ranges of their length and join to it again. */
  ghost predicate Joins(e: Bytes, cp: nat) {
    && |e| > 1 && Lead(e[0]) && Extra(e[0]) == |e| - 1 && (forall k | 1 <= k < |e| :: Tail(e[k]))
    && (|e| == 2 ==> Join2(e[0], e[1]) == cp)
    && (|e| == 3 ==> Join3(e[0], e[1], e[2]) == cp)
    && (|e| == 4 ==> Join4(e[0], e[1], e[2], e[3]) == cp)
    && Check(|e| - 1, cp) == Point(cp, |e|)
  }

  lemma JoinsTwo(cp: nat)
    requires 0x80 <= cp < 0x800
    ensures Joins(EncodePoint(cp), cp)
  {
  }

  lemma JoinsThree(cp: nat)
    requires 0x800 <= cp < 0x10000 && Scalar(cp)
    ensures Joins(EncodePoint(cp), cp)
  {
    assert cp / 0x1000 == cp / 0x40 / 0x40;
  }

  lemma JoinsFour(cp: nat)
    requires 0x10000 <= cp <= 0x10FFFF
    ensures Joins(EncodePoint(cp), cp)
  {
    hide Joins;
    DivSteps(cp);
    var a, b, c, d := cp / 0x40000, cp / 0x1000 % 0x40, cp / 0x40 % 0x40, cp % 0x40;
    JoinsParts(cp, a, b, c, d);
    assert EncodePoint(cp) == [0xF0 + a, 0x80 + b, 0x80 + c, 0x80 + d];
  }

  lemma JoinsParts(cp: nat, a: int, b: int, c: int, d: int)
    requires 0x10000 <= cp <= 0x10FFFF && 0 <= a < 8 && 0 <= b < 0x40 && 0 <= c < 0x40 && 0 <= d < 0x40
    requires cp == ((a * 0x40 + b) * 0x40 + c) * 0x40 + d
    ensures Joins([0xF0 + a, 0x80 + b, 0x80 + c, 0x80 + d], cp)
  {
    TailBits(0x80 + b);
    TailBits(0x80 + c);
    TailBits(0x80 + d);
  }

  lemma EncodedBytes(cp: nat)
    requires Scalar(cp) && cp >= 0x80
    ensures Joins(EncodePoint(cp), cp)
  {
    hide Joins, EncodePoint;
    if cp < 0x800 {
      JoinsTwo(cp);
    } else if cp < 0x10000 {
      JoinsThree(cp);
    } else {
      JoinsFour(cp);
    }
  }

  /** A scalar value's encoding is read back as that value, whatever follows. */
  lemma PointRoundTrip(cp: nat, rest: Bytes)
    requires Scalar(cp)
    ensures DecodeOne(EncodePoint(cp) + rest) == Point(cp, |EncodePoint(cp)|)
  {
    var e := EncodePoint(cp);
    var b := e + rest;
    if cp >= 0x80 {
      hide Accumulate, DecodeOne, EncodePoint, Join2, Join3, Join4, Check;
      EncodedBytes(cp);
      assert forall k | 0 <= k < |e| :: b[k] == e[k];
      DecodeTails(b);
    }
  }

  lemma UnitsRoundTrip(cp: nat, rest: Units)
    requires Scalar(cp)
    ensures FirstPoint(Emit(cp) + rest) == (cp, |Emit(cp)|)
  {
  }

  lemma FirstPointEmits(s: Units)
    requires |s| > 0
    ensures Emit(FirstPoint(s).0) == Sanitize(s)[..FirstPoint(s).1]
  {
  }

  // ---- whole strings ---------------------------------------------------------------------------

  lemma DecodePoint(cp: nat, rest: Bytes)
    requires Scalar(cp)
    ensures Decode(EncodePoint(cp) + rest) == Emit(cp) + Decode(rest)
  {
    hide DecodeOne, EncodePoint, Emit;
    PointRoundTrip(cp, rest);
    assert (EncodePoint(cp) + rest)[|EncodePoint(cp)|..] == rest;
  }

  lemma EncodeEmitted(cp: nat, rest: Units)
    requires Scalar(cp)
    ensures Encode(Emit(cp) + rest) == EncodePoint(cp) + Encode(rest)
  {
    hide FirstPoint, EncodePoint, Emit;
    UnitsRoundTrip(cp, rest);
    assert (Emit(cp) + rest)[|Emit(cp)|..] == rest;
  }

  lemma SanitizeRest(s: Units)
    requires |s| > 0
    ensures Sanitize(s) == Emit(FirstPoint(s).0) + Sanitize(s[FirstPoint(s).1..])
  {
    hide Emit, FirstPoint, Unpaired;
    var n := FirstPoint(s).1;
    FirstPointEmits(s);
    forall i | n <= i < |s|
      ensures Sanitize(s)[i] == Sanitize(s[n..])[i - n]
    {
      UnpairedRest(s, i);
    }
    assert Sanitize(s)[n..] == Sanitize(s[n..]);
    assert Sanitize(s)[..n] + Sanitize(s)[n..] == Sanitize(s);
  }

  lemma UnpairedRest(s: Units, i: nat)
    requires |s| > 0 && FirstPoint(s).1 <= i < |s|
    ensures Unpaired(s, i) == Unpaired(s[FirstPoint(s).1..], i - FirstPoint(s).1)
  {
    hide JoinPair;
  }

  /** Reading back what was written gives the string with each unpaired surrogate replaced. */
  lemma {:induction false} DecodeEncode(s: Units)
    ensures Decode(Encode(s)) == Sanitize(s)
    decreases |s|
  {
    hide FirstPoint, EncodePoint, Emit, Sanitize, Decode;
    if s == [] {
      assert Decode([]) == [] by { DecodeNothing(); }
    } else {
      var (cp, used) := FirstPoint(s);
      SanitizeRest(s);
      DecodePoint(cp, Encode(s[used..]));
      DecodeEncode(s[used..]);
    }
  }

  lemma DecodeNothing()
    ensures Decode([]) == []
  {
  }

  lemma SanitizedWhenWellFormed(s: Units)
    ensures Sanitize(s) == s <==> WellFormed16(s)
  {
    if !WellFormed16(s) {
      var i :| 0 <= i < |s| && Unpaired(s, i);
      assert Sanitize(s)[i] != s[i];
    }
  }

  /** A string survives the round trip exactly if it has no unpaired surrogate. */
  lemma RoundTripExactly(s: Units)
    ensures Decode(Encode(s)) == s <==> WellFormed16(s)
  {
    DecodeEncode(s);
    SanitizedWhenWellFormed(s);
  }

  lemma EmitWellFormed(cp: nat, rest: Units)
    requires Scalar(cp) && WellFormed16(rest)
    ensures WellFormed16(Emit(cp) + rest)
  {
    var e, s := Emit(cp), Emit(cp) + rest;
    forall i | |e| <= i < |s|
      ensures !Unpaired(s, i)
    {
      assert !Unpaired(rest, i - |e|);
    }
    assert forall i | 0 <= i < |e| :: !Unpaired(s, i);
  }

  /** Any bytes decode to well-formed UTF-16 of no more units than bytes. */
  lemma {:induction false} DecodeWellFormed(b: Bytes)
    ensures WellFormed16(Decode(b)) && |Decode(b)| <= |b|
    decreases |b|
  {
    hide DecodeOne, Emit, WellFormed16;
    if b == [] {
      assert WellFormed16([]) by { EmptyWellFormed(); }
    } else {
      match DecodeOne(b)
      case Bad =>
        DecodeWellFormed(b[1..]);
        EmitWellFormed(0xFFFD, Decode(b[1..]));
        EmitLength(0xFFFD, 1);
      case Point(cp, used) =>
        DecodeWellFormed(b[used..]);
        EmitWellFormed(cp, Decode(b[used..]));
        DecodedIsChar(b);
        EmitLength(cp, used);
    }
  }

  lemma EmptyWellFormed()
    ensures WellFormed16([]) && WellFormed8([])
  {
  }

  lemma EmitLength(cp: nat, used: nat)
    requires cp <= 0x10FFFF
    ensures (cp == 0xFFFD && used == 1) || used == |EncodePoint(cp)| ==> |Emit(cp)| <= used
  {
  }

  lemma WellFormedCons(b: Bytes, n: nat)
    requires 1 <= n <= |b| && Utf8Char(b[..n])
    ensures WellFormed8(b) <==> WellFormed8(b[n..])
  {
    hide Utf8Char;
    if WellFormed8(b) {
      var m :| 1 <= m <= |b| && Utf8Char(b[..m]) && WellFormed8(b[m..]);
      CharIsDecoded(b, m);
      CharIsDecoded(b, n);
    }
  }

  /** Encoding always gives well-formed UTF-8. */
  lemma {:induction false} EncodeWellFormed(s: Units)
    ensures WellFormed8(Encode(s))
    decreases |s|
  {
    hide FirstPoint, EncodePoint, WellFormed8;
    if s == [] {
      EmptyWellFormed();
    } else {
      var (cp, used) := FirstPoint(s);
      var rest := Encode(s[used..]);
      EncodeWellFormed(s[used..]);
      PointRoundTrip(cp, rest);
      var b := EncodePoint(cp) + rest;
      DecodedIsChar(b);
      WellFormedCons(b, |EncodePoint(cp)|);
      assert b[|EncodePoint(cp)|..] == rest;
    }
  }

  lemma {:induction false} EncodeDecodeWellFormed(b: Bytes)
    requires WellFormed8(b)
    ensures Encode(Decode(b)) == b
    decreases |b|
  {
    hide DecodeOne, EncodePoint, Emit, Utf8Char, Encode;
    if b == [] {
      EncodeNothing();
    } else {
      var n :| 1 <= n <= |b| && Utf8Char(b[..n]) && WellFormed8(b[n..]);
      CharIsDecoded(b, n);
      DecodedIsChar(b);
      EncodeDecodeWellFormed(b[n..]);
      EncodeEmitted(DecodeOne(b).cp, Decode(b[n..]));
      assert b[..n] + b[n..] == b;
    }
  }

  lemma EncodeNothing()
    ensures Encode([]) == []
  {
  }

  /** Bytes survive the round trip exactly if they are well-formed UTF-8. */
  lemma BytesRoundTripExactly(b: Bytes)
    ensures Encode(Decode(b)) == b <==> WellFormed8(b)
  {
    hide *;
    EncodeWellFormed(Decode(b));
    if WellFormed8(b) { EncodeDecodeWellFormed(b); }
  }

  /** Bytes that begin with no character: the first of them gives one U+FFFD, and reading goes on behind it. */
  lemma BadByteReplaced(b: Bytes)
    requires b != [] && forall n | 1 <= n <= 4 && n <= |b| :: !Utf8Char(b[..n])
    ensures Decode(b) == [0xFFFD] + Decode(b[1..])
  {
    hide DecodeOne, Utf8Char;
    if DecodeOne(b).Point? { DecodedIsChar(b); }
  }

  /** Bytes that begin with a character give its units, and reading goes on behind it. */
  lemma CharRead(b: Bytes, n: nat)
    requires 1 <= n <= |b| && Utf8Char(b[..n])
    ensures DecodeOne(b).Point? && EncodePoint(DecodeOne(b).cp) == b[..n]
    ensures Decode(b) == Emit(DecodeOne(b).cp) + Decode(b[n..])
  {
    hide DecodeOne, Utf8Char, Emit, EncodePoint;
    CharIsDecoded(b, n);
    DecodedIsChar(b);
  }

  /** Two examples of section 7 of RFC 3629: ASCII letters around two longer characters, and a byte order mark with a
      character outside the first plane, which is a surrogate pair. */
  lemma FirstExample()
    ensures Encode([0x41, 0x2262, 0x391, 0x2E]) == [0x41, 0xE2, 0x89, 0xA2, 0xCE, 0x91, 0x2E]
    ensures Decode([0x41, 0xE2, 0x89, 0xA2, 0xCE, 0x91, 0x2E]) == [0x41, 0x2262, 0x391, 0x2E]
  {
    hide Encode, Decode;
    EncodeNothing();
    EncodeEmitted(0x2E, []);
    EncodeEmitted(0x391, [0x2E]);
    EncodeEmitted(0x2262, [0x391, 0x2E]);
    EncodeEmitted(0x41, [0x2262, 0x391, 0x2E]);
    var s: Units := [0x41, 0x2262, 0x391, 0x2E];
    assert Emit(0x2E) + [] == [0x2E] && Emit(0x391) + [0x2E] == [0x391, 0x2E];
    assert Emit(0x2262) + [0x391, 0x2E] == [0x2262, 0x391, 0x2E] && Emit(0x41) + [0x2262, 0x391, 0x2E] == s;
    RoundTripExactly(s);
  }

  lemma SecondExample()
    ensures Encode([0xFEFF, 0xD84C, 0xDFB4]) == [0xEF, 0xBB, 0xBF, 0xF0, 0xA3, 0x8E, 0xB4]
    ensures Decode([0xEF, 0xBB, 0xBF, 0xF0, 0xA3, 0x8E, 0xB4]) == [0xFEFF, 0xD84C, 0xDFB4]
  {
    hide Encode, Decode;
    EncodeNothing();
    EncodeEmitted(0x233B4, []);
    EncodeEmitted(0xFEFF, [0xD84C, 0xDFB4]);
    var s: Units := [0xFEFF, 0xD84C, 0xDFB4];
    assert Emit(0x233B4) + [] == [0xD84C, 0xDFB4] && Emit(0xFEFF) + [0xD84C, 0xDFB4] == s;
    RoundTripExactly(s);
  }

  // ---- truncation ------------------------------------------------------------------------------

  /** The longest prefix of at most limit bytes that is itself whole characters. */
  ghost predicate LongestCut(b: Bytes, limit: nat, k: nat) {
    && k <= limit && k <= |b| && WellFormed8(b[..k])
    && forall j | k < j <= limit && j <= |b| :: !WellFormed8(b[..j])
  }

  /** Inside well-formed bytes, a cut is at a character boundary exactly if no tail byte follows it. */
  lemma {:induction false} BoundaryExactly(b: Bytes, k: nat)
    requires WellFormed8(b) && 0 < k < |b|
    ensures WellFormed8(b[..k]) <==> !Tail(b[k])
    decreases |b|
  {
    hide Utf8Char, DecodeOne;
    var n :| 1 <= n <= |b| && Utf8Char(b[..n]) && WellFormed8(b[n..]);
    if k < n {
      CharTails(b[..n], k);
      if WellFormed8(b[..k]) {
        var m :| 1 <= m <= k && Utf8Char(b[..k][..m]) && WellFormed8(b[..k][m..]);
        assert b[..k][..m] == b[..m];
        CharIsDecoded(b, m);
        CharIsDecoded(b, n);
      }
    } else if k == n {
      CharIsDecoded(b, n);
      WholeCharacter(b[..n]);
      if b[n..] != [] {
        var m :| 1 <= m <= |b[n..]| && Utf8Char(b[n..][..m]);
        CharTails(b[n..][..m], 0);
      }
    } else {
      BoundaryExactly(b[n..], k - n);
      assert b[..k][..n] == b[..n];
      assert b[..k][n..] == b[n..][..k - n];
      WellFormedCons(b[..k], n);
    }
  }

  lemma WholeCharacter(c: Bytes)
    requires Utf8Char(c)
    ensures WellFormed8(c)
  {
    hide Utf8Char;
    EmptyWellFormed();
    assert c[..|c|] == c && c[|c|..] == [];
    CharNonempty(c);
  }

  lemma CharNonempty(c: Bytes)
    requires Utf8Char(c)
    ensures |c| >= 1
  {
  }

  lemma CharTails(c: Bytes, k: nat)
    requires Utf8Char(c) && k < |c|
    ensures Tail(c[k]) <==> k > 0
  {
    CharNonempty(c);
    if |c| > 1 { CharPasses(c); }
  }

  lemma {:induction false} DecodeAppend(a: Bytes, b: Bytes)
    requires WellFormed8(a)
    ensures Decode(a + b) == Decode(a) + Decode(b)
    decreases |a|
  {
    hide Utf8Char, DecodeOne, Emit, WellFormed8;
    if a == [] {
      assert a + b == b;
    } else {
      var n := FirstChar(a);
      assert (a + b)[..n] == a[..n] && (a + b)[n..] == a[n..] + b;
      SameFirst(a, a + b, n);
      DecodeAppend(a[n..], b);
    }
  }

  ghost function FirstChar(b: Bytes): (n: nat)
    requires WellFormed8(b) && b != []
    ensures 1 <= n <= |b| && Utf8Char(b[..n]) && WellFormed8(b[n..])
  {
    var n :| 1 <= n <= |b| && Utf8Char(b[..n]) && WellFormed8(b[n..]);
    n
  }

  lemma SameFirst(a: Bytes, b: Bytes, n: nat)
    requires 1 <= n <= |a| && n <= |b| && a[..n] == b[..n] && Utf8Char(a[..n])
    ensures DecodeOne(a).Point? && DecodeOne(a) == DecodeOne(b) && DecodeOne(a).used == n
  {
    hide Utf8Char, DecodeOne;
    CharIsDecoded(a, n);
    CharIsDecoded(b, n);
    DecodedIsChar(a);
    DecodedIsChar(b);
    PointRoundTrip(DecodeOne(a).cp, []);
    PointRoundTrip(DecodeOne(b).cp, []);
    assert a[..n] + [] == b[..n] + [];
  }

  /** What a truncated read leaves is well formed and reads back as a prefix of the full string. */
  lemma CutDecodesToPrefix(s: Units, limit: nat, k: nat)
    requires LongestCut(Encode(s), limit, k)
    ensures Decode(Encode(s)[..k]) <= Sanitize(s)
    ensures Encode(Decode(Encode(s)[..k])) == Encode(s)[..k]
    ensures k < |Encode(s)| ==> limit < k + 4
  {
    hide Encode, Decode, Sanitize, WellFormed8;
    var b := Encode(s);
    DecodeAppend(b[..k], b[k..]);
    assert b[..k] + b[k..] == b;
    DecodeEncode(s);
    BytesRoundTripExactly(b[..k]);
    if k < |b| {
      EncodeWellFormed(s);
      CutLeavesRoom(b, limit, k);
    }
  }

  /** A cut gives up at most three bytes of the room. */
  lemma CutLeavesRoom(b: Bytes, limit: nat, k: nat)
    requires WellFormed8(b) && LongestCut(b, limit, k) && k < |b|
    ensures limit < k + 4
  {
    hide Utf8Char, WellFormed8;
    RestWellFormed(b, k);
    assert |b[k..]| > 0;
    var n := FirstChar(b[k..]);
    assert b[..k + n][k..] == b[k..][..n];
    CharLength(b[k..][..n]);
    assert b[..k + n] == b[..k] + b[k..][..n];
    WholeCharacter(b[k..][..n]);
    AppendWellFormed(b[..k], b[k..][..n]);
  }

  lemma CharLength(c: Bytes)
    requires Utf8Char(c)
    ensures |c| <= 4
  {
  }

  lemma {:induction false} AppendWellFormed(a: Bytes, b: Bytes)
    requires WellFormed8(a)
    ensures WellFormed8(a + b) <==> WellFormed8(b)
    decreases |a|
  {
    hide Utf8Char, WellFormed8;
    if a == [] {
      assert a + b == b;
    } else {
      var n := FirstChar(a);
      assert (a + b)[..n] == a[..n] && (a + b)[n..] == a[n..] + b;
      WellFormedCons(a + b, n);
      AppendWellFormed(a[n..], b);
    }
  }

  lemma RestWellFormed(b: Bytes, k: nat)
    requires WellFormed8(b) && k <= |b| && WellFormed8(b[..k])
    ensures WellFormed8(b[k..])
  {
    hide WellFormed8;
    AppendWellFormed(b[..k], b[k..]);
    assert b[..k] + b[k..] == b;
  }

  // ---- the loops -------------------------------------------------------------------------------

  /** Reads the tail bytes after position i, stopping at the first byte that is not one. */
  method ReadTails(b: Bytes, i: nat, extra: nat, start: nat) returns (ok: bool, acc: nat)
    requires i + extra < |b|
    ensures ok == forall j | i < j <= i + extra :: Tail(b[j])
    ensures ok ==> acc == Accumulate(start, b[i + 1..i + extra + 1])
  {
    ok, acc := true, start;
    assert b[i + 1..i + 1] == [];
    var k := 1;
    while k <= extra
      invariant 1 <= k <= extra + 1
      invariant forall j | i < j < i + k :: Tail(b[j])
      invariant acc == Accumulate(start, b[i + 1..i + k])
    {
      var cc := b[i + k];
      if !Tail(cc) {
        return false, acc;
      }
      assert b[i + 1..i + (k + 1)][..k - 1] == b[i + 1..i + k];
      acc := acc * 64 + cc % 64;
      k := k + 1;
    }
  }

  /** One turn of the decoder's loop: the code point to emit and the bytes it takes. */
  method ReadPoint(b: Bytes, i: nat) returns (cp: nat, used: nat)
    requires i < |b|
    ensures (cp, used) == match DecodeOne(b[i..]) case Bad => (0xFFFD, 1) case Point(p, n) => (p, n)
  {
    hide Accumulate;
    var c := b[i];
    ghost var rest := b[i..];
    assert forall k | 0 <= k < |rest| :: rest[k] == b[i + k];
    cp, used := 0xFFFD, 1;
    if c < 0x80 {
      cp := c;
    } else if Lead(c) && i + Extra(c) < |b| {
      var extra := Extra(c);
      var ok, acc := ReadTails(b, i, extra, LeadBits(c));
      assert rest[1..extra + 1] == b[i + 1..i + extra + 1];
      assert ok ==> forall k | 1 <= k <= extra :: Tail(rest[k]);
      assert !ok ==> exists k | 1 <= k <= extra :: !Tail(rest[k]) by {
        if !ok {
          var j :| i < j <= i + extra && !Tail(b[j]);
          assert !Tail(rest[j - i]);
        }
      }
      if ok && !(acc < Least(extra) || acc > 0x10FFFF || 0xD800 <= acc <= 0xDFFF) {
        cp, used := acc, extra + 1;
      }
    }
  }

  method DecodeUtf8(b: Bytes) returns (u16: Units)
    ensures u16 == Decode(b)
  {
    hide DecodeOne, Emit;
    u16 := [];
    var i := 0;
    while i < |b|
      invariant 0 <= i <= |b|
      invariant u16 + Decode(b[i..]) == Decode(b)
    {
      var cp, used := ReadPoint(b, i);
      assert b[i..][used..] == b[i + used..];
      Assoc(u16, Emit(cp), Decode(b[i + used..]));
      u16 := u16 + Emit(cp);
      i := i + used;
    }
    assert b[i..] == [];
  }

  method EncodeUtf16(chars: Units) returns (out: Bytes)
    ensures out == Encode(chars)
  {
    hide EncodePoint, JoinPair;
    out := [];
    var i := 0;
    while i < |chars|
      invariant 0 <= i <= |chars|
      invariant out + Encode(chars[i..]) == Encode(chars)
    {
      var u := chars[i];
      ghost var rest, before := chars[i..], out;
      var cp, used := 0xFFFD, 1;
      if High(u) {
        if i + 1 < |chars| && Low(chars[i + 1]) {
          assert rest[1] == chars[i + 1];
          cp, used := JoinPair(u, chars[i + 1]), 2;
        }
      } else if !Low(u) {
        cp := u;
      }
      assert FirstPoint(rest) == (cp, used);
      assert rest[used..] == chars[i + used..];
      out := out + EncodePoint(cp);
      Assoc(before, EncodePoint(cp), Encode(chars[i + used..]));
      i := i + used;
    }
    assert chars[i..] == [];
  }

  /** Backs off from the limit to a character boundary. */
  method CutPoint(out: Bytes, limit: nat) returns (copy: nat)
    requires WellFormed8(out)
    ensures LongestCut(out, limit, copy)
  {
    hide WellFormed8;
    copy := if |out| <= limit then |out| else limit;
    EmptyWellFormed();
    while copy > 0 && copy < |out| && Tail(out[copy])
      invariant copy <= limit && copy <= |out|
      invariant forall j | copy < j <= limit && j <= |out| :: !WellFormed8(out[..j])
    {
      BoundaryExactly(out, copy);
      copy := copy - 1;
    }
    assert out[..0] == [] && out[..|out|] == out;
    if 0 < copy < |out| { BoundaryExactly(out, copy); }
  }

  datatype Status = Ok | InvalidArg

  /** napi_get_value_string_utf8 on a string value; buf is null when only the length is asked for. */
  method GetStringUtf8(chars: Units, buf: array?<byte>, bufsize: nat, wantsResult: bool)
      returns (status: Status, result: Option<nat>)
    requires buf != null ==> bufsize <= buf.Length
    modifies buf
    ensures status == if buf == null && !wantsResult then InvalidArg else Ok
    ensures result.Some? <==> wantsResult
    ensures buf == null && wantsResult ==> result == Some(|Encode(chars)|)
    ensures buf != null && bufsize == 0 ==> buf[..] == old(buf[..]) && (wantsResult ==> result == Some(0))
    ensures buf != null && bufsize > 0 ==>
      exists copy: nat | LongestCut(Encode(chars), bufsize - 1, copy) && copy < bufsize ::
        && buf[..] == Encode(chars)[..copy] + [0] + old(buf[copy + 1..])
        && (wantsResult ==> result == Some(copy))
  {
    hide Encode, WellFormed8, LongestCut;
    var out := EncodeUtf16(chars);
    result := None;
    if buf == null {
      if !wantsResult {
        return InvalidArg, None;
      }
      return Ok, Some(|out|);
    }
    var copy := 0;
    if bufsize > 0 {
      EncodeWellFormed(chars);
      copy := CutPoint(out, bufsize - 1);
      CutInside(out, bufsize - 1, copy);
      forall k | 0 <= k < copy { buf[k] := out[k]; }
      buf[copy] := 0;
      assert buf[..] == out[..copy] + [0] + old(buf[copy + 1..]);
    }
    status := Ok;
    if wantsResult { result := Some(copy); }
  }

  lemma CutInside(b: Bytes, limit: nat, k: nat)
    requires LongestCut(b, limit, k)
    ensures k <= limit && k <= |b|
  {
  }
}
