/** WebSocket framing (section 5.2 of RFC 6455): the bytes of a frame, the streaming decoder that takes
    them apart and the encoder that builds them. */
module WebSocket {
  import opened Common

  type byte = x: int | 0 <= x < 256
  type Bytes = seq<byte>
  /** What one frame can carry: section 5.2 keeps the top bit of the length clear. */
  type Data = b: Bytes | |b| < 0x8000_0000_0000_0000
  type Key = k: Bytes | |k| == 4 witness [0, 0, 0, 0]

  const CONTINUATION := 0x0
  const TEXT := 0x1
  const BINARY := 0x2
  const CLOSE := 0x8
  const PING := 0x9
  const PONG := 0xA

  type Opcode = x: int | 0 <= x < 16

  datatype Frame = Frame(fin: bool, op: Opcode, payload: Data)

  /** The three forms of the payload length. */
  datatype Form = Short | Medium | Long

  /** Exclusive or of the n low bits. */
  function XorBits(a: nat, b: nat, n: nat): (r: nat)
    ensures r < Pow(2, n)
  {
    if n == 0 then 0 else (if a % 2 == b % 2 then 0 else 1) + 2 * XorBits(a / 2, b / 2, n - 1)
  }

  function Xor(a: byte, b: byte): byte {
    assert Pow(2, 8) == 256;
    XorBits(a, b, 8)
  }

  lemma {:induction false} XorBitsTwice(a: nat, b: nat, n: nat)
    requires a < Pow(2, n)
    ensures XorBits(XorBits(a, b, n), b, n) == a
  {
    if n > 0 {
      var bit, high := if a % 2 == b % 2 then 0 else 1, XorBits(a / 2, b / 2, n - 1);
      assert (bit + 2 * high) / 2 == high && (bit + 2 * high) % 2 == bit;
      XorBitsTwice(a / 2, b / 2, n - 1);
    }
  }

  lemma XorTwice(a: byte, b: byte)
    ensures Xor(Xor(a, b), b) == a
  {
    assert Pow(2, 8) == 256;
    XorBitsTwice(a, b, 8);
  }

  /** Bit k of a number. */
  function Bit(n: nat, k: nat): nat { if k == 0 then n % 2 else Bit(n / 2, k - 1) }

  lemma {:induction false} XorBitsAt(a: nat, b: nat, n: nat, k: nat)
    requires k < n
    ensures Bit(XorBits(a, b, n), k) == if Bit(a, k) == Bit(b, k) then 0 else 1
  {
    var bit, high := if a % 2 == b % 2 then 0 else 1, XorBits(a / 2, b / 2, n - 1);
    assert (bit + 2 * high) / 2 == high && (bit + 2 * high) % 2 == bit;
    if k > 0 { XorBitsAt(a / 2, b / 2, n - 1, k - 1); }
  }

  /** A bit of the exclusive or is set exactly where the two bytes differ. */
  lemma XorAt(a: byte, b: byte, k: nat)
    requires k < 8
    ensures Bit(Xor(a, b), k) == 1 <==> Bit(a, k) != Bit(b, k)
  {
    XorBitsAt(a, b, 8, k);
  }

  /** The payload under the masking key; masking twice with one key is the identity. */
  function Mask(key: Key, data: Bytes): (r: Bytes)
    ensures |r| == |data|
    ensures forall k | 0 <= k < |data| :: r[k] == Xor(data[k], key[k % 4])
  {
    seq(|data|, k requires 0 <= k < |data| => Xor(data[k], key[k % 4]))
  }

  lemma MaskTwice(key: Key, data: Bytes)
    ensures Mask(key, Mask(key, data)) == data
  {
    forall k | 0 <= k < |data| ensures Mask(key, Mask(key, data))[k] == data[k] {
      XorTwice(data[k], key[k % 4]);
    }
  }

  // ---- numbers in network byte order -----------------------------------------------------------

  function FromBytes(b: Bytes): nat {
    if b == [] then 0 else 256 * FromBytes(b[..|b| - 1]) + b[|b| - 1]
  }

  function ToBytes(n: nat, count: nat): (b: Bytes)
    ensures |b| == count
  {
    if count == 0 then [] else ToBytes(n / 256, count - 1) + [n % 256]
  }

  lemma {:induction false} BytesRoundTrip(n: nat, count: nat)
    requires n < Pow(256, count)
    ensures FromBytes(ToBytes(n, count)) == n
  {
    if count > 0 {
      BytesRoundTrip(n / 256, count - 1);
      assert ToBytes(n, count)[..count - 1] == ToBytes(n / 256, count - 1);
    }
  }

  // ---- the wire form ---------------------------------------------------------------------------

  /** The largest length each form can carry; the long form must not use its top bit. */
  predicate Fits(n: nat, form: Form) {
    match form
    case Short => n < 126
    case Medium => n < 0x1_0000
    case Long => n < 0x8000_0000_0000_0000
  }

  function LengthBytes(n: nat, form: Form): Bytes
    requires Fits(n, form)
  {
    match form case Short => [] case Medium => ToBytes(n, 2) case Long => ToBytes(n, 8)
  }

  function LengthCode(n: nat, form: Form): (c: nat)
    requires Fits(n, form)
    ensures c < 128
  {
    match form case Short => n case Medium => 126 case Long => 127
  }

  /** A frame as any peer may send it: reserved bits, masking key and length form are the sender's choice. */
  function Wire(f: Frame, reserved: nat, key: Option<Key>, form: Form): Bytes
    requires reserved < 8 && Fits(|f.payload|, form)
  {
    Header(f, reserved, key, form) + Body(f, key)
  }

  function Header(f: Frame, reserved: nat, key: Option<Key>, form: Form): Bytes
    requires reserved < 8 && Fits(|f.payload|, form)
  {
    [(if f.fin then 128 else 0) + 16 * reserved + f.op,
     (if key.Some? then 128 else 0) + LengthCode(|f.payload|, form)]
    + LengthBytes(|f.payload|, form)
    + if key.Some? then key.value else []
  }

  function Body(f: Frame, key: Option<Key>): Bytes {
    if key.Some? then Mask(key.value, f.payload) else f.payload
  }

  // ---- decoding --------------------------------------------------------------------------------

  /** Oversized: a length with the top bit set, which the protocol forbids and the decoder does not check. */
  datatype Parsed = Incomplete | Oversized | Complete(frame: Frame, rest: Bytes)

  /** Where the payload starts and how long it is, when the buffer holds the whole header. */
  datatype HeaderInfo = Short_ | Info(start: nat, length: nat, key: Option<Key>)

  function ParseHeader(b: Bytes): (h: HeaderInfo)
    ensures h.Info? ==> 2 <= h.start <= |b|
  {
    if |b| < 2 then Short_
    else
      var code := b[1] % 128;
      var lenEnd := if code == 126 then 4 else if code == 127 then 10 else 2;
      if |b| < lenEnd then Short_
      else
        var length := if code < 126 then code else FromBytes(b[2..lenEnd]);
        if b[1] < 128 then Info(lenEnd, length, None)
        else if |b| < lenEnd + 4 then Short_
        else Info(lenEnd + 4, length, Some(b[lenEnd..lenEnd + 4]))
  }

  function Parse(b: Bytes): (p: Parsed)
    ensures p.Complete? ==> |p.rest| < |b|
  {
    var h := ParseHeader(b);
    if h.Short_? then Incomplete
    else if h.length >= 0x8000_0000_0000_0000 then Oversized
    else if |b| < h.start + h.length then Incomplete
    else
      var data := b[h.start..h.start + h.length];
      Complete(Frame(b[0] >= 128, b[0] % 16, if h.key.Some? then Mask(h.key.value, data) else data),
               b[h.start + h.length..])
  }

  /** The header a peer writes is read back exactly, and every proper prefix of it is too short. */
  lemma HeaderRoundTrip(f: Frame, reserved: nat, key: Option<Key>, form: Form, rest: Bytes)
    requires reserved < 8 && Fits(|f.payload|, form)
    ensures
      var h := Header(f, reserved, key, form);
      && ParseHeader(h + rest) == Info(|h|, |f.payload|, key)
      && (h + rest)[0] % 16 == f.op && ((h + rest)[0] >= 128 <==> f.fin)
  {
    var h := Header(f, reserved, key, form);
    var n := |f.payload|;
    var b := h + rest;
    var length := LengthBytes(n, form);
    assert b[0] == (if f.fin then 128 else 0) + 16 * reserved + f.op;
    assert b[1] == (if key.Some? then 128 else 0) + LengthCode(n, form);
    assert b[1] % 128 == LengthCode(n, form);
    assert b[2..2 + |length|] == length;
    if form != Short { LengthRoundTrip(n, form); }
    if key.Some? { assert b[2 + |length|..2 + |length| + 4] == key.value; }
  }

  lemma LengthRoundTrip(n: nat, form: Form)
    requires Fits(n, form) && form != Short
    ensures FromBytes(LengthBytes(n, form)) == n
  {
    assert Pow(256, 2) == 0x1_0000;
    assert Pow(256, 8) == 0x1_0000_0000_0000_0000;
    BytesRoundTrip(n, if form == Medium then 2 else 8);
  }

  lemma HeaderPrefix(f: Frame, reserved: nat, key: Option<Key>, form: Form, k: nat)
    requires reserved < 8 && Fits(|f.payload|, form) && k < |Header(f, reserved, key, form)|
    ensures ParseHeader(Header(f, reserved, key, form)[..k]).Short_?
  {
    var b := Header(f, reserved, key, form)[..k];
    if k >= 2 { assert b[1] == (if key.Some? then 128 else 0) + LengthCode(|f.payload|, form); }
  }

  /** Decoding what any peer sent yields the frame and leaves exactly the bytes after it. */
  lemma FrameRoundTrip(f: Frame, reserved: nat, key: Option<Key>, form: Form, rest: Bytes)
    requires reserved < 8 && Fits(|f.payload|, form)
    ensures Parse(Wire(f, reserved, key, form) + rest) == Complete(f, rest)
  {
    hide Header, ParseHeader;
    var h := Header(f, reserved, key, form);
    var body := Body(f, key);
    var b := Wire(f, reserved, key, form) + rest;
    assert b == h + (body + rest);
    HeaderRoundTrip(f, reserved, key, form, body + rest);
    assert b[|h|..|h| + |f.payload|] == body;
    assert b[|h| + |f.payload|..] == rest;
    if key.Some? { MaskTwice(key.value, f.payload); }
  }

  /** No proper prefix of an encoding is an encoding, across the three forms: the decoder asks for more. */
  lemma ProperPrefixIncomplete(f: Frame, reserved: nat, key: Option<Key>, form: Form, k: nat)
    requires reserved < 8 && Fits(|f.payload|, form) && k < |Wire(f, reserved, key, form)|
    ensures Parse(Wire(f, reserved, key, form)[..k]) == Incomplete
  {
    hide Header, ParseHeader;
    var h := Header(f, reserved, key, form);
    var w := Wire(f, reserved, key, form);
    if k < |h| {
      assert w[..k] == h[..k];
      HeaderPrefix(f, reserved, key, form, k);
    } else {
      assert w[..k] == h + w[|h|..k];
      HeaderRoundTrip(f, reserved, key, form, w[|h|..k]);
    }
  }

  /** More input never changes what was already decoded. */
  lemma ParseMore(b: Bytes, more: Bytes)
    ensures Parse(b).Complete? ==> Parse(b + more) == Complete(Parse(b).frame, Parse(b).rest + more)
    ensures Parse(b).Oversized? ==> Parse(b + more).Oversized?
  {
    var h := ParseHeader(b);
    if h.Info? {
      HeaderMore(b, more);
      if |b| >= h.start + h.length {
        assert (b + more)[h.start..h.start + h.length] == b[h.start..h.start + h.length];
        assert (b + more)[h.start + h.length..] == b[h.start + h.length..] + more;
      }
    }
  }

  lemma HeaderMore(b: Bytes, more: Bytes)
    requires ParseHeader(b).Info?
    ensures ParseHeader(b + more) == ParseHeader(b)
  {
    assert (b + more)[1] == b[1];
    forall i, j | 0 <= i <= j <= |b| ensures (b + more)[i..j] == b[i..j] {}
  }

  // ---- the examples of section 5.7 of RFC 6455 ---------------------------------------------------

  const HELLO: Data := [0x48, 0x65, 0x6C, 0x6C, 0x6F]
  const HELLO_KEY: Key := [0x37, 0xFA, 0x21, 0x3D]

  lemma HelloMasked()
    ensures Mask(HELLO_KEY, [0x7F, 0x9F, 0x4D, 0x51, 0x58]) == HELLO
  {
    assert Xor(0x7F, 0x37) == 0x48;
    assert Xor(0x9F, 0xFA) == 0x65;
    assert Xor(0x4D, 0x21) == 0x6C;
    assert Xor(0x51, 0x3D) == 0x6C;
    assert Xor(0x58, 0x37) == 0x6F;
  }

  lemma ParseBody(b: Bytes, h: HeaderInfo)
    requires h.Info? && ParseHeader(b) == h && |b| == h.start + h.length && h.length < 126
    ensures Parse(b) == Complete(Frame(b[0] >= 128, b[0] % 16,
                                       if h.key.Some? then Mask(h.key.value, b[h.start..]) else b[h.start..]), [])
  {
    hide ParseHeader, Mask;
    assert b[h.start..h.start + h.length] == b[h.start..] && b[h.start + h.length..] == [];
  }

  /** A single-frame text message, masked and not, and the same in two fragments. */
  lemma TextExamples()
    ensures Parse([0x81, 0x05] + HELLO) == Complete(Frame(true, TEXT, HELLO), [])
    ensures Parse([0x81, 0x85, 0x37, 0xFA, 0x21, 0x3D, 0x7F, 0x9F, 0x4D, 0x51, 0x58])
            == Complete(Frame(true, TEXT, HELLO), [])
    ensures Parse([0x01, 0x03, 0x48, 0x65, 0x6C]) == Complete(Frame(false, TEXT, HELLO[..3]), [])
    ensures Parse([0x80, 0x02, 0x6C, 0x6F]) == Complete(Frame(true, CONTINUATION, HELLO[3..]), [])
  {
    hide Parse, Xor;
    WholeText();
    MaskedText();
    FragmentedText();
  }

  lemma WholeText()
    ensures Parse([0x81, 0x05] + HELLO) == Complete(Frame(true, TEXT, HELLO), [])
  {
    hide Parse, Mask, Xor;
    ParseBody([0x81, 0x05] + HELLO, Info(2, 5, None));
    assert ([0x81, 0x05] + HELLO)[2..] == HELLO;
  }

  lemma MaskedText()
    ensures Parse([0x81, 0x85, 0x37, 0xFA, 0x21, 0x3D, 0x7F, 0x9F, 0x4D, 0x51, 0x58])
            == Complete(Frame(true, TEXT, HELLO), [])
  {
    hide Parse, Mask, Xor;
    var masked := [0x81, 0x85, 0x37, 0xFA, 0x21, 0x3D, 0x7F, 0x9F, 0x4D, 0x51, 0x58];
    assert masked[2..6] == HELLO_KEY && masked[6..] == [0x7F, 0x9F, 0x4D, 0x51, 0x58];
    HelloMasked();
    ParseBody(masked, Info(6, 5, Some(HELLO_KEY)));
  }

  lemma FragmentedText()
    ensures Parse([0x01, 0x03, 0x48, 0x65, 0x6C]) == Complete(Frame(false, TEXT, HELLO[..3]), [])
    ensures Parse([0x80, 0x02, 0x6C, 0x6F]) == Complete(Frame(true, CONTINUATION, HELLO[3..]), [])
  {
    hide Parse, Mask, Xor;
    var first, second: Bytes := [0x01, 0x03, 0x48, 0x65, 0x6C], [0x80, 0x02, 0x6C, 0x6F];
    assert first[2..] == HELLO[..3] && second[2..] == HELLO[3..];
    ParseBody(first, Info(2, 3, None));
    ParseBody(second, Info(2, 2, None));
  }

  /** A ping, and the masked pong that answers it. */
  lemma ControlExamples()
    ensures Parse([0x89, 0x05] + HELLO) == Complete(Frame(true, PING, HELLO), [])
    ensures Parse([0x8A, 0x85, 0x37, 0xFA, 0x21, 0x3D, 0x7F, 0x9F, 0x4D, 0x51, 0x58])
            == Complete(Frame(true, PONG, HELLO), [])
  {
    hide Mask, Xor;
    ParseBody([0x89, 0x05] + HELLO, Info(2, 5, None));
    assert ([0x89, 0x05] + HELLO)[2..] == HELLO;
    var masked := [0x8A, 0x85, 0x37, 0xFA, 0x21, 0x3D, 0x7F, 0x9F, 0x4D, 0x51, 0x58];
    assert masked[2..6] == HELLO_KEY && masked[6..] == [0x7F, 0x9F, 0x4D, 0x51, 0x58];
    HelloMasked();
    ParseBody(masked, Info(6, 5, Some(HELLO_KEY)));
  }

  /** The headers of 256 bytes and of 64 kibibytes of binary data. */
  lemma LengthExamples(rest: Bytes)
    ensures ParseHeader([0x82, 0x7E, 0x01, 0x00] + rest) == Info(4, 256, None)
    ensures ParseHeader([0x82, 0x7F, 0, 0, 0, 0, 0, 1, 0, 0] + rest) == Info(10, 0x1_0000, None)
    ensures 0x82 % 16 == BINARY && 0x88 % 16 == CLOSE
  {
    var data: Data := seq(256, _ => 0);
    HeaderRoundTrip(Frame(true, BINARY, data), 0, None, Medium, rest);
    assert ToBytes(256, 2) == [1, 0] by { assert ToBytes(1, 1) == [1]; }
    assert Header(Frame(true, BINARY, data), 0, None, Medium) == [0x82, 0x7E, 0x01, 0x00];
    var more: Data := seq(0x1_0000, _ => 0);
    HeaderRoundTrip(Frame(true, BINARY, more), 0, None, Long, rest);
    SixtyFourKi();
    assert Header(Frame(true, BINARY, more), 0, None, Long) == [0x82, 0x7F, 0, 0, 0, 0, 0, 1, 0, 0];
  }

  lemma SixtyFourKi()
    ensures ToBytes(0x1_0000, 8) == [0, 0, 0, 0, 0, 1, 0, 0]
  {
    assert ToBytes(1, 6) == [0, 0, 0, 0, 0, 1];
    assert ToBytes(256, 7) == ToBytes(1, 6) + [0];
  }

  // ---- encoding --------------------------------------------------------------------------------

  function ShortestForm(n: nat): Form {
    if n < 126 then Short else if n <= 0xFFFF then Medium else Long
  }

  /** EncodeFrame: appends the unmasked frame with the shortest length form. */
  method EncodeFrame(f: Frame, out: Bytes) returns (r: Bytes)
    ensures r == out + Wire(f, 0, None, ShortestForm(|f.payload|))
  {
    var n := |f.payload|;
    r := out + [(if f.fin then 128 else 0) + f.op];
    if n < 126 {
      r := r + [n];
    } else if n <= 0xFFFF {
      r := r + [126];
      r := r + [n / 256 % 256, n % 256];
      assert ToBytes(n, 2) == ToBytes(n / 256, 1) + [n % 256];
      assert ToBytes(n / 256, 1) == [n / 256 % 256];
    } else {
      r := AppendLong(r + [127], n);
    }
    r := r + f.payload;
  }

  /** n shifted right by k bytes. */
  function ShiftRight(n: nat, k: nat): nat {
    if k == 0 then n else ShiftRight(n, k - 1) / 256
  }

  /** The eight length bytes, most significant first. */
  method AppendLong(out: Bytes, n: nat) returns (r: Bytes)
    ensures r == out + ToBytes(n, 8)
  {
    r := out;
    var k := 7;
    while k >= 0
      invariant -1 <= k <= 7
      invariant r == out + ToBytes(ShiftRight(n, k + 1), 7 - k)
    {
      r := r + [ShiftRight(n, k) % 256];
      k := k - 1;
    }
  }

  lemma FromTwo(b: Bytes)
    requires |b| == 2
    ensures FromBytes(b) == (b[0] as int) * 256 + b[1]
  {
    assert b[..1] == [b[0]] && [b[0]][..0] == [];
    assert FromBytes([b[0]]) == b[0];
  }

  method ReadLong(b: Bytes) returns (plen: nat)
    requires |b| == 8
    ensures plen == FromBytes(b)
  {
    plen := 0;
    for k := 0 to 8
      invariant plen == FromBytes(b[..k])
    {
      assert b[..k + 1][..k] == b[..k];
      plen := plen * 256 + b[k];
    }
    assert b[..8] == b;
  }

  method Unmask(data: Bytes, masked: bool, mask: Key) returns (payload: Bytes)
    ensures payload == if masked then Mask(mask, data) else data
  {
    payload := [];
    for k := 0 to |data|
      invariant |payload| == k
      invariant forall j | 0 <= j < k :: payload[j] == if masked then Xor(data[j], mask[j % 4]) else data[j]
    {
      var c := data[k];
      if masked { c := Xor(c, mask[k % 4]); }
      payload := payload + [c];
    }
  }

  // ---- the decoder object ----------------------------------------------------------------------

  class WsDecoder {
    var buf: Bytes

    constructor ()
      ensures buf == []
    {
      buf := [];
    }

    method Feed(data: Bytes)
      modifies this
      ensures buf == old(buf) + data
    {
      buf := buf + data;
    }

    /** One complete frame is taken off the front of the buffer, or nothing changes. */
    method TryDecode() returns (r: int, f: Frame)
      requires !Parse(buf).Oversized?
      modifies this
      ensures r == 1 || r == 0
      ensures r == 1 ==> Parse(old(buf)) == Complete(f, buf)
      ensures r == 0 ==> Parse(old(buf)).Incomplete? && buf == old(buf)
    {
      hide FromBytes, Mask, Xor;
      f := Frame(false, 0, []);
      if |buf| < 2 { return 0, f; }
      var i := 2;
      var b1, b2 := buf[0], buf[1];
      var fin, opcode := b1 >= 128, b1 % 16;
      var masked := b2 >= 128;
      var plen: nat := b2 % 128;
      if plen == 126 {
        if |buf| < i + 2 { return 0, f; }
        plen := (buf[i] as int) * 256 + buf[i + 1];
        i := i + 2;
        FromTwo(buf[2..4]);
      } else if plen == 127 {
        if |buf| < i + 8 { return 0, f; }
        plen := ReadLong(buf[i..i + 8]);
        i := i + 8;
      }
      var mask: Bytes := [0, 0, 0, 0];
      if masked {
        if |buf| < i + 4 { return 0, f; }
        mask := buf[i..i + 4];
        i := i + 4;
      }
      assert ParseHeader(buf) == Info(i, plen, if masked then Some(mask) else None);
      if |buf| < i + plen { return 0, f; }
      var payload := Unmask(buf[i..i + plen], masked, mask);
      buf := buf[i + plen..];
      return 1, Frame(fin, opcode, payload);
    }
  }
}
