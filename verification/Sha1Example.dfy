/** The example of section 7.3 of RFC 3174: the digest of "abc", worked out word by word and round by round. */
module Sha1Example {
  import opened Common
  import opened Sha1Hash

  const MESSAGE: Bytes := [0x61, 0x62, 0x63]        // "abc"
  const BLOCK: Block := [0x61, 0x62, 0x63, 0x80] + ZEROS(59) + [0x18]

  lemma PaddedBlock()
    ensures Pad(MESSAGE) == BLOCK
  {
    hide LengthField, ZEROS;
    LengthOfAbc();
    assert Pad(MESSAGE) == MESSAGE + [0x80] + ZEROS(52) + (ZEROS(7) + [0x18]);
    ZerosJoin(52, 7);
    assert MESSAGE + [0x80] == [0x61, 0x62, 0x63, 0x80];
    Assoc([0x61, 0x62, 0x63, 0x80], ZEROS(52), ZEROS(7) + [0x18]);
    Assoc(ZEROS(52), ZEROS(7), [0x18]);
    Assoc([0x61, 0x62, 0x63, 0x80], ZEROS(59), [0x18]);
  }

  lemma ZerosJoin(a: nat, b: nat)
    ensures ZEROS(a) + ZEROS(b) == ZEROS(a + b)
  {
  }

  lemma LengthOfAbc()
    ensures LengthField(24, 8) == ZEROS(7) + [0x18]
  {
    hide ZEROS, LengthField;
    ZeroField(7);
    LastByte(24, 8);
  }

  lemma LastByte(bits: nat, k: nat)
    requires 0 < k <= 8 && bits < 256
    ensures LengthField(bits, k) == LengthField(0, k - 1) + [bits as byte]
  {
    assert bits / 256 == 0 && bits % 256 == bits;
  }

  lemma {:induction false} ZeroField(k: nat)
    requires k <= 8
    ensures LengthField(0, k) == ZEROS(k)
  {
    if k > 0 {
      ZeroField(k - 1);
      assert ZEROS(k) == ZEROS(k - 1) + [0];
    }
  }

  // ---- the schedule -------------------------------------------------------------------------------

  /** The schedule words of the block from t on. */
  ghost predicate Words(t: nat, w: seq<Word>) {
    && |w| == 16
    && Schedule(BLOCK, t + 0) == w[0] && Schedule(BLOCK, t + 1) == w[1] && Schedule(BLOCK, t + 2) == w[2] && Schedule(BLOCK, t + 3) == w[3]
    && Schedule(BLOCK, t + 4) == w[4] && Schedule(BLOCK, t + 5) == w[5] && Schedule(BLOCK, t + 6) == w[6] && Schedule(BLOCK, t + 7) == w[7]
    && Schedule(BLOCK, t + 8) == w[8] && Schedule(BLOCK, t + 9) == w[9] && Schedule(BLOCK, t + 10) == w[10] && Schedule(BLOCK, t + 11) == w[11]
    && Schedule(BLOCK, t + 12) == w[12] && Schedule(BLOCK, t + 13) == w[13] && Schedule(BLOCK, t + 14) == w[14] && Schedule(BLOCK, t + 15) == w[15]
  }

  const ROW0: seq<Word> := [
    0x61626380, 0x00000000, 0x00000000, 0x00000000,
    0x00000000, 0x00000000, 0x00000000, 0x00000000,
    0x00000000, 0x00000000, 0x00000000, 0x00000000,
    0x00000000, 0x00000000, 0x00000000, 0x00000018]

  const ROW1: seq<Word> := [
    0xC2C4C700, 0x00000000, 0x00000030, 0x85898E01,
    0x00000000, 0x00000060, 0x0B131C03, 0x00000030,
    0x85898EC1, 0x16263806, 0x00000000, 0x00000180,
    0x2C4C700C, 0x000000F0, 0x93AFB507, 0x5898E048]

  const ROW2: seq<Word> := [
    0x8E9A9202, 0x00000600, 0xB131C0F0, 0x16263BC6,
    0x4EBED41E, 0x626380A1, 0x16263806, 0x000018C0,
    0xD2E138C4, 0x00000F00, 0x3AFB5079, 0x898E04E5,
    0xE2BA3C2B, 0x000060C0, 0x053A37CD, 0x74458547]

  const ROW3: seq<Word> := [
    0xDA9415ED, 0x26380A16, 0x626383A1, 0x4EBF54DE,
    0x3835B44B, 0x0000F600, 0x1E84C7A3, 0x98E04D98,
    0x651D16A0, 0x62658CA1, 0x458544D6, 0x44584CB7,
    0x7BA06619, 0x6380AEA2, 0x0AE55269, 0x627B49A1]

  const ROW4: seq<Word> := [
    0x7CD45C9D, 0x000F0000, 0xFB50753A, 0xEC6765E8,
    0xBA3C2BE2, 0x0060C000, 0x3A37CD05, 0x458546F4,
    0xB8599DD6, 0x380A1A26, 0x01E02203, 0xE7CC3456,
    0xE6E60B69, 0x00F60A00, 0x5795EF4F, 0x822E0879]

  lemma NextWord(t: nat, a: Word, b: Word, c: Word, d: Word, x: Word)
    requires t >= 16 && Schedule(BLOCK, t - 3) == a && Schedule(BLOCK, t - 8) == b
    requires Schedule(BLOCK, t - 14) == c && Schedule(BLOCK, t - 16) == d && x == Expanded(a, b, c, d)
    ensures Schedule(BLOCK, t) == x
  {
    hide Expanded, Schedule;
    ScheduleNext(BLOCK, t);
  }

  lemma FirstRow()
    ensures Words(0, ROW0)
  {
  }

  lemma Row1()
    requires Words(0, ROW0)
    ensures Words(16, ROW1)
  {
    hide Schedule;
    NextWord(16, 0x00000000, 0x00000000, 0x00000000, 0x61626380, 0xC2C4C700);
    NextWord(17, 0x00000000, 0x00000000, 0x00000000, 0x00000000, 0x00000000);
    NextWord(18, 0x00000018, 0x00000000, 0x00000000, 0x00000000, 0x00000030);
    NextWord(19, 0xC2C4C700, 0x00000000, 0x00000000, 0x00000000, 0x85898E01);
    NextWord(20, 0x00000000, 0x00000000, 0x00000000, 0x00000000, 0x00000000);
    NextWord(21, 0x00000030, 0x00000000, 0x00000000, 0x00000000, 0x00000060);
    NextWord(22, 0x85898E01, 0x00000000, 0x00000000, 0x00000000, 0x0B131C03);
    NextWord(23, 0x00000000, 0x00000018, 0x00000000, 0x00000000, 0x00000030);
    NextWord(24, 0x00000060, 0xC2C4C700, 0x00000000, 0x00000000, 0x85898EC1);
    NextWord(25, 0x0B131C03, 0x00000000, 0x00000000, 0x00000000, 0x16263806);
    NextWord(26, 0x00000030, 0x00000030, 0x00000000, 0x00000000, 0x00000000);
    NextWord(27, 0x85898EC1, 0x85898E01, 0x00000000, 0x00000000, 0x00000180);
    NextWord(28, 0x16263806, 0x00000000, 0x00000000, 0x00000000, 0x2C4C700C);
    NextWord(29, 0x00000000, 0x00000060, 0x00000018, 0x00000000, 0x000000F0);
    NextWord(30, 0x00000180, 0x0B131C03, 0xC2C4C700, 0x00000000, 0x93AFB507);
    NextWord(31, 0x2C4C700C, 0x00000030, 0x00000000, 0x00000018, 0x5898E048);
  }

  lemma Row2()
    requires Words(16, ROW1)
    ensures Words(32, ROW2)
  {
    hide Schedule;
    NextWord(32, 0x000000F0, 0x85898EC1, 0x00000030, 0xC2C4C700, 0x8E9A9202);
    NextWord(33, 0x93AFB507, 0x16263806, 0x85898E01, 0x00000000, 0x00000600);
    NextWord(34, 0x5898E048, 0x00000000, 0x00000000, 0x00000030, 0xB131C0F0);
    NextWord(35, 0x8E9A9202, 0x00000180, 0x00000060, 0x85898E01, 0x16263BC6);
    NextWord(36, 0x00000600, 0x2C4C700C, 0x0B131C03, 0x00000000, 0x4EBED41E);
    NextWord(37, 0xB131C0F0, 0x000000F0, 0x00000030, 0x00000060, 0x626380A1);
    NextWord(38, 0x16263BC6, 0x93AFB507, 0x85898EC1, 0x0B131C03, 0x16263806);
    NextWord(39, 0x4EBED41E, 0x5898E048, 0x16263806, 0x00000030, 0x000018C0);
    NextWord(40, 0x626380A1, 0x8E9A9202, 0x00000000, 0x85898EC1, 0xD2E138C4);
    NextWord(41, 0x16263806, 0x00000600, 0x00000180, 0x16263806, 0x00000F00);
    NextWord(42, 0x000018C0, 0xB131C0F0, 0x2C4C700C, 0x00000000, 0x3AFB5079);
    NextWord(43, 0xD2E138C4, 0x16263BC6, 0x000000F0, 0x00000180, 0x898E04E5);
    NextWord(44, 0x00000F00, 0x4EBED41E, 0x93AFB507, 0x2C4C700C, 0xE2BA3C2B);
    NextWord(45, 0x3AFB5079, 0x626380A1, 0x5898E048, 0x000000F0, 0x000060C0);
    NextWord(46, 0x898E04E5, 0x16263806, 0x8E9A9202, 0x93AFB507, 0x053A37CD);
    NextWord(47, 0xE2BA3C2B, 0x000018C0, 0x00000600, 0x5898E048, 0x74458547);
  }

  lemma Row3()
    requires Words(32, ROW2)
    ensures Words(48, ROW3)
  {
    hide Schedule;
    NextWord(48, 0x000060C0, 0xD2E138C4, 0xB131C0F0, 0x8E9A9202, 0xDA9415ED);
    NextWord(49, 0x053A37CD, 0x00000F00, 0x16263BC6, 0x00000600, 0x26380A16);
    NextWord(50, 0x74458547, 0x3AFB5079, 0x4EBED41E, 0xB131C0F0, 0x626383A1);
    NextWord(51, 0xDA9415ED, 0x898E04E5, 0x626380A1, 0x16263BC6, 0x4EBF54DE);
    NextWord(52, 0x26380A16, 0xE2BA3C2B, 0x16263806, 0x4EBED41E, 0x3835B44B);
    NextWord(53, 0x626383A1, 0x000060C0, 0x000018C0, 0x626380A1, 0x0000F600);
    NextWord(54, 0x4EBF54DE, 0x053A37CD, 0xD2E138C4, 0x16263806, 0x1E84C7A3);
    NextWord(55, 0x3835B44B, 0x74458547, 0x00000F00, 0x000018C0, 0x98E04D98);
    NextWord(56, 0x0000F600, 0xDA9415ED, 0x3AFB5079, 0xD2E138C4, 0x651D16A0);
    NextWord(57, 0x1E84C7A3, 0x26380A16, 0x898E04E5, 0x00000F00, 0x62658CA1);
    NextWord(58, 0x98E04D98, 0x626383A1, 0xE2BA3C2B, 0x3AFB5079, 0x458544D6);
    NextWord(59, 0x651D16A0, 0x4EBF54DE, 0x000060C0, 0x898E04E5, 0x44584CB7);
    NextWord(60, 0x62658CA1, 0x3835B44B, 0x053A37CD, 0xE2BA3C2B, 0x7BA06619);
    NextWord(61, 0x458544D6, 0x0000F600, 0x74458547, 0x000060C0, 0x6380AEA2);
    NextWord(62, 0x44584CB7, 0x1E84C7A3, 0xDA9415ED, 0x053A37CD, 0x0AE55269);
    NextWord(63, 0x7BA06619, 0x98E04D98, 0x26380A16, 0x74458547, 0x627B49A1);
  }

  lemma Row4()
    requires Words(48, ROW3)
    ensures Words(64, ROW4)
  {
    hide Schedule;
    NextWord(64, 0x6380AEA2, 0x651D16A0, 0x626383A1, 0xDA9415ED, 0x7CD45C9D);
    NextWord(65, 0x0AE55269, 0x62658CA1, 0x4EBF54DE, 0x26380A16, 0x000F0000);
    NextWord(66, 0x627B49A1, 0x458544D6, 0x3835B44B, 0x626383A1, 0xFB50753A);
    NextWord(67, 0x7CD45C9D, 0x44584CB7, 0x0000F600, 0x4EBF54DE, 0xEC6765E8);
    NextWord(68, 0x000F0000, 0x7BA06619, 0x1E84C7A3, 0x3835B44B, 0xBA3C2BE2);
    NextWord(69, 0xFB50753A, 0x6380AEA2, 0x98E04D98, 0x0000F600, 0x0060C000);
    NextWord(70, 0xEC6765E8, 0x0AE55269, 0x651D16A0, 0x1E84C7A3, 0x3A37CD05);
    NextWord(71, 0xBA3C2BE2, 0x627B49A1, 0x62658CA1, 0x98E04D98, 0x458546F4);
    NextWord(72, 0x0060C000, 0x7CD45C9D, 0x458544D6, 0x651D16A0, 0xB8599DD6);
    NextWord(73, 0x3A37CD05, 0x000F0000, 0x44584CB7, 0x62658CA1, 0x380A1A26);
    NextWord(74, 0x458546F4, 0xFB50753A, 0x7BA06619, 0x458544D6, 0x01E02203);
    NextWord(75, 0xB8599DD6, 0xEC6765E8, 0x6380AEA2, 0x44584CB7, 0xE7CC3456);
    NextWord(76, 0x380A1A26, 0xBA3C2BE2, 0x0AE55269, 0x7BA06619, 0xE6E60B69);
    NextWord(77, 0x01E02203, 0x0060C000, 0x627B49A1, 0x6380AEA2, 0x00F60A00);
    NextWord(78, 0xE7CC3456, 0x3A37CD05, 0x7CD45C9D, 0x0AE55269, 0x5795EF4F);
    NextWord(79, 0xE6E60B69, 0x458546F4, 0x000F0000, 0x627B49A1, 0x822E0879);
  }

  lemma AllRows()
    ensures Words(0, ROW0) && Words(16, ROW1) && Words(32, ROW2) && Words(48, ROW3) && Words(64, ROW4)
  {
    hide Words;
    FirstRow();
    Row1();
    Row2();
    Row3();
    Row4();
  }

  // ---- the rounds ---------------------------------------------------------------------------------

  /** One round: a is the new first word, and the others move along. */
  lemma Step(t: nat, v: Chain, w: Word, a: Word) returns (r: Chain)
    requires Rounds(INITIAL, BLOCK, t) == v && Schedule(BLOCK, t) == w
    requires a == Plus(Plus(Plus(Plus(Rol(v.a, 5), F(t, v.b, v.c, v.d)), v.e), K(t)), w)
    ensures r == Chain(a, v.a, Rol(v.b, 30), v.c, v.d) && Rounds(INITIAL, BLOCK, t + 1) == r
  {
    r := Round(v, t, w);
  }

  lemma Rounds0()
    requires Words(0, ROW0)
    ensures Rounds(INITIAL, BLOCK, 16) == Chain(0x20BDD62F, 0x196BEE77, 0x644A3DA5, 0x1181ED99, 0x18C623F9)
  {
    hide Schedule, Rounds;
    assert Rounds(INITIAL, BLOCK, 0) == INITIAL by { Before(); }
    var v := INITIAL;
    v := Step(0, v, 0x61626380, 0x0116FC33);
    v := Step(1, v, 0x00000000, 0x8990536D);
    v := Step(2, v, 0x00000000, 0xA1390F08);
    v := Step(3, v, 0x00000000, 0xCDD8E11B);
    v := Step(4, v, 0x00000000, 0xCFD499DE);
    v := Step(5, v, 0x00000000, 0x3FC7CA40);
    v := Step(6, v, 0x00000000, 0x993E30C1);
    v := Step(7, v, 0x00000000, 0x9E8C07D4);
    v := Step(8, v, 0x00000000, 0x4B6AE328);
    v := Step(9, v, 0x00000000, 0x8351F929);
    v := Step(10, v, 0x00000000, 0xFBDA9E89);
    v := Step(11, v, 0x00000000, 0x63188FE4);
    v := Step(12, v, 0x00000000, 0x4607B664);
    v := Step(13, v, 0x00000000, 0x9128F695);
    v := Step(14, v, 0x00000000, 0x196BEE77);
    v := Step(15, v, 0x00000018, 0x20BDD62F);
  }

  lemma Rounds16()
    requires Words(16, ROW1)
    requires Rounds(INITIAL, BLOCK, 16) == Chain(0x20BDD62F, 0x196BEE77, 0x644A3DA5, 0x1181ED99, 0x18C623F9)
    ensures Rounds(INITIAL, BLOCK, 32) == Chain(0x3B845D33, 0x1267B407, 0x717EEBD7, 0xA0DC2D4B, 0xD2AA1365)
  {
    hide Schedule, Rounds;
    var v := Chain(0x20BDD62F, 0x196BEE77, 0x644A3DA5, 0x1181ED99, 0x18C623F9);
    v := Step(16, v, 0xC2C4C700, 0x4E925823);
    v := Step(17, v, 0x00000000, 0x82AA6728);
    v := Step(18, v, 0x00000030, 0xDC64901D);
    v := Step(19, v, 0x85898E01, 0xFD9E1D7D);
    v := Step(20, v, 0x00000000, 0x1A37B0CA);
    v := Step(21, v, 0x00000060, 0x33A23BFC);
    v := Step(22, v, 0x0B131C03, 0x21283486);
    v := Step(23, v, 0x00000030, 0xD541F12D);
    v := Step(24, v, 0x85898EC1, 0xC7567DC6);
    v := Step(25, v, 0x16263806, 0x48413BA4);
    v := Step(26, v, 0x00000000, 0xBE35FBD5);
    v := Step(27, v, 0x00000180, 0x4AA84D97);
    v := Step(28, v, 0x2C4C700C, 0x8370B52E);
    v := Step(29, v, 0x000000F0, 0xC5FBAF5D);
    v := Step(30, v, 0x93AFB507, 0x1267B407);
    v := Step(31, v, 0x5898E048, 0x3B845D33);
  }

  lemma Rounds32()
    requires Words(32, ROW2)
    requires Rounds(INITIAL, BLOCK, 32) == Chain(0x3B845D33, 0x1267B407, 0x717EEBD7, 0xA0DC2D4B, 0xD2AA1365)
    ensures Rounds(INITIAL, BLOCK, 48) == Chain(0xBEAD02CA, 0xA01B846C, 0x8714787C, 0x503CA382, 0xFB86C6AB)
  {
    hide Schedule, Rounds;
    var v := Chain(0x3B845D33, 0x1267B407, 0x717EEBD7, 0xA0DC2D4B, 0xD2AA1365);
    v := Step(32, v, 0x8E9A9202, 0x046FAA0A);
    v := Step(33, v, 0x00000600, 0x2C0EBC11);
    v := Step(34, v, 0xB131C0F0, 0x21796AD4);
    v := Step(35, v, 0x16263BC6, 0xDCBBB0CB);
    v := Step(36, v, 0x4EBED41E, 0x0F511FD8);
    v := Step(37, v, 0x626380A1, 0xDC63973F);
    v := Step(38, v, 0x16263806, 0x4C986405);
    v := Step(39, v, 0x000018C0, 0x32DE1CBA);
    v := Step(40, v, 0xD2E138C4, 0xFC87DEDF);
    v := Step(41, v, 0x00000F00, 0x970A0D5C);
    v := Step(42, v, 0x3AFB5079, 0x7F193DC5);
    v := Step(43, v, 0x898E04E5, 0xEE1B1AAF);
    v := Step(44, v, 0xE2BA3C2B, 0x40F28E09);
    v := Step(45, v, 0x000060C0, 0x1C51E1F2);
    v := Step(46, v, 0x053A37CD, 0xA01B846C);
    v := Step(47, v, 0x74458547, 0xBEAD02CA);
  }

  lemma Rounds48()
    requires Words(48, ROW3)
    requires Rounds(INITIAL, BLOCK, 48) == Chain(0xBEAD02CA, 0xA01B846C, 0x8714787C, 0x503CA382, 0xFB86C6AB)
    ensures Rounds(INITIAL, BLOCK, 64) == Chain(0x6B61C9E1, 0xB66C020B, 0x9523272C, 0xF5D5B051, 0x8FD4B796)
  {
    hide Schedule, Rounds;
    var v := Chain(0xBEAD02CA, 0xA01B846C, 0x8714787C, 0x503CA382, 0xFB86C6AB);
    v := Step(48, v, 0xDA9415ED, 0xBAF39337);
    v := Step(49, v, 0x26380A16, 0x120731C5);
    v := Step(50, v, 0x626383A1, 0x641DB2CE);
    v := Step(51, v, 0x4EBF54DE, 0x3847AD66);
    v := Step(52, v, 0x3835B44B, 0xE490436D);
    v := Step(53, v, 0x0000F600, 0x27E9F1D8);
    v := Step(54, v, 0x1E84C7A3, 0x7B71F76D);
    v := Step(55, v, 0x98E04D98, 0x5E6456AF);
    v := Step(56, v, 0x651D16A0, 0xC846093F);
    v := Step(57, v, 0x62658CA1, 0xD262FF50);
    v := Step(58, v, 0x458544D6, 0x09D785FD);
    v := Step(59, v, 0x44584CB7, 0x3F52DE5A);
    v := Step(60, v, 0x7BA06619, 0xD756C147);
    v := Step(61, v, 0x6380AEA2, 0x548C9CB2);
    v := Step(62, v, 0x0AE55269, 0xB66C020B);
    v := Step(63, v, 0x627B49A1, 0x6B61C9E1);
  }

  lemma Rounds64()
    requires Words(64, ROW4)
    requires Rounds(INITIAL, BLOCK, 64) == Chain(0x6B61C9E1, 0xB66C020B, 0x9523272C, 0xF5D5B051, 0x8FD4B796)
    ensures Rounds(INITIAL, BLOCK, 80) == Chain(0x42541B35, 0x5738D5E1, 0x21834873, 0x681E6DF6, 0xD8FDF6AD)
  {
    hide Schedule, Rounds;
    var v := Chain(0x6B61C9E1, 0xB66C020B, 0x9523272C, 0xF5D5B051, 0x8FD4B796);
    v := Step(64, v, 0x7CD45C9D, 0x19DFA7AC);
    v := Step(65, v, 0x000F0000, 0x101655F9);
    v := Step(66, v, 0xFB50753A, 0x0C3DF2B4);
    v := Step(67, v, 0xEC6765E8, 0x78DD4D2B);
    v := Step(68, v, 0xBA3C2BE2, 0x497093C0);
    v := Step(69, v, 0x0060C000, 0x3F2588C2);
    v := Step(70, v, 0x3A37CD05, 0xC199F8C7);
    v := Step(71, v, 0x458546F4, 0x39859DE7);
    v := Step(72, v, 0xB8599DD6, 0xEDB42DE4);
    v := Step(73, v, 0x380A1A26, 0x11793F6F);
    v := Step(74, v, 0x01E02203, 0x5EE76897);
    v := Step(75, v, 0xE7CC3456, 0x63F7DAB7);
    v := Step(76, v, 0xE6E60B69, 0xA079B7D9);
    v := Step(77, v, 0x00F60A00, 0x860D21CC);
    v := Step(78, v, 0x5795EF4F, 0x5738D5E1);
    v := Step(79, v, 0x822E0879, 0x42541B35);
  }

  lemma Before()
    ensures Rounds(INITIAL, BLOCK, 0) == INITIAL
  {
  }

  lemma Chained()
    ensures Compress(INITIAL, BLOCK) == Chain(0xA9993E36, 0x4706816A, 0xBA3E2571, 0x7850C26C, 0x9CD0D89D)
  {
    hide Words, Rounds;
    AllRows();
    Rounds0();
    Rounds16();
    Rounds32();
    Rounds48();
    Rounds64();
  }

  const DIGEST: Bytes := [
    0xA9, 0x99, 0x3E, 0x36, 0x47, 0x06, 0x81, 0x6A, 0xBA, 0x3E,
    0x25, 0x71, 0x78, 0x50, 0xC2, 0x6C, 0x9C, 0xD0, 0xD8, 0x9D]

  /** SHA-1("abc") is a9993e364706816aba3e25717850c26c9cd0d89d. */
  lemma DigestOfAbc()
    ensures Digest(MESSAGE) == DIGEST
  {
    hide Compress, Pad;
    PaddedBlock();
    IterateBlock(INITIAL, BLOCK);
    Chained();
    Written();
  }

  /** The five words one after another. */
  lemma FiveWords(v: Chain)
    ensures Serialize(v.Words()) == WordBytes(v.a) + WordBytes(v.b) + WordBytes(v.c) + WordBytes(v.d) + WordBytes(v.e)
  {
    hide WordBytes, Serialize;
    Last([], v.a);
    Last([v.a], v.b);
    Last([v.a, v.b], v.c);
    Last([v.a, v.b, v.c], v.d);
    Last([v.a, v.b, v.c, v.d], v.e);
    Empty();
    assert [] + [v.a] == [v.a] && [v.a] + [v.b] == [v.a, v.b] && [v.a, v.b] + [v.c] == [v.a, v.b, v.c];
    assert [v.a, v.b, v.c] + [v.d] == [v.a, v.b, v.c, v.d] && [v.a, v.b, v.c, v.d] + [v.e] == v.Words();
  }

  lemma Last(w: seq<Word>, x: Word)
    ensures Serialize(w + [x]) == Serialize(w) + WordBytes(x)
  {
    assert (w + [x])[..|w|] == w;
  }

  lemma Empty()
    ensures Serialize([]) == []
  {
  }

  lemma Written()
    ensures Serialize(Chain(0xA9993E36, 0x4706816A, 0xBA3E2571, 0x7850C26C, 0x9CD0D89D).Words()) == DIGEST
  {
    hide WordBytes, Serialize;
    FiveWords(Chain(0xA9993E36, 0x4706816A, 0xBA3E2571, 0x7850C26C, 0x9CD0D89D));
    EachWord();
  }

  lemma EachWord()
    ensures WordBytes(0xA9993E36) == [0xA9, 0x99, 0x3E, 0x36]
    ensures WordBytes(0x4706816A) == [0x47, 0x06, 0x81, 0x6A]
    ensures WordBytes(0xBA3E2571) == [0xBA, 0x3E, 0x25, 0x71]
    ensures WordBytes(0x7850C26C) == [0x78, 0x50, 0xC2, 0x6C]
    ensures WordBytes(0x9CD0D89D) == [0x9C, 0xD0, 0xD8, 0x9D]
  {
  }
}
