/** BigInts to and from 64-bit words by way of hexadecimal text. */
module BigIntWords {
  import opened Common

  const W: nat := 0x1_0000_0000_0000_0000
  const INT_MAX: nat := 0x7FFF_FFFF
  const MAX_WORDS: nat := 0x100_0000       // 2^30 bits

  /** The bounds in their own terms: 2^30 bits, and the largest signed 32-bit integer. */
  lemma Limits()
    ensures W == Pow(2, 64) && 64 * MAX_WORDS == Pow(2, 30) && INT_MAX + 1 == Pow(2, 31)
  {
    assert Pow(2, 8) == 0x100;
    assert Pow(2, 16) == 0x1_0000;
    assert Pow(2, 24) == 0x100_0000;
    assert Pow(2, 32) == 0x1_0000_0000;
    assert Pow(2, 40) == 0x100_0000_0000;
    assert Pow(2, 48) == 0x1_0000_0000_0000;
    assert Pow(2, 56) == 0x100_0000_0000_0000;
  }

  type Word = x: int | 0 <= x < 0x1_0000_0000_0000_0000
  type Words = seq<Word>

  // ---- numbers as words ------------------------------------------------------------------------

  /** Least significant word first. */
  function Value(words: Words): nat {
    if words == [] then 0 else words[0] + W * Value(words[1..])
  }

  /** The words of a number, without high zero words. */
  function ToWords(n: nat): Words {
    if n == 0 then [] else [n % W] + ToWords(n / W)
  }

  function DropHighZeros(words: Words): Words {
    if words != [] && words[|words| - 1] == 0 then DropHighZeros(words[..|words| - 1]) else words
  }

  lemma {:induction false} ValueOfWords(n: nat)
    ensures Value(ToWords(n)) == n
    ensures ToWords(n) == [] || ToWords(n)[|ToWords(n)| - 1] != 0
  {
    if n > 0 {
      ValueOfWords(n / W);
      assert ToWords(n)[1..] == ToWords(n / W);
      if n / W == 0 { assert n % W == n; }
    }
  }

  lemma {:induction false} ValueBounds(words: Words)
    ensures words == [] || words[|words| - 1] != 0 <==> ToWords(Value(words)) == words
    ensures Value(words) == Value(DropHighZeros(words))
    decreases |words|
  {
    if words != [] {
      var rest := words[1..];
      ValueBounds(rest);
      DivModUnique(Value(words), W, Value(rest), words[0]);
      if words[|words| - 1] == 0 {
        var front := words[..|words| - 1];
        ValueOfFront(words);
        ValueBounds(front);
        ValueOfWords(Value(words));
      } else if rest == [] {
        assert ToWords(words[0]) == [words[0]] + ToWords(0);
      }
    }
  }

  lemma {:induction false} ValueOfFront(words: Words)
    requires words != [] && words[|words| - 1] == 0
    ensures Value(words) == Value(words[..|words| - 1])
  {
    if |words| > 1 {
      ValueOfFront(words[1..]);
      assert words[1..][..|words| - 2] == words[..|words| - 1][1..];
    }
  }

  /** Converting to a number and back only loses high zero words. */
  lemma {:induction false} WordsRoundTrip(words: Words)
    ensures ToWords(Value(words)) == DropHighZeros(words)
    decreases |words|
  {
    ValueBounds(words);
    if words != [] && words[|words| - 1] == 0 {
      ValueOfFront(words);
      WordsRoundTrip(words[..|words| - 1]);
    }
  }

  // ---- hexadecimal text ------------------------------------------------------------------------

  function Digit(d: nat): char
    requires d < 16
  {
    if d < 10 then '0' + d as char else 'a' + (d - 10) as char
  }

  function DigitValue(c: char): nat {
    if '0' <= c <= '9' then c as int - '0' as int else if 'a' <= c <= 'f' then c as int - 'a' as int + 10 else 0
  }

  /** The number a string of hexadecimal digits denotes. */
  function HexValue(s: string): nat {
    if s == [] then 0 else HexValue(s[..|s| - 1]) * 16 + DigitValue(s[|s| - 1])
  }

  /** The k low digits, with leading zeros: %016llx for k == 16. */
  function Fixed(n: nat, k: nat): (s: string)
    ensures |s| == k
  {
    if k == 0 then [] else Fixed(n / 16, k - 1) + [Digit(n % 16)]
  }

  /** The digits without leading zeros; none for zero. */
  function Digits(n: nat): string {
    if n == 0 then [] else Digits(n / 16) + [Digit(n % 16)]
  }

  /** %llx, and the magnitude part of toString(16). */
  function Shortest(n: nat): string { if n == 0 then "0" else Digits(n) }

  lemma DigitRoundTrip(d: nat)
    requires d < 16
    ensures DigitValue(Digit(d)) == d && Digit(d) != '-' && (Digit(d) == '0' <==> d == 0)
  {
  }

  lemma {:induction false} DigitsValue(n: nat)
    ensures HexValue(Digits(n)) == n
  {
    hide Digit, DigitValue;
    if n > 0 {
      DigitsValue(n / 16);
      DigitRoundTrip(n % 16);
      assert Digits(n)[..|Digits(n)| - 1] == Digits(n / 16);
    }
  }

  lemma {:induction false} FixedValue(n: nat, k: nat)
    ensures HexValue(Fixed(n, k)) == n % Pow(16, k)
  {
    hide Digit, DigitValue;
    if k > 0 {
      FixedValue(n / 16, k - 1);
      DigitRoundTrip(n % 16);
      DivModProduct(n, 16, Pow(16, k - 1));
      assert Fixed(n, k)[..k - 1] == Fixed(n / 16, k - 1);
    } else {
      assert Pow(16, 0) == 1;
    }
  }

  lemma WordIsSixteenDigits()
    ensures Pow(16, 16) == W
  {
    assert Pow(16, 4) == 0x1_0000;
    assert Pow(16, 8) == 0x1_0000_0000;
    assert Pow(16, 12) == 0x1_0000_0000_0000;
  }

  lemma {:induction false} HexValueAppend(a: string, b: string)
    ensures HexValue(a + b) == HexValue(a) * Pow(16, |b|) + HexValue(b)
    decreases |b|
  {
    hide DigitValue;
    if b == [] {
      assert a + b == a;
    } else {
      var front := b[..|b| - 1];
      HexValueAppend(a, front);
      assert (a + b)[..|a + b| - 1] == a + front;
      Scaled(HexValue(a), Pow(16, |front|));
    }
  }

  lemma Scaled(h: nat, p: nat)
    ensures h * p * 16 == h * (16 * p)
  {
  }

  /** The low k digits cut off are the remainder, and those left the quotient. */
  lemma {:induction false} DigitsSplit(n: nat, k: nat)
    ensures var s := Digits(n);
      if |s| <= k then n / Pow(16, k) == 0 && n % Pow(16, k) == n
      else s[..|s| - k] == Digits(n / Pow(16, k)) && n / Pow(16, k) > 0
    decreases k
  {
    hide Digit;
    if k == 0 {
      assert Pow(16, 0) == 1;
      assert Digits(n)[..|Digits(n)|] == Digits(n);
    } else if n == 0 {
      assert Pow(16, k) > 0;
    } else {
      DigitsSplit(n / 16, k - 1);
      DivModProduct(n, 16, Pow(16, k - 1));
      var s := Digits(n);
      assert s[..|s| - 1] == Digits(n / 16);
      if |s| > k { assert s[..|s| - k] == s[..|s| - 1][..|s| - k]; }
    }
  }

  /** The part of the text that holds word w. */
  function Chunk(hex: string, w: nat): string
    requires 16 * w <= |hex|
  {
    hex[(if |hex| - 16 * w >= 16 then |hex| - 16 * w - 16 else 0)..|hex| - 16 * w]
  }

  /** Sixteen digits from the end are the low word; what is before them is the rest of the number. */
  lemma DigitsStep(n: nat)
    requires n > 0
    ensures HexValue(Chunk(Digits(n), 0)) == n % W
    ensures |Digits(n)| <= 16 ==> n / W == 0
    ensures |Digits(n)| > 16 ==> n / W > 0 && Digits(n)[..|Digits(n)| - 16] == Digits(n / W)
  {
    hide Digits, HexValue, Pow;
    WordIsSixteenDigits();
    DigitsSplit(n, 16);
    DigitsValue(n);
    var s := Digits(n);
    if |s| <= 16 {
      assert Chunk(s, 0) == s;
    } else {
      var front := s[..|s| - 16];
      assert s == front + Chunk(s, 0);
      HexValueAppend(front, Chunk(s, 0));
      DigitsValue(n / W);
      assert n == (n / W) * W + HexValue(Chunk(s, 0));
    }
  }

  lemma {:induction false} ChunksAreWords(n: nat)
    ensures (|Digits(n)| + 15) / 16 == |ToWords(n)|
    ensures forall w | 0 <= w < |ToWords(n)| :: 16 * w < |Digits(n)| && HexValue(Chunk(Digits(n), w)) == ToWords(n)[w]
  {
    hide Digits, HexValue, Chunk;
    if n == 0 {
      NoDigits();
    } else {
      DigitsStep(n);
      var s := Digits(n);
      ChunksAreWords(n / W);
      SomeDigits(n);
      if |s| > 16 {
        forall w | 1 <= w < |ToWords(n)|
          ensures 16 * w < |s| && HexValue(Chunk(s, w)) == ToWords(n)[w]
        {
          ChunkShift(s, w);
        }
      }
    }
  }

  lemma ChunkShift(s: string, w: nat)
    requires |s| > 16 && 1 <= w && 16 * (w - 1) <= |s| - 16
    ensures Chunk(s, w) == Chunk(s[..|s| - 16], w - 1)
  {
  }

  lemma NoDigits()
    ensures Digits(0) == []
  {
  }

  lemma SomeDigits(n: nat)
    requires n > 0
    ensures |Digits(n)| > 0 && Digits(n)[0] != '-' && Digits(n) != "0"
  {
    if n >= 16 {
      SomeDigits(n / 16);
    } else {
      NoDigits();
      DigitRoundTrip(n);
      assert Digits(n) == [Digit(n)];
    }
    DigitsValue(n);
    ShortestValue(0);
  }

  // ---- the engine's side: the value of a literal, and toString(16) --------------------------------

  predicate Prefixed(prefix: string, s: string) { |prefix| <= |s| && s[..|prefix|] == prefix }

  /** The value of "0n", "0x...n" and "-0x...n". */
  function Evaluate(code: string): int {
    if Prefixed("-0x", code) && |code| > 3 then Signed(true, HexValue(code[3..|code| - 1]))
    else if Prefixed("0x", code) && |code| > 2 then Signed(false, HexValue(code[2..|code| - 1]))
    else 0
  }

  lemma EvaluateLiteral(sign: bool, digits: string)
    ensures Evaluate((if sign then "-0x" else "0x") + digits + "n") == Signed(sign, HexValue(digits))
  {
    hide HexValue;
    var prefix := if sign then "-0x" else "0x";
    var code := prefix + digits + "n";
    assert code[..|prefix|] == prefix && code[|prefix|..|code| - 1] == digits;
    if !sign { assert code[0] == '0' && (|code| >= 3 ==> code[..3][0] == '0'); }
  }

  function Signed(negative: bool, magnitude: int): int { if negative then -magnitude else magnitude }

  function ToString16(value: int): string {
    if value < 0 then "-" + Shortest(-value) else Shortest(value)
  }

  // ---- the operations ----------------------------------------------------------------------------

  datatype Created = BigInt(value: int) | InvalidArg | RangeError

  /** The hexadecimal digits of the words, most significant first. */
  method HexOfWords(count: nat, words: Words) returns (digits: string)
    requires 1 <= count <= |words|
    ensures HexValue(digits) == Value(words[..count])
  {
    hide HexValue, Fixed, Digits, Pow;
    WordIsSixteenDigits();
    digits := Shortest(words[count - 1]);
    ShortestValue(words[count - 1]);
    var i := count - 1;
    ValueOfOne(words[count - 1]);
    assert words[count - 1..count] == [words[count - 1]];
    while i > 0
      invariant 0 <= i < count
      invariant HexValue(digits) == Value(words[i..count])
    {
      i := i - 1;
      var chunk := Fixed(words[i], 16);
      HexValueAppend(digits, chunk);
      FixedValue(words[i], 16);
      digits := digits + chunk;
      assert words[i..count][1..] == words[i + 1..count];
    }
  }

  lemma ShortestValue(n: nat)
    ensures HexValue(Shortest(n)) == n
  {
    DigitsValue(n);
    if n == 0 { assert HexValue("0") == HexValue("") * 16 + DigitValue('0'); }
  }

  lemma ValueOfNone()
    ensures Value([]) == 0
  {
  }

  lemma ValueOfOne(w: Word)
    ensures Value([w]) == w
  {
    assert Value([]) == 0;
  }

  /** napi_create_bigint_words. */
  method CreateBigIntWords(sign: bool, count: nat, words: Option<Words>) returns (r: Created)
    requires words.Some? && count <= MAX_WORDS ==> |words.value| >= count
    ensures count == 0 || words.None? ==> r == BigInt(0)
    ensures words.Some? && 1 <= count <= MAX_WORDS ==>
      r == BigInt(Signed(sign, Value(words.value[..count])))
    ensures words.Some? && MAX_WORDS < count <= INT_MAX ==> r == RangeError
    ensures words.Some? && count > INT_MAX ==> r == InvalidArg
  {
    hide HexValue;
    if count == 0 || words.None? { return BigInt(Evaluate("0n")); }
    if count > INT_MAX { return InvalidArg; }
    if count > MAX_WORDS { return RangeError; }
    var code := if sign then "-0x" else "0x";
    var digits := HexOfWords(count, words.value);
    code := code + digits + "n";
    EvaluateLiteral(sign, digits);
    r := BigInt(Evaluate(code));
  }

  /** napi_get_value_bigint_words; words is null when only the count is asked for. */
  method GetBigIntWords(value: int, capacity: nat, words: array?<Word>) returns (sign: bool, count: nat)
    requires words != null ==> capacity <= words.Length
    modifies words
    ensures sign == (value < 0) && count == |ToWords(Abs(value))|
    ensures words != null ==> var n := if count < capacity then count else capacity;
      words[..] == ToWords(Abs(value))[..n] + old(words[n..])
  {
    hide Digits, HexValue, ToWords, Fixed;
    var hex := ToString16(value);
    ghost var n := Abs(value);
    ToString16Parts(value);
    ChunksAreWords(n);
    sign := hex != [] && hex[0] == '-';
    if sign { hex := hex[1..]; }
    if hex == "0" { hex := []; }
    assert hex == Digits(n);
    count := (|hex| + 15) / 16;
    if words != null {
      var w := 0;
      ghost var was := words[..];
      while w < count && w < capacity
        invariant 0 <= w <= count && w <= capacity
        invariant words[..w] == ToWords(n)[..w]
        invariant words[w..] == was[w..]
      {
        assert was[w..][1..] == was[w + 1..] && words[w..][1..] == words[w + 1..];
        words[w] := HexValue(Chunk(hex, w));
        assert words[..w + 1] == words[..w] + [words[w]];
        w := w + 1;
      }
    }
  }

  function Abs(i: int): nat { if i < 0 then -i else i }

  /** The minus sign is the sign, and the text is "0" only for zero. */
  lemma ToString16Parts(value: int)
    ensures var s := ToString16(value);
      && s != [] && (s[0] == '-' <==> value < 0)
      && (if value < 0 then s[1..] == Digits(Abs(value)) && s[1..] != "0"
          else if value == 0 then s == "0" && Digits(0) == []
          else s == Digits(value) && s != "0")
  {
    hide Digits;
    NoDigits();
    if value != 0 { SomeDigits(Abs(value)); }
  }

  /** Words to a BigInt and back: high zero words are dropped, and zero has no sign. */
  method RoundTrip(sign: bool, words: Words) returns (outSign: bool, out: array<Word>)
    requires |words| <= MAX_WORDS
    ensures out[..] == DropHighZeros(words)
    ensures outSign <==> sign && DropHighZeros(words) != []
  {
    hide Value, ToWords, DropHighZeros;
    var created := CreateBigIntWords(sign, |words|, Some(words));
    assert words[..|words|] == words;
    ValueOfNone();
    WordsRoundTrip(words);
    ZeroIsNoWords(Value(words));
    var count;
    outSign, count := GetBigIntWords(created.value, 0, null);
    out := new Word[count];
    outSign, count := GetBigIntWords(created.value, count, out);
    assert ToWords(Value(words))[..count] == ToWords(Value(words));
    assert out[..] == ToWords(Value(words));
  }

  lemma ZeroIsNoWords(n: nat)
    ensures n == 0 <==> ToWords(n) == []
  {
  }

  /** No number of fewer words is equal: the count is minimal, and the words are unique. */
  lemma WordsMinimal(n: nat, words: Words)
    requires Value(words) == n
    ensures |ToWords(n)| <= |words| && (|words| == |ToWords(n)| ==> words == ToWords(n))
  {
    WordsRoundTrip(words);
    DropIsPrefix(words);
  }

  lemma DropIsPrefix(words: Words)
    ensures DropHighZeros(words) <= words
    decreases |words|
  {
    if words != [] && words[|words| - 1] == 0 { DropIsPrefix(words[..|words| - 1]); }
  }
}
