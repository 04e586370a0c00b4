/** A 256-bit target as big-endian hexadecimal text and as eight little-endian words. */
module HexTarget {
  import opened Wrappers
  import opened Arith
  import opened Bits
  import opened Numerals
  import opened WideDivision

  // ------------------------------------------------------------------------------------------
  // Text and bytes

  function HexDigit(c: char): Option<nat> {
    if '0' <= c <= '9' then Some(c as nat - '0' as nat)
    else if 'a' <= c <= 'f' then Some(c as nat - 'a' as nat + 10)
    else if 'A' <= c <= 'F' then Some(c as nat - 'A' as nat + 10)
    else None
  }

  /** The digits by their codes, letters in either case, and no other characters. */
  lemma HexDigits(c: char, d: nat)
    ensures HexDigit(c) == Some(d) <==>
              || (d < 10 && c as int == 0x30 + d)
              || (10 <= d < 16 && (c as int == 0x41 + (d - 10) || c as int == 0x61 + (d - 10)))
  {
  }

  predicate IsHex(hex: string) {
    forall i :: 0 <= i < |hex| ==> HexDigit(hex[i]).Some?
  }

  function Nibbles(hex: string): seq<nat>
    requires IsHex(hex)
  {
    seq(|hex|, i requires 0 <= i < |hex| => HexDigit(hex[i]).value)
  }

  /** The number the text denotes. */
  function HexValue(hex: string): nat
    requires IsHex(hex)
  {
    FromBE(Nibbles(hex), 16)
  }

  /** The digits in groups, each group read as one digit of the larger base. */
  function Grouped(s: seq<nat>, group: nat, base: nat): seq<nat>
    requires group > 0
    decreases |s|
  {
    if |s| < group then [] else [FromBE(s[..group], base)] + Grouped(s[group..], group, base)
  }

  /** The groups leave no digit over. */
  predicate Whole(s: seq<nat>, group: nat)
    requires group > 0
    decreases |s|
  {
    s == [] || (|s| >= group && Whole(s[group..], group))
  }

  lemma {:induction false} EvenIsWhole(s: seq<nat>)
    requires |s| % 2 == 0
    ensures Whole(s, 2) && |Grouped(s, 2, 16)| * 2 == |s|
    decreases |s|
  {
    hide FromBE;
    if s != [] { EvenIsWhole(s[2..]); }
  }

  lemma {:induction false} FoursAreWhole(s: seq<nat>)
    requires |s| % 4 == 0
    ensures Whole(s, 4) && |Grouped(s, 4, 256)| * 4 == |s|
    decreases |s|
  {
    hide FromBE;
    if s != [] { FoursAreWhole(s[4..]); }
  }

  lemma {:induction false} GroupedConcat(a: seq<nat>, b: seq<nat>, group: nat, base: nat)
    requires group > 0 && Whole(a, group) && |b| == group
    ensures Grouped(a + b, group, base) == Grouped(a, group, base) + [FromBE(b, base)]
    decreases |a|
  {
    hide FromBE;
    if a == [] {
      assert a + b == b && b[..group] == b && b[group..] == [];
    } else {
      assert (a + b)[..group] == a[..group] && (a + b)[group..] == a[group..] + b;
      GroupedConcat(a[group..], b, group, base);
    }
  }

  /** Grouping digits changes the base, not the number. */
  lemma {:induction false} GroupedValue(s: seq<nat>, group: nat, base: nat)
    requires group > 0 && Whole(s, group)
    ensures FromBE(Grouped(s, group, base), Power(base, group)) == FromBE(s, base)
    ensures Power(Power(base, group), |Grouped(s, group, base)|) == Power(base, |s|)
    decreases |s|
  {
    if s != [] {
      var (first, rest) := (s[..group], s[group..]);
      assert s == first + rest;
      var (x, others, wide) := (FromBE(first, base), Grouped(rest, group, base), Power(base, group));
      GroupedValue(rest, group, base);
      FromBEConcat(first, rest, base);
      PowerAdd(base, |rest|, group);
      FirstDigit(x, others, wide);
    }
  }

  lemma FirstDigit(x: nat, s: seq<nat>, base: nat)
    ensures FromBE([x] + s, base) == x * Power(base, |s|) + FromBE(s, base)
  {
    FromBEConcat([x], s, base);
    assert [] + [x] == [x];
    LastDigit([], x, base);
  }

  lemma LastDigit(s: seq<nat>, x: nat, base: nat)
    ensures FromBE(s + [x], base) == FromBE(s, base) * base + x
  {
    assert (s + [x])[..|s|] == s;
  }

  function BytesOfHex(hex: string): (b: seq<nat>)
    requires IsHex(hex) && |hex| % 2 == 0
    ensures |b| == |hex| / 2
  {
    EvenIsWhole(Nibbles(hex));
    Grouped(Nibbles(hex), 2, 16)
  }

  /** `cp_hex_to_bytes`: the number of bytes, or 0 for odd, oversized or non-hexadecimal text. */
  method HexToBytes(hex: string, cap: int) returns (n: nat, out: seq<nat>)
    requires cap >= 0
    ensures var good := |hex| % 2 == 0 && |hex| / 2 <= cap && IsHex(hex);
            && n == (if good then |hex| / 2 else 0)
            && (good ==> out == BytesOfHex(hex) && |out| == n)
  {
    out := [];
    if |hex| % 2 != 0 || |hex| / 2 > cap { return 0, []; }
    for i := 0 to |hex| / 2
      invariant |out| == i && IsHex(hex[..2 * i]) && out == BytesOfHex(hex[..2 * i])
    {
      var hi, lo := HexDigit(hex[2 * i]), HexDigit(hex[2 * i + 1]);
      if hi.None? || lo.None? { return 0, []; }
      ghost var before := Nibbles(hex[..2 * i]);
      assert hex[..2 * (i + 1)] == hex[..2 * i] + [hex[2 * i], hex[2 * i + 1]];
      assert Nibbles(hex[..2 * (i + 1)]) == before + [hi.value, lo.value];
      EvenIsWhole(before);
      GroupedConcat(before, [hi.value, lo.value], 2, 16);
      TwoDigits(hi.value, lo.value);
      out := out + [hi.value * 16 + lo.value];
    }
    assert hex[..2 * (|hex| / 2)] == hex;
    n := |hex| / 2;
  }

  function HexChar(d: nat): char
    requires d < 16
  {
    "0123456789abcdef"[d]
  }

  function HexOfBytes(b: seq<nat>): string
    requires Digits(b, 256)
  {
    if b == [] then "" else [HexChar(b[0] / 16), HexChar(b[0] % 16)] + HexOfBytes(b[1..])
  }

  /** `cp_bin_to_hex`. */
  method BinToHex(b: seq<nat>) returns (hex: string)
    requires Digits(b, 256)
    ensures hex == HexOfBytes(b)
  {
    hex := "";
    assert b[0..] == b;
    for i := 0 to |b|
      invariant hex + HexOfBytes(b[i..]) == HexOfBytes(b)
    {
      assert b[i..][0] == b[i] && b[i..][1..] == b[i + 1..];
      hex := hex + [HexChar(b[i] / 16), HexChar(b[i] % 16)];
    }
    assert b[|b|..] == [];
  }

  lemma HexCharIsDigit(d: nat)
    requires d < 16
    ensures HexDigit(HexChar(d)) == Some(d)
  {
  }

  /** What was written as text is read back. */
  lemma {:induction false} HexRoundTrip(b: seq<nat>)
    requires Digits(b, 256)
    ensures var hex := HexOfBytes(b); |hex| == 2 * |b| && IsHex(hex) && BytesOfHex(hex) == b
  {
    if b != [] {
      var (hi, lo, rest) := (b[0] / 16, b[0] % 16, HexOfBytes(b[1..]));
      HexRoundTrip(b[1..]);
      HexCharIsDigit(hi);
      HexCharIsDigit(lo);
      var hex := [HexChar(hi), HexChar(lo)] + rest;
      assert Nibbles(hex)[..2] == [hi, lo] && Nibbles(hex)[2..] == Nibbles(rest);
      TwoDigits(hi, lo);
      assert b == [b[0]] + b[1..];
    }
  }

  lemma TwoDigits(hi: nat, lo: nat)
    ensures FromBE([hi, lo], 16) == hi * 16 + lo
  {
    assert [hi] + [lo] == [hi, lo] && [] + [hi] == [hi];
    LastDigit([hi], lo, 16);
    LastDigit([], hi, 16);
  }

  // ------------------------------------------------------------------------------------------
  // Bytes and words

  function WordsOfBytes(b: seq<nat>): seq<nat>
    requires |b| == 32
  {
    var words := Grouped(b, 4, 256);
    FoursAreWhole(b);
    seq(8, i requires 0 <= i < 8 => words[7 - i])
  }

  /** Reading the words gives the number the bytes denote. */
  lemma WordsKeepValue(b: seq<nat>)
    requires |b| == 32
    ensures FromLE(WordsOfBytes(b), TWO32) == FromBE(b, 256)
  {
    FoursAreWhole(b);
    GroupedValue(b, 4, 256);
    FromLEIsReversedBE(WordsOfBytes(b), Grouped(b, 4, 256), TWO32);
    assert Power(256, 4) == TWO32 by { PowerOfPow2(8, 4); Pow2Values(); }
  }

  /** `cp_be_target_hex_to_le_words`: exactly 64 hexadecimal digits are accepted, and the words denote the
      number the text does. */
  method BeTargetHexToLeWords(hex: string) returns (ok: bool, tgt: seq<nat>)
    ensures ok <==> |hex| == 64 && IsHex(hex)
    ensures ok ==> |tgt| == 8 && tgt == WordsOfBytes(BytesOfHex(hex))
    ensures ok ==> FromLE(tgt, TWO32) == HexValue(hex)
  {
    tgt := [];
    var n, b := HexToBytes(hex, 32);
    if n != 32 { return false, []; }
    ok := true;
    var words := new nat[8](_ => 0);
    FoursAreWhole(b);
    for i := 0 to 8
      invariant forall j :: 0 <= j < i ==> words[7 - j] == Grouped(b, 4, 256)[j]
    {
      var o := 4 * i;
      FourBytes(b, i);
      words[7 - i] := b[o] * 0x100_0000 + b[o + 1] * 0x1_0000 + b[o + 2] * 0x100 + b[o + 3];
    }
    tgt := words[..];
    assert tgt == WordsOfBytes(b);
    WordsKeepValue(b);
    BytesKeepValue(hex);
  }

  lemma BytesKeepValue(hex: string)
    requires IsHex(hex) && |hex| % 2 == 0
    ensures FromBE(BytesOfHex(hex), 256) == HexValue(hex)
  {
    EvenIsWhole(Nibbles(hex));
    GroupedValue(Nibbles(hex), 2, 16);
    assert Power(16, 2) == 256;
  }

  lemma {:induction false} GroupAt(s: seq<nat>, i: nat)
    requires |s| % 4 == 0 && 4 * i + 4 <= |s|
    ensures i < |Grouped(s, 4, 256)| && Grouped(s, 4, 256)[i] == FromBE(s[4 * i..4 * i + 4], 256)
    decreases |s|
  {
    if i > 0 {
      GroupAt(s[4..], i - 1);
      assert s[4..][4 * (i - 1)..4 * (i - 1) + 4] == s[4 * i..4 * i + 4];
    }
  }

  lemma FourBytes(b: seq<nat>, i: nat)
    requires |b| == 32 && i < 8
    ensures i < |Grouped(b, 4, 256)|
    ensures Grouped(b, 4, 256)[i] ==
      b[4 * i] * 0x100_0000 + b[4 * i + 1] * 0x1_0000 + b[4 * i + 2] * 0x100 + b[4 * i + 3]
  {
    GroupAt(b, i);
    FourDigits(b[4 * i], b[4 * i + 1], b[4 * i + 2], b[4 * i + 3]);
    assert b[4 * i..4 * i + 4] == [b[4 * i], b[4 * i + 1], b[4 * i + 2], b[4 * i + 3]];
  }

  lemma FourDigits(w: nat, x: nat, y: nat, z: nat)
    ensures FromBE([w, x, y, z], 256) == w * 0x100_0000 + x * 0x1_0000 + y * 0x100 + z
  {
    LastDigit([w, x, y], z, 256);
    LastDigit([w, x], y, 256);
    LastDigit([w], x, 256);
    LastDigit([], w, 256);
    assert FromBE([], 256) == 0;
    assert [w, x, y] + [z] == [w, x, y, z] && [w, x] + [y] == [w, x, y] && [w] + [x] == [w, x] && [] + [w] == [w];
  }

  function BytesOfWord(w: nat): seq<nat> {
    [w / 0x100_0000 % 256, w / 0x1_0000 % 256, w / 0x100 % 256, w % 256]
  }

  function BytesOfWords(words: seq<nat>): (b: seq<nat>)
    ensures |b| == 4 * |words| && Digits(b, 256)
  {
    if words == [] then [] else BytesOfWords(words[1..]) + BytesOfWord(words[0])
  }

  lemma WordSplit(w: nat)
    requires w < TWO32
    ensures FromBE(BytesOfWord(w), 256) == w && Digits(BytesOfWord(w), 256)
  {
    var (x, y, z) := (w / 0x100, w / 0x100 / 0x100, w / 0x100 / 0x100 / 0x100);
    DivDiv(w, 0x100, 0x100);
    DivDiv(w, 0x1_0000, 0x100);
    assert w == x * 0x100 + w % 256 && x == y * 0x100 + x % 256 && y == z * 0x100 + y % 256 && z == z % 256;
    FourDigits(w / 0x100_0000 % 256, w / 0x1_0000 % 256, w / 0x100 % 256, w % 256);
  }

  /** The bytes of the words, most significant first, denote the same number. */
  lemma {:induction false} BytesOfWordsKeepValue(words: seq<nat>)
    requires Digits(words, TWO32)
    ensures FromBE(BytesOfWords(words), 256) == FromLE(words, TWO32)
    decreases |words|
  {
    if words != [] {
      BytesOfWordsKeepValue(words[1..]);
      WordSplit(words[0]);
      FromBEConcat(BytesOfWords(words[1..]), BytesOfWord(words[0]), 256);
      assert Power(256, 4) == TWO32 by { PowerOfPow2(8, 4); Pow2Values(); }
    }
  }

  method StoreWord(b: array<nat>, o: nat, w: nat)
    requires o + 4 <= b.Length
    modifies b
    ensures b[..o] == old(b[..o]) && b[o..o + 4] == BytesOfWord(w)
  {
    b[o], b[o + 1], b[o + 2], b[o + 3] := w / 0x100_0000 % 256, w / 0x1_0000 % 256, w / 0x100 % 256, w % 256;
  }

  /** `cp_le_words_to_be_target_hex`: 64 digits that denote the number the words do. */
  method LeWordsToBeTargetHex(tgt: seq<nat>) returns (hex: string)
    requires |tgt| == 8 && Digits(tgt, TWO32)
    ensures hex == HexOfBytes(BytesOfWords(tgt))
    ensures |hex| == 64 && IsHex(hex) && HexValue(hex) == FromLE(tgt, TWO32)
  {
    BytesOfWordsKeepValue(tgt);
    hide FromBE, FromLE, HexOfBytes, Digits;
    ghost var all := BytesOfWords(tgt);
    var b := new nat[32](_ => 0);
    assert tgt[8..] == [] && b[..0] == [];
    for i := 0 to 8
      invariant b[..4 * i] == BytesOfWords(tgt[8 - i..])
    {
      var w := tgt[7 - i];
      var o := 4 * i;
      ghost var before := b[..o];
      assert tgt[7 - i..][0] == w && tgt[7 - i..][1..] == tgt[8 - i..];
      StoreWord(b, o, w);
      assert b[..o + 4] == before + BytesOfWord(w);
    }
    assert tgt[0..] == tgt && b[..] == all;
    hex := BinToHex(b[..]);
    HexRoundTrip(all);
    BytesKeepValue(hex);
  }

  /** Words written as text and read again are the same words. */
  lemma TargetRoundTrip(tgt: seq<nat>)
    requires |tgt| == 8 && Digits(tgt, TWO32)
    ensures var hex := HexOfBytes(BytesOfWords(tgt));
            |hex| == 64 && IsHex(hex) && |BytesOfHex(hex)| == 32 && WordsOfBytes(BytesOfHex(hex)) == tgt
  {
    BytesOfWordsKeepValue(tgt);
    HexRoundTrip(BytesOfWords(tgt));
    var b := BytesOfWords(tgt);
    WordsKeepValue(b);
    GroupsAreDigits(b);
    FromLEInjective(WordsOfBytes(b), tgt, TWO32);
  }

  lemma GroupsAreDigits(b: seq<nat>)
    requires |b| == 32 && Digits(b, 256)
    ensures Digits(WordsOfBytes(b), TWO32)
  {
    forall j: nat | j < 8
      ensures WordsOfBytes(b)[j] < TWO32
    {
      FourBytes(b, 7 - j);
    }
  }
}
