/**
 The base 58 text codec of internal/usecases/utils.go. Leading zero bytes become
 leading '1' characters; the rest is one big number written in base 58.
 */
module Base58 {
  import opened Numerals

  /** `n` consecutive characters. */
  function Run(first: char, n: nat): (s: string)
    requires first as int + n < 0x80
    ensures |s| == n
  {
    seq(n, i requires 0 <= i < n => (first as int + i) as char)
  }

  const ALPHABET: string := Run('1', 9) + Run('A', 8) + Run('J', 5) + Run('P', 11) + Run('a', 11) + Run('m', 14)

  /** The six runs are the alphabet string of the source: no zero, no capital I or O, no small l. */
  lemma AlphabetText()
    ensures ALPHABET == "123456789" + "ABCDEFGH" + "JKLMN" + "PQRSTUVWXYZ" + "abcdefghijk" + "mnopqrstuvwxyz"
  {
    assert Run('1', 9) == "123456789";
    assert Run('A', 8) == "ABCDEFGH";
    assert Run('J', 5) == "JKLMN";
    assert Run('P', 11) == "PQRSTUVWXYZ";
    assert Run('a', 11) == "abcdefghijk";
    assert Run('m', 14) == "mnopqrstuvwxyz";
  }

  /** The digit a character stands for, -1 when it stands for none. */
  function DigitOf(c: char): int {
    if '1' <= c <= '9' then c as int - '1' as int
    else if 'A' <= c <= 'H' then c as int - 'A' as int + 9
    else if 'J' <= c <= 'N' then c as int - 'J' as int + 17
    else if 'P' <= c <= 'Z' then c as int - 'P' as int + 22
    else if 'a' <= c <= 'k' then c as int - 'a' as int + 33
    else if 'm' <= c <= 'z' then c as int - 'm' as int + 44
    else -1
  }

  lemma AlphabetInOrder()
    ensures |ALPHABET| == 58
    ensures forall d :: 0 <= d < 58 ==> DigitOf(ALPHABET[d]) == d
  {
  }

  /** The other direction: a character with a digit is that entry of the alphabet. */
  lemma DigitInAlphabet(c: char)
    requires DigitOf(c) >= 0
    ensures |ALPHABET| == 58 && DigitOf(c) < 58 && ALPHABET[DigitOf(c)] == c
  {
    AlphabetInOrder();
    DigitOfInjective(c, ALPHABET[DigitOf(c)]);
  }

  lemma DigitOfInjective(c: char, c': char)
    requires DigitOf(c) == DigitOf(c') >= 0
    ensures c == c'
  {
  }

  predicate InAlphabet(s: string) {
    forall i :: 0 <= i < |s| ==> DigitOf(s[i]) >= 0
  }

  function Chars(ds: seq<nat>): (s: string)
    requires Digits(58, ds)
    ensures |s| == |ds|
  {
    AlphabetInOrder();
    seq(|ds|, i requires 0 <= i < |ds| => ALPHABET[ds[i]])
  }

  function Indexes(s: string): (ds: seq<nat>)
    requires InAlphabet(s)
    ensures |ds| == |s| && Digits(58, ds)
  {
    seq(|s|, i requires 0 <= i < |s| => DigitOf(s[i]))
  }

  function Encode(data: seq<nat>): string {
    Chars(Recode(256, 58, data))
  }

  /** Text outside the alphabet decodes to nothing, like empty text. */
  function Decode(s: string): (data: seq<nat>)
    ensures Digits(256, data)
  {
    if InAlphabet(s) then Recode(58, 256, Indexes(s)) else []
  }

  lemma IndexesOfChars(ds: seq<nat>)
    requires Digits(58, ds)
    ensures InAlphabet(Chars(ds)) && Indexes(Chars(ds)) == ds
  {
    AlphabetInOrder();
  }

  lemma CharsOfIndexes(s: string)
    requires InAlphabet(s)
    ensures Chars(Indexes(s)) == s
  {
    forall i | 0 <= i < |s| ensures Chars(Indexes(s))[i] == s[i] {
      DigitInAlphabet(s[i]);
    }
  }

  /** Every byte sequence survives encoding, leading and all-zero bytes included. */
  lemma DecodeEncode(data: seq<nat>)
    requires Digits(256, data)
    ensures InAlphabet(Encode(data)) && Decode(Encode(data)) == data
  {
    IndexesOfChars(Recode(256, 58, data));
    RecodeRoundTrip(256, 58, data);
  }

  /** Every text over the alphabet survives decoding, so the codec is a bijection. */
  lemma EncodeDecode(s: string)
    requires InAlphabet(s)
    ensures Encode(Decode(s)) == s
  {
    RecodeRoundTrip(58, 256, Indexes(s));
    CharsOfIndexes(s);
  }

  /** An empty result means empty text or a foreign character, and nothing else. */
  lemma DecodeEmptyIff(s: string)
    ensures Decode(s) == [] <==> s == "" || !InAlphabet(s)
  {
    if InAlphabet(s) && Decode(s) == [] {
      EncodeDecode(s);
      assert Recode(256, 58, []) == [];
    }
  }

  // --------------------------------------------------------- the loops themselves

  function Reversed(s: string): (r: string)
    ensures |r| == |s|
  {
    seq(|s|, i requires 0 <= i < |s| => s[|s| - 1 - i])
  }

  lemma ReversedSnoc(s: string, c: char)
    ensures Reversed(s + [c]) == [c] + Reversed(s)
  {
  }

  method ReverseInPlace(a: array<char>)
    modifies a
    ensures a[..] == Reversed(old(a[..]))
  {
    var i, j := 0, a.Length - 1;
    while i < j
      invariant 0 <= i <= j + 1 <= a.Length && i + j == a.Length - 1
      invariant forall k :: 0 <= k < i || j < k < a.Length ==> a[k] == old(a[a.Length - 1 - k])
      invariant forall k :: i <= k <= j ==> a[k] == old(a[k])
    {
      a[i], a[j] := a[j], a[i];
      i, j := i + 1, j - 1;
    }
  }

  lemma CharsAppend(a: seq<nat>, b: seq<nat>)
    requires Digits(58, a) && Digits(58, b)
    ensures Digits(58, a + b) && Chars(a + b) == Chars(a) + Chars(b)
  {
    AlphabetInOrder();
  }

  lemma OnesStep(n: nat)
    ensures Digits(58, Zeros(n + 1)) && Digits(58, Zeros(n))
    ensures Chars(Zeros(n + 1)) == [ALPHABET[0]] + Chars(Zeros(n))
  {
    AlphabetInOrder();
  }

  /** Repeated division by 58 appends the digits from the last to the first. */
  method AppendDigits(n: nat) returns (out: string)
    ensures Reversed(out) == Chars(Numeral(58, n))
  {
    AlphabetInOrder();
    var x := n;
    out := "";
    while x > 0
      invariant Chars(Numeral(58, x)) + Reversed(out) == Chars(Numeral(58, n))
    {
      var mod := x % 58;
      CharsAppend(Numeral(58, x / 58), [mod]);
      ReversedSnoc(out, ALPHABET[mod]);
      out := out + [ALPHABET[mod]];
      x := x / 58;
    }
  }

  /** The digits, one '1' per leading zero byte, then the buffer reversed in place. */
  method Base58Encode(data: seq<nat>) returns (text: string)
    requires Digits(256, data)
    ensures text == Encode(data)
  {
    var out := AppendDigits(Value(256, data));
    ghost var digits := Numeral(58, Value(256, data));
    var zeros := AppendOnes(data, out, Chars(digits));
    CharsAppend(Zeros(LeadingZeros(data)), digits);
    var buffer := new char[|zeros|](k requires 0 <= k < |zeros| => zeros[k]);
    assert buffer[..] == zeros;
    ReverseInPlace(buffer);
    text := buffer[..];
  }

  /** One '1' for each leading zero byte, at the end of the buffer. */
  method AppendOnes(data: seq<nat>, start: string, ghost text: string) returns (out: string)
    requires Reversed(start) == text
    ensures Digits(58, Zeros(LeadingZeros(data))) && Reversed(out) == Chars(Zeros(LeadingZeros(data))) + text
  {
    AlphabetInOrder();
    out := start;
    var i := 0;
    assert Chars(Zeros(0)) + text == text;
    while i < |data| && data[i] == 0
      invariant i <= LeadingZeros(data)
      invariant Digits(58, Zeros(i)) && Reversed(out) == Chars(Zeros(i)) + text
    {
      OnesStep(i);
      ReversedSnoc(out, ALPHABET[0]);
      out := out + [ALPHABET[0]];
      i := i + 1;
    }
    if i < LeadingZeros(data) {
      LeadingZerosAt(data, i);
    }
  }

  lemma LeadingZerosAt(ds: seq<nat>, i: nat)
    requires i < LeadingZeros(ds)
    ensures ds[i] == 0
  {
    assert ds[..LeadingZeros(ds)][i] == Zeros(LeadingZeros(ds))[i];
  }

  method AlphabetIndex() returns (index: map<char, nat>)
    ensures forall c :: c in index <==> DigitOf(c) >= 0
    ensures forall c :: c in index ==> index[c] == DigitOf(c)
  {
    index := map[];
    AlphabetInOrder();
    for i := 0 to |ALPHABET|
      invariant forall c :: c in index <==> 0 <= DigitOf(c) < i
      invariant forall c :: c in index ==> index[c] == DigitOf(c)
    {
      forall c | DigitOf(c) == i ensures c == ALPHABET[i] {
        DigitOfInjective(c, ALPHABET[i]);
      }
      index := index[ALPHABET[i] := i];
    }
  }

  lemma IndexesSnoc(s: string, i: nat)
    requires i < |s| && InAlphabet(s[..i]) && DigitOf(s[i]) >= 0
    ensures InAlphabet(s[..i + 1])
    ensures Value(58, Indexes(s[..i + 1])) == Value(58, Indexes(s[..i])) * 58 + DigitOf(s[i])
  {
    assert s[..i + 1] == s[..i] + [s[i]];
    assert Indexes(s[..i + 1])[..i] == Indexes(s[..i]);
  }

  /** Multiply-and-add over the characters, then one zero byte per leading '1'. */
  method Base58Decode(s: string) returns (data: seq<nat>)
    ensures data == Decode(s)
  {
    var index := AlphabetIndex();
    var x := 0;
    for i := 0 to |s|
      invariant InAlphabet(s[..i]) && x == Value(58, Indexes(s[..i]))
    {
      if s[i] !in index {
        return [];
      }
      IndexesSnoc(s, i);
      x := x * 58 + index[s[i]];
    }
    assert s[..|s|] == s;
    var leadingOnes := CountOnes(s);
    data := Zeros(leadingOnes) + Numeral(256, x);
  }

  method CountOnes(s: string) returns (ones: nat)
    requires InAlphabet(s)
    ensures ones == LeadingZeros(Indexes(s))
  {
    ones := 0;
    ghost var ds := Indexes(s);
    while ones < |s| && s[ones] == '1'
      invariant ones <= LeadingZeros(ds)
    {
      assert ds[ones] == 0;
      ones := ones + 1;
    }
    if ones < LeadingZeros(ds) {
      LeadingZerosAt(ds, ones);
    }
  }

  /** The text's digits are the bytes' number in base 58, after one '1' for each leading zero byte. */
  lemma EncodeKeepsValue(data: seq<nat>)
    requires Digits(256, data)
    ensures InAlphabet(Encode(data))
    ensures Value(58, Indexes(Encode(data))) == Value(256, data)
    ensures LeadingZeros(Indexes(Encode(data))) == LeadingZeros(data)
  {
    IndexesOfChars(Recode(256, 58, data));
    RecodeKeepsValue(256, 58, data);
  }

  /** Decoding keeps the number and turns each leading '1' into a zero byte. */
  lemma DecodeKeepsValue(s: string)
    requires InAlphabet(s)
    ensures Value(256, Decode(s)) == Value(58, Indexes(s))
    ensures LeadingZeros(Decode(s)) == LeadingZeros(Indexes(s))
  {
    RecodeKeepsValue(58, 256, Indexes(s));
  }

  /** The most significant byte comes first: 0, 1, 0 is the number 256 after one leading zero. */
  lemma KnownText()
    ensures Encode([0, 1, 0]) == "15R"
  {
    KnownNumbers();
    assert Indexes("15R") == [0, 4, 24];
    EncodeKeepsValue([0, 1, 0]);
    SameNumeral(58, Indexes(Encode([0, 1, 0])), [0, 4, 24]);
    CharsOfIndexes(Encode([0, 1, 0]));
    CharsOfIndexes("15R");
  }

  lemma KnownNumbers()
    ensures Value(256, [0, 1, 0]) == 256 && Value(58, [0, 4, 24]) == 256
    ensures LeadingZeros([0, 1, 0]) == 1 && LeadingZeros([0, 4, 24]) == 1
  {
    assert [0, 1, 0][..2] == [0, 1] && [0, 1][..1] == [0] && [0][..0] == [];
    assert Value(256, [0]) == 0 && Value(256, [0, 1]) == 1;
    assert [0, 4, 24][..2] == [0, 4] && [0, 4][..1] == [0];
    assert Value(58, [0]) == 0 && Value(58, [0, 4]) == 4;
    assert [0, 1, 0][1..] == [1, 0] && LeadingZeros([1, 0]) == 0;
    assert [0, 4, 24][1..] == [4, 24] && LeadingZeros([4, 24]) == 0;
  }
}
