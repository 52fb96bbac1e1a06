/** Hexadecimal text, as hex.EncodeToString writes it and hex.DecodeString reads it, in either letter case. */
module Hex {
  import opened Wrappers

  type Bytes = seq<nat>

  predicate AreBytes(b: Bytes) { forall i :: 0 <= i < |b| ==> b[i] < 256 }

  function Digit(c: char): (d: int)
    ensures -1 <= d < 16
  {
    if '0' <= c <= '9' then c as int - '0' as int
    else if 'a' <= c <= 'f' then c as int - 'a' as int + 10
    else if 'A' <= c <= 'F' then c as int - 'A' as int + 10
    else -1
  }

  /** An odd length or a foreign character is an error. */
  function Decode(s: string): (r: Option<Bytes>)
    ensures r.Some? ==> AreBytes(r.value) && 2 * |r.value| == |s|
  {
    if s == "" then Some([])
    else if |s| == 1 || Digit(s[0]) < 0 || Digit(s[1]) < 0 then None
    else match Decode(s[2..])
      case None => None
      case Some(rest) => Some([16 * Digit(s[0]) + Digit(s[1])] + rest)
  }

  function CharOf(n: nat): char
    requires n < 16
  {
    if n < 10 then ('0' as int + n) as char else ('a' as int + n - 10) as char
  }

  function Encode(b: Bytes): (s: string)
    requires AreBytes(b)
    ensures |s| == 2 * |b|
  {
    if b == [] then "" else [CharOf(b[0] / 16), CharOf(b[0] % 16)] + Encode(b[1..])
  }

  function LowerChar(c: char): char {
    if 'A' <= c <= 'Z' then (c as int - 'A' as int + 'a' as int) as char else c
  }

  /** strings.ToLower on ASCII letters. */
  function Lower(s: string): (t: string)
    ensures |t| == |s| && forall i :: 0 <= i < |s| ==> t[i] == LowerChar(s[i])
  {
    seq(|s|, i requires 0 <= i < |s| => LowerChar(s[i]))
  }

  lemma LowerLower(s: string)
    ensures Lower(Lower(s)) == Lower(s)
  {
  }

  lemma LowerAppend(s: string, t: string)
    ensures Lower(s + t) == Lower(s) + Lower(t)
  {
  }

  lemma DigitOfLower(c: char)
    ensures Digit(LowerChar(c)) == Digit(c)
  {
  }

  lemma CharOfDigit(c: char)
    requires Digit(c) >= 0 && LowerChar(c) == c
    ensures CharOf(Digit(c)) == c
  {
  }

  lemma DigitOfChar(n: nat)
    requires n < 16
    ensures Digit(CharOf(n)) == n && LowerChar(CharOf(n)) == CharOf(n)
  {
  }

  /** Decoding looks at the digits only, so letter case does not matter. */
  lemma {:induction false} DecodeByDigits(s: string, t: string)
    requires |s| == |t| && forall i :: 0 <= i < |s| ==> Digit(s[i]) == Digit(t[i])
    ensures Decode(s) == Decode(t)
  {
    if |s| >= 2 {
      DecodeByDigits(s[2..], t[2..]);
    }
  }

  lemma DecodeLower(s: string)
    ensures Decode(Lower(s)) == Decode(s)
  {
    forall i | 0 <= i < |s| ensures Digit(Lower(s)[i]) == Digit(s[i]) {
      DigitOfLower(s[i]);
    }
    DecodeByDigits(Lower(s), s);
  }

  lemma EncodeStep(h: nat, l: nat, tail: Bytes)
    requires h < 16 && l < 16 && AreBytes(tail)
    ensures AreBytes([16 * h + l] + tail) && Encode([16 * h + l] + tail) == [CharOf(h), CharOf(l)] + Encode(tail)
  {
    var b := [16 * h + l] + tail;
    assert b[0] / 16 == h && b[0] % 16 == l;
    assert b[1..] == tail;
  }

  lemma FirstPair(s: string) returns (h: nat, l: nat)
    requires s != "" && Lower(s) == s && Decode(s).Some?
    ensures |s| >= 2 && h < 16 && l < 16 && CharOf(h) == s[0] && CharOf(l) == s[1]
    ensures Decode(s[2..]).Some? && Decode(s).value == [16 * h + l] + Decode(s[2..]).value
  {
    h, l := Digit(s[0]), Digit(s[1]);
    assert LowerChar(s[0]) == s[0] && LowerChar(s[1]) == s[1];
    CharOfDigit(s[0]);
    CharOfDigit(s[1]);
  }

  /** Lower-case text that decodes is what its bytes encode to. */
  lemma {:induction false} EncodeDecode(s: string)
    requires Lower(s) == s && Decode(s).Some?
    ensures Encode(Decode(s).value) == s
  {
    if s != "" {
      var h, l := FirstPair(s);
      assert Lower(s)[2..] == Lower(s[2..]);
      EncodeDecode(s[2..]);
      EncodeStep(h, l, Decode(s[2..]).value);
      assert s == [s[0], s[1]] + s[2..];
    }
  }

  lemma {:induction false} DecodeEncode(b: Bytes)
    requires AreBytes(b)
    ensures Decode(Encode(b)) == Some(b)
  {
    if b != [] {
      var h, l, rest := b[0] / 16, b[0] % 16, b[1..];
      DecodeEncode(rest);
      var text := Encode(b);
      assert text[0] == CharOf(h) && text[1] == CharOf(l) && text[2..] == Encode(rest);
      DigitOfChar(h);
      DigitOfChar(l);
      assert b == [16 * h + l] + rest;
    }
  }

  /** Any spelling of the digits, whatever its letter case, decodes to the bytes. */
  lemma DecodeSpelling(text: string, b: Bytes)
    requires AreBytes(b) && Lower(text) == Encode(b)
    ensures Decode(text) == Some(b)
  {
    DecodeLower(text);
    DecodeEncode(b);
  }

  function UpperHex(c: char): char {
    if 'a' <= c <= 'f' then (c as int - 'a' as int + 'A' as int) as char else c
  }

  /** The letters at these positions in upper case, as a checksum asks. */
  function UpperAt(s: string, positions: set<nat>): (t: string)
    ensures |t| == |s|
  {
    seq(|s|, i requires 0 <= i < |s| => if i in positions then UpperHex(s[i]) else s[i])
  }

  lemma DigitOfUpper(c: char)
    ensures Digit(UpperHex(c)) == Digit(c)
  {
  }

  lemma LowerOfUpper(c: char)
    ensures LowerChar(UpperHex(c)) == LowerChar(c)
  {
  }

  lemma UpperDecodes(b: Bytes, positions: set<nat>)
    requires AreBytes(b)
    ensures Decode(UpperAt(Encode(b), positions)) == Some(b)
  {
    var text := Encode(b);
    forall i | 0 <= i < |text| ensures Digit(UpperAt(text, positions)[i]) == Digit(text[i]) {
      DigitOfUpper(text[i]);
    }
    DecodeByDigits(UpperAt(text, positions), text);
    DecodeEncode(b);
  }

  lemma {:induction false} LowerEncode(b: Bytes)
    requires AreBytes(b)
    ensures Lower(Encode(b)) == Encode(b)
  {
    if b != [] {
      var h, l := b[0] / 16, b[0] % 16;
      LowerEncode(b[1..]);
      DigitOfChar(h);
      DigitOfChar(l);
      LowerAppend([CharOf(h), CharOf(l)], Encode(b[1..]));
      assert Lower([CharOf(h), CharOf(l)]) == [CharOf(h), CharOf(l)];
    }
  }

  lemma LowerUpperAt(b: Bytes, positions: set<nat>)
    requires AreBytes(b)
    ensures Lower(UpperAt(Encode(b), positions)) == Encode(b)
  {
    var text := Encode(b);
    LowerEncode(b);
    forall i | 0 <= i < |text| ensures Lower(UpperAt(text, positions))[i] == text[i] {
      LowerOfUpper(text[i]);
      assert Lower(text)[i] == text[i];
    }
  }

  /** The digits written out, in both letter cases. */
  lemma DigitsWrittenOut(n: nat)
    requires n < 16
    ensures CharOf(n) == "0123456789abcdef"[n]
    ensures Digit("0123456789abcdef"[n]) == n && Digit("0123456789ABCDEF"[n]) == n
    ensures Digit('g') == Digit('G') == Digit('/') == Digit(':') == Digit('x') == -1
  {
  }

  /** The high digit of a byte comes first. */
  lemma HighDigitFirst()
    ensures Encode([0x1f, 0xa0]) == "1fa0" && Decode("1Fa0") == Some([0x1f, 0xa0]) && Decode("1f0") == None
  {
    assert [0x1f, 0xa0][1..] == [0xa0] && [0xa0][1..] == [];
    assert "1Fa0"[2..] == "a0" && "a0"[2..] == "" && "1f0"[2..] == "0";
    assert Encode([0xa0]) == "a0";
    assert Decode("") == Some([]) && [16 * 10 + 0] + [] == [0xa0];
    assert Decode("a0") == Some([0xa0]);
    assert [16 * 1 + 15] + [0xa0] == [0x1f, 0xa0];
  }
}
