/**
 The texts of a Stargate request, as internal/usecases/evm_admin_ops_service.go reads and compares
 them: a sender address, with or without 0x, and an options string of hex digits. Storage is compared
 with the text and not with what the text denotes, so some texts never compare equal.
 */
module AdminText {
  import opened Numerals
  import opened Wrappers
  import Amounts
  import Hex

  type Address = nat // zero is the zero address

  /** A sender as the request spells it: what it denotes, and whether the comparison can succeed. */
  datatype Text = Blank | Malformed | Named(address: Address, prefixed: bool)

  /** The options: absent, or what they denote and whether the comparison can succeed. */
  datatype OptionsText = NoOptions | Options(bytes: seq<nat>, canonical: bool)

  /** strings.EqualFold on ASCII text. */
  predicate EqualFold(a: string, b: string) { Hex.Lower(a) == Hex.Lower(b) }

  predicate Has0x(s: string) { |s| >= 2 && s[0] == '0' && (s[1] == 'x' || s[1] == 'X') }

  function Without0x(s: string): string { if Has0x(s) then s[2..] else s }

  predicate EvenHex(s: string) { |s| % 2 == 0 && forall i :: 0 <= i < |s| ==> Hex.Digit(s[i]) >= 0 }

  lemma {:induction false} DecodesIff(s: string)
    ensures Hex.Decode(s).Some? <==> EvenHex(s)
  {
    if |s| >= 2 {
      var rest := s[2..];
      DecodesIff(rest);
      assert forall i :: 2 <= i < |s| ==> s[i] == rest[i - 2];
      assert forall i :: 0 <= i < |rest| ==> rest[i] == s[i + 2];
    }
  }

  // ------------------------------------------------------------------- addresses

  /** common.IsHexAddress. */
  predicate IsHexAddress(s: string) { |Without0x(s)| == 40 && EvenHex(Without0x(s)) }

  function AddressIn(s: string): Address {
    match Hex.Decode(Without0x(s)) case None => 0 case Some(b) => Value(256, b)
  }

  function ReadSender(raw: string): Text {
    var t := Amounts.TrimSpace(raw);
    if t == "" then Blank else if !IsHexAddress(t) then Malformed else Named(AddressIn(t), Has0x(t))
  }

  /** The text the chain reader gives for a registered adapter, upper-case letters where its checksum puts them. */
  function AdapterText(bytes: seq<nat>, upper: set<nat>): string
    requires Hex.AreBytes(bytes)
  {
    "0x" + Hex.UpperAt(Hex.Encode(bytes), upper)
  }

  lemma {:induction false} ValueInjective(a: seq<nat>, b: seq<nat>)
    requires |a| == |b| && Digits(256, a) && Digits(256, b) && Value(256, a) == Value(256, b)
    ensures a == b
  {
    if a != [] {
      var n := |a| - 1;
      DivModUnique(Value(256, a[..n]), 256, a[n]);
      DivModUnique(Value(256, b[..n]), 256, b[n]);
      ValueInjective(a[..n], b[..n]);
      assert a == a[..n] + [a[n]] && b == b[..n] + [b[n]];
    }
  }

  lemma LowerPrefixed(s: string)
    requires Has0x(s)
    ensures Hex.Lower(s) == "0x" + Hex.Lower(s[2..])
  {
    assert s == s[..2] + s[2..];
    Hex.LowerAppend(s[..2], s[2..]);
    assert Hex.Lower(s[..2]) == "0x";
  }

  /** Digits spell bytes, in whatever case, exactly when they decode to them. */
  lemma SpellsIff(digits: string, b: seq<nat>)
    requires Hex.AreBytes(b)
    ensures Hex.Lower(digits) == Hex.Encode(b) <==> Hex.Decode(digits) == Some(b)
  {
    if Hex.Lower(digits) == Hex.Encode(b) {
      Hex.DecodeSpelling(digits, b);
    }
    if Hex.Decode(digits) == Some(b) {
      Hex.DecodeLower(digits);
      Hex.LowerLower(digits);
      Hex.EncodeDecode(Hex.Lower(digits));
    }
  }

  /** A given sender compares equal with the registered adapter exactly when it has 0x and is that address. */
  lemma SenderComparesIff(raw: string, current: seq<nat>, upper: set<nat>)
    requires ReadSender(raw).Named? && |current| == 20 && Hex.AreBytes(current)
    ensures EqualFold(AdapterText(current, upper), Amounts.TrimSpace(raw)) <==>
            ReadSender(raw).prefixed && ReadSender(raw).address == Value(256, current)
  {
    var t := Amounts.TrimSpace(raw);
    var digits := Without0x(t);
    var text := AdapterText(current, upper);
    assert Hex.Lower(text) == "0x" + Hex.Encode(current) by {
      LowerPrefixed(text);
      assert text[2..] == Hex.UpperAt(Hex.Encode(current), upper);
      Hex.LowerUpperAt(current, upper);
    }
    if Has0x(t) {
      LowerPrefixed(t);
      assert EqualFold(text, t) <==> Hex.Lower(digits) == Hex.Encode(current) by {
        SamePrefix("0x", Hex.Encode(current), Hex.Lower(digits));
      }
      SpellsIff(digits, current);
      DecodesIff(digits);
      SameAddress(Hex.Decode(digits).value, current);
    }
  }

  lemma SameAddress(a: seq<nat>, b: seq<nat>)
    requires |a| == |b| && Hex.AreBytes(a) && Hex.AreBytes(b)
    ensures Value(256, a) == Value(256, b) <==> a == b
  {
    if Value(256, a) == Value(256, b) {
      ValueInjective(a, b);
    }
  }

  lemma SamePrefix(p: string, a: string, b: string)
    ensures p + a == p + b <==> a == b
  {
    if p + a == p + b {
      assert (p + a)[|p|..] == a && (p + b)[|p|..] == b;
    }
  }

  // --------------------------------------------------------------------- options

  /** common.Hex2Bytes: the pairs before the first that is not hex. */
  function Pairs(s: string): seq<nat> {
    if |s| < 2 || Hex.Digit(s[0]) < 0 || Hex.Digit(s[1]) < 0 then []
    else [16 * Hex.Digit(s[0]) + Hex.Digit(s[1])] + Pairs(s[2..])
  }

  /** common.FromHex of the digits after 0x. */
  function FromHex(digits: string): seq<nat> { Pairs(if |digits| % 2 == 1 then "0" + digits else digits) }

  /** The options text with its 0x, which is added where it is missing. */
  function Prefixed(t: string): string { if "0x" <= t then t else "0x" + t }

  function OptionDigits(t: string): string { Prefixed(t)[2..] }

  function ReadOptions(raw: string): OptionsText {
    var t := Amounts.TrimSpace(raw);
    if t == "" then NoOptions else Options(FromHex(OptionDigits(t)), EvenHex(OptionDigits(t)))
  }

  lemma {:induction false} PairsDecode(s: string)
    requires Hex.Decode(s).Some?
    ensures Pairs(s) == Hex.Decode(s).value
  {
    if s != "" {
      PairsDecode(s[2..]);
    }
  }

  /** Stored options compare equal with the given text exactly when it is even-length hex and denotes them. */
  lemma OptionsCompareIff(raw: string, current: seq<nat>)
    requires ReadOptions(raw).Options? && Hex.AreBytes(current)
    ensures EqualFold("0x" + Hex.Encode(current), Prefixed(Amounts.TrimSpace(raw))) <==>
            ReadOptions(raw).canonical && ReadOptions(raw).bytes == current
  {
    var text := Prefixed(Amounts.TrimSpace(raw));
    var digits := text[2..];
    var stored := "0x" + Hex.Encode(current);
    LowerPrefixed(text);
    assert Hex.Lower(stored) == stored by {
      LowerPrefixed(stored);
      assert stored[2..] == Hex.Encode(current);
      Hex.LowerEncode(current);
    }
    SamePrefix("0x", Hex.Encode(current), Hex.Lower(digits));
    SpellsIff(digits, current);
    DecodesIff(digits);
    if EvenHex(digits) {
      PairsDecode(digits);
    }
  }

  /** An odd number of digits gets a zero in front, and reading stops at the first pair that is no hex. */
  lemma OptionBytes()
    ensures FromHex("1") == [1] && FromHex("12zz34") == [0x12] && FromHex("") == []
    ensures OptionDigits("0x1f") == OptionDigits("1f") == "1f" && OptionDigits("0X1f") == "0X1f"
  {
    assert "0" + "1" == "01" && "01"[2..] == "" && "12zz34"[2..] == "zz34";
    assert Pairs("") == [] && Pairs("zz34") == [];
    assert Pairs("01") == [1] && Pairs("12zz34") == [0x12];
    assert "1f"[0] == '1' && "0X1f"[1] == 'X' && "0x"[0] == '0' && "0x"[1] == 'x';
    assert !("0x" <= "1f") && !("0x" <= "0X1f") && "0x" <= "0x1f";
    assert "0x1f"[2..] == "1f" && ("0x" + "1f")[2..] == "1f" && ("0x" + "0X1f")[2..] == "0X1f";
  }

  /** What a sender text denotes: nothing when blank, an error when it is not 40 hex digits after an optional 0x or 0X. */
  lemma SenderIs(raw: string)
    ensures var t := Amounts.TrimSpace(raw);
            var digits := if |t| >= 2 && t[0] == '0' && (t[1] == 'x' || t[1] == 'X') then t[2..] else t;
            && (ReadSender(raw) == Blank <==> t == "")
            && (ReadSender(raw).Named? <==> |digits| == 40 && forall i :: 0 <= i < 40 ==> Hex.Digit(digits[i]) >= 0)
            && (ReadSender(raw).Named? ==> Hex.Decode(digits).Some? && ReadSender(raw).address == Value(256, Hex.Decode(digits).value))
  {
    var t := Amounts.TrimSpace(raw);
    DecodesIff(Without0x(t));
  }
}
