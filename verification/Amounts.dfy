/**
 Decimal amounts: `convertToSmallestUnit` of internal/usecases/utils.go parses a decimal
 text into an integer count of the smallest unit, `smallestUnitToDecimalString` of
 internal/usecases/create_payment_usecase.go prints such a count.
 */
module Amounts {
  import opened Numerals

  datatype Result = Ok(raw: string) | Err

  predicate IsSpace(c: char) {
    c == ' ' || '\t' <= c <= '\r' || c as int == 0x85 || c as int == 0xA0
  }

  function TrimLeft(s: string): (t: string)
    ensures t != "" ==> !IsSpace(t[0])
  {
    if s != "" && IsSpace(s[0]) then TrimLeft(s[1..]) else s
  }

  function TrimRight(s: string): (t: string)
    ensures t <= s
    ensures t != "" ==> !IsSpace(t[|t| - 1])
  {
    if s != "" && IsSpace(s[|s| - 1]) then TrimRight(s[..|s| - 1]) else s
  }

  function TrimSpace(s: string): string { TrimRight(TrimLeft(s)) }

  predicate IsDigit(c: char) { '0' <= c <= '9' }

  predicate AllDigits(s: string) {
    forall i :: 0 <= i < |s| ==> IsDigit(s[i])
  }

  function ZeroText(n: nat): (z: string)
    ensures |z| == n && AllDigits(z)
  {
    seq(n, _ => '0')
  }

  /** The number of leading '0' characters. */
  function LeadCount(s: string): (k: nat)
    ensures k <= |s|
    ensures forall i :: 0 <= i < k ==> s[i] == '0'
    ensures k < |s| ==> s[k] != '0'
  {
    if s != "" && s[0] == '0' then LeadCount(s[1..]) + 1 else 0
  }

  /** The length left when trailing '0' characters go. */
  function BodyLength(s: string): (k: nat)
    ensures k <= |s|
    ensures forall i :: k <= i < |s| ==> s[i] == '0'
    ensures k > 0 ==> s[k - 1] != '0'
  {
    if s != "" && s[|s| - 1] == '0' then BodyLength(s[..|s| - 1]) else |s|
  }

  /** strings.TrimLeft(s, "0") */
  function StripLeft(s: string): string { s[LeadCount(s)..] }

  /** strings.TrimRight(s, "0") */
  function StripRight(s: string): string { s[..BodyLength(s)] }

  function OrZero(s: string): string { if s == "" then "0" else s }

  /** A digit string without leading zeros, "0" for zero. */
  function Canonical(digits: string): string { OrZero(StripLeft(digits)) }

  /** The first dot, or the end. */
  function DotAt(s: string): (i: nat)
    ensures i <= |s|
    ensures forall k :: 0 <= k < i ==> s[k] != '.'
    ensures i < |s| ==> s[i] == '.'
  {
    if s == "" || s[0] == '.' then 0 else DotAt(s[1..]) + 1
  }

  /** The digits of a text without sign, shifted to smallest units. */
  function ParseUnsigned(text: string, decimals: nat): Result {
    var dot := DotAt(text);
    var whole := OrZero(text[..dot]);
    var fraction := if dot < |text| then text[dot + 1..] else "";
    if '.' in fraction || !AllDigits(whole) || !AllDigits(fraction) || |fraction| > decimals then Err
    else Ok(Canonical(whole + fraction + ZeroText(decimals - |fraction|)))
  }

  /** `convertToSmallestUnit`. */
  function Parse(amount: string, decimals: int): Result {
    var trimmed := TrimSpace(amount);
    if decimals < 0 || trimmed == "" || trimmed[0] == '-' then Err
    else ParseUnsigned(if trimmed[0] == '+' then trimmed[1..] else trimmed, decimals)
  }

  /** `smallestUnitToDecimalString`. */
  function Print(amount: string, decimals: int): string {
    PrintTrimmed(TrimSpace(amount), decimals)
  }

  function PrintTrimmed(raw: string, decimals: int): string {
    if raw == "" then "0"
    else if !AllDigits(raw) then raw
    else if decimals <= 0 then StripLeft(raw)
    else SplitAt(Padded(raw, decimals), decimals)
  }

  /** Zeros in front until there is a whole digit. */
  function Padded(raw: string, decimals: nat): (p: string)
    ensures |p| >= decimals && (raw != "" ==> |p| > decimals)
    ensures AllDigits(raw) ==> AllDigits(p)
  {
    if |raw| <= decimals then ZeroText(decimals - |raw| + 1) + raw else raw
  }

  function SplitAt(padded: string, decimals: nat): string
    requires decimals <= |padded|
  {
    DecimalText(padded[..|padded| - decimals], padded[|padded| - decimals..])
  }

  /** Whole and fractional digits as canonical text. */
  function DecimalText(whole: string, fraction: string): string {
    Canonical(whole) + (if StripRight(fraction) == "" then "" else "." + StripRight(fraction))
  }

  // ------------------------------------------------------------ what texts denote

  /** `text` is the digits `whole`, a dot and `fraction`, the dot optional without a fraction. */
  predicate Written(text: string, whole: string, fraction: string) {
    && AllDigits(whole) && AllDigits(fraction)
    && (text == whole + "." + fraction || (fraction == "" && text == whole))
  }

  /** The same with an optional plus sign, and not empty. */
  predicate Spells(text: string, whole: string, fraction: string) {
    && text != ""
    && (Written(text, whole, fraction) || (text[0] == '+' && Written(text[1..], whole, fraction)))
  }

  function DigitValues(s: string): (ds: seq<nat>)
    requires AllDigits(s)
    ensures |ds| == |s| && Digits(10, ds)
  {
    seq(|s|, i requires 0 <= i < |s| => s[i] as int - '0' as int)
  }

  /** The number a digit string denotes. */
  function Number(s: string): nat
    requires AllDigits(s)
  {
    Value(10, DigitValues(s))
  }

  lemma NumberAppend(s: string, t: string)
    requires AllDigits(s) && AllDigits(t)
    ensures AllDigits(s + t) && Number(s + t) == Number(s) * Pow(10, |t|) + Number(t)
  {
    var a, b := DigitValues(s), DigitValues(t);
    assert DigitValues(s + t) == a + b;
    ValueAppend(10, a, b);
  }

  lemma NumberOfZeros(n: nat)
    ensures Number(ZeroText(n)) == 0
  {
    assert DigitValues(ZeroText(n)) == Zeros(n);
    ValueOfZeros(10, n);
  }

  lemma NumberOfCanonical(s: string)
    requires AllDigits(s)
    ensures AllDigits(Canonical(s)) && Number(Canonical(s)) == Number(s)
  {
    var k := LeadCount(s);
    assert s == ZeroText(k) + s[k..];
    NumberAppend(ZeroText(k), s[k..]);
    NumberOfZeros(k);
    NumberOfZeros(1);
    assert "0" == ZeroText(1);
    assert k == |s| ==> s[k..] == "" && Number("") == 0;
  }

  // ----------------------------------------------------------------- strip algebra

  lemma TrimNothing(s: string)
    requires s != "" && !IsSpace(s[0]) && !IsSpace(s[|s| - 1])
    ensures TrimSpace(s) == s
  {
  }

  lemma LeadCountIs(s: string, k: nat)
    requires k <= |s| && (forall i :: 0 <= i < k ==> s[i] == '0') && (k < |s| ==> s[k] != '0')
    ensures LeadCount(s) == k
  {
  }

  lemma BodyLengthIs(s: string, k: nat)
    requires k <= |s| && (forall i :: k <= i < |s| ==> s[i] == '0') && (k > 0 ==> s[k - 1] != '0')
    ensures BodyLength(s) == k
  {
  }

  /** Leading zeros do not change the stripped form. */
  lemma StripLeftZeros(n: nat, s: string)
    ensures StripLeft(ZeroText(n) + s) == StripLeft(s)
  {
    var k := LeadCount(s);
    LeadCountIs(ZeroText(n) + s, n + k);
    assert (ZeroText(n) + s)[n + k..] == s[k..];
  }

  lemma StripRightZeros(s: string, n: nat)
    ensures StripRight(s + ZeroText(n)) == StripRight(s)
  {
    var k := BodyLength(s);
    BodyLengthIs(s + ZeroText(n), k);
    assert (s + ZeroText(n))[..k] == s[..k];
  }

  /** Making the front canonical first changes nothing. */
  lemma StripLeftFront(x: string, y: string)
    ensures StripLeft(Canonical(x) + y) == StripLeft(x + y)
  {
    var k := LeadCount(x);
    assert x + y == ZeroText(k) + (x[k..] + y);
    StripLeftZeros(k, x[k..] + y);
    if k == |x| {
      assert x[k..] + y == y && "0" == ZeroText(1);
      StripLeftZeros(1, y);
    }
  }

  /** Strings with the same stripped form differ by leading zeros. */
  lemma SameStripped(x: string, y: string)
    requires StripLeft(x) == StripLeft(y) && |x| >= |y|
    ensures x == ZeroText(|x| - |y|) + y
  {
    var a, b, d := LeadCount(x), LeadCount(y), |x| - |y|;
    assert a == b + d;
    forall i | 0 <= i < |x| ensures x[i] == (ZeroText(d) + y)[i] {
      if i >= a {
        assert x[i] == StripLeft(x)[i - a] == StripLeft(y)[i - a];
      }
    }
  }

  // -------------------------------------------------------------------- parsing

  lemma DotAfter(whole: string, fraction: string)
    requires AllDigits(whole)
    ensures DotAt(whole + "." + fraction) == |whole|
    ensures DotAt(whole) == |whole|
  {
    var s := whole + "." + fraction;
    assert s[|whole|] == '.';
    assert forall k :: 0 <= k < |whole| ==> s[k] == whole[k];
  }

  lemma PartsOfWritten(text: string, whole: string, fraction: string)
    requires Written(text, whole, fraction)
    ensures DotAt(text) == |whole| && text[..|whole|] == whole
    ensures |whole| < |text| ==> text[|whole| + 1..] == fraction
    ensures |whole| == |text| ==> fraction == ""
  {
    DotAfter(whole, fraction);
  }

  lemma CanonicalOrZero(whole: string, back: string)
    ensures Canonical(OrZero(whole) + back) == Canonical(whole + back)
  {
    if whole == "" {
      StripLeftZeros(1, back);
      assert "0" == ZeroText(1) && whole + back == back;
    }
  }

  lemma ParseWritten(text: string, decimals: nat, whole: string, fraction: string)
    requires Written(text, whole, fraction) && |fraction| <= decimals
    ensures ParseUnsigned(text, decimals) == Ok(Canonical(whole + (fraction + ZeroText(decimals - |fraction|))))
  {
    PartsOfWritten(text, whole, fraction);
    var zeros := ZeroText(decimals - |fraction|);
    assert OrZero(whole) + fraction + zeros == OrZero(whole) + (fraction + zeros);
    CanonicalOrZero(whole, fraction + zeros);
  }

  lemma UnsignedStart(text: string, whole: string, fraction: string)
    requires Written(text, whole, fraction) && text != ""
    ensures text[0] != '-' && text[0] != '+'
  {
  }

  /** What parsing makes of a text that spells an amount. */
  lemma ParseSpelled(amount: string, decimals: nat, whole: string, fraction: string)
    requires Spells(TrimSpace(amount), whole, fraction) && |fraction| <= decimals
    ensures Parse(amount, decimals) == Ok(Canonical(whole + (fraction + ZeroText(decimals - |fraction|))))
  {
    var trimmed := TrimSpace(amount);
    if Written(trimmed, whole, fraction) {
      UnsignedStart(trimmed, whole, fraction);
      ParseWritten(trimmed, decimals, whole, fraction);
    } else {
      ParseWritten(trimmed[1..], decimals, whole, fraction);
    }
  }

  lemma ParseUnsignedWrites(text: string, decimals: nat) returns (whole: string, fraction: string)
    requires ParseUnsigned(text, decimals).Ok?
    ensures Written(text, whole, fraction) && |fraction| <= decimals
  {
    var dot := DotAt(text);
    whole := text[..dot];
    fraction := if dot < |text| then text[dot + 1..] else "";
    if dot < |text| {
      assert text == whole + "." + fraction;
    }
  }

  /**
   Parsing succeeds exactly on texts that spell an amount with no more fractional digits than
   the token has decimals, and yields the canonical digits of that amount in smallest units.
   */
  lemma ParseIff(amount: string, decimals: int, raw: string)
    ensures Parse(amount, decimals) == Ok(raw) <==>
            decimals >= 0 && exists whole: string, fraction: string ::
              Spells(TrimSpace(amount), whole, fraction) && |fraction| <= decimals
              && raw == Canonical(whole + (fraction + ZeroText(decimals - |fraction|)))
  {
    var trimmed := TrimSpace(amount);
    if Parse(amount, decimals) == Ok(raw) {
      var text := if trimmed[0] == '+' then trimmed[1..] else trimmed;
      var whole, fraction := ParseUnsignedWrites(text, decimals);
      ParseWritten(text, decimals, whole, fraction);
      assert Spells(trimmed, whole, fraction);
    }
    if decimals >= 0 {
      forall whole: string, fraction: string
        | Spells(trimmed, whole, fraction) && |fraction| <= decimals
          && raw == Canonical(whole + (fraction + ZeroText(decimals - |fraction|)))
        ensures Parse(amount, decimals) == Ok(raw)
      {
        ParseSpelled(amount, decimals, whole, fraction);
      }
    }
  }

  /** `raw` is the number whole.fraction times 10^decimals. */
  predicate DenotesUnits(raw: string, decimals: nat, whole: string, fraction: string)
    requires AllDigits(whole) && AllDigits(fraction) && |fraction| <= decimals
  {
    && AllDigits(raw)
    && Number(raw) == Number(whole) * Pow(10, decimals) + Number(fraction) * Pow(10, decimals - |fraction|)
  }

  /** A parsed amount denotes exactly whole.fraction times 10^decimals. */
  lemma ParseDenotes(amount: string, decimals: nat, whole: string, fraction: string)
    requires Spells(TrimSpace(amount), whole, fraction) && |fraction| <= decimals
    ensures AllDigits(whole) && AllDigits(fraction)
    ensures Parse(amount, decimals).Ok? && DenotesUnits(Parse(amount, decimals).raw, decimals, whole, fraction)
  {
    ParseSpelled(amount, decimals, whole, fraction);
    CanonicalShifted(whole, fraction, decimals);
  }

  lemma CanonicalShifted(whole: string, fraction: string, decimals: nat)
    requires AllDigits(whole) && AllDigits(fraction) && |fraction| <= decimals
    ensures DenotesUnits(Canonical(whole + (fraction + ZeroText(decimals - |fraction|))), decimals, whole, fraction)
  {
    NumberShifted(whole, fraction, decimals);
    NumberOfCanonical(whole + (fraction + ZeroText(decimals - |fraction|)));
  }

  lemma NumberPadded(fraction: string, shift: nat)
    requires AllDigits(fraction)
    ensures AllDigits(fraction + ZeroText(shift)) && Number(fraction + ZeroText(shift)) == Number(fraction) * Pow(10, shift)
  {
    NumberAppend(fraction, ZeroText(shift));
    NumberOfZeros(shift);
  }

  lemma NumberShifted(whole: string, fraction: string, decimals: nat)
    requires AllDigits(whole) && AllDigits(fraction) && |fraction| <= decimals
    ensures DenotesUnits(whole + (fraction + ZeroText(decimals - |fraction|)), decimals, whole, fraction)
  {
    NumberPadded(fraction, decimals - |fraction|);
    NumberAppend(whole, fraction + ZeroText(decimals - |fraction|));
  }

  // ------------------------------------------------------------------ round trips

  lemma DecimalTextIsWritten(whole: string, fraction: string)
    requires AllDigits(whole) && AllDigits(fraction)
    ensures var t := DecimalText(whole, fraction);
            t != "" && TrimSpace(t) == t && Written(t, Canonical(whole), StripRight(fraction))
  {
    var w, f, t := Canonical(whole), StripRight(fraction), DecimalText(whole, fraction);
    assert AllDigits(w) && w != "";
    if f == "" {
      assert t == w;
    } else {
      assert t == w + "." + f;
      assert t[|t| - 1] == f[|f| - 1];
    }
    assert t[0] == w[0];
    TrimNothing(t);
  }

  /** Parsing a printed pair gives the canonical digits of whole followed by fraction. */
  lemma ParseDecimalText(whole: string, fraction: string)
    requires AllDigits(whole) && AllDigits(fraction)
    ensures Parse(DecimalText(whole, fraction), |fraction|) == Ok(Canonical(whole + fraction))
  {
    var w, f := Canonical(whole), StripRight(fraction);
    DecimalTextIsWritten(whole, fraction);
    ParseSpelled(DecimalText(whole, fraction), |fraction|, w, f);
    RestoreTrailing(fraction);
    StripLeftFront(whole, fraction);
  }

  lemma RestoreTrailing(s: string)
    ensures StripRight(s) + ZeroText(|s| - |StripRight(s)|) == s
  {
  }

  lemma PrintDigits(raw: string, decimals: nat)
    requires AllDigits(raw) && raw != "" && decimals > 0
    ensures Print(raw, decimals) == SplitAt(Padded(raw, decimals), decimals)
  {
    assert TrimSpace(raw) == raw by {
      TrimNothing(raw);
    }
  }

  lemma ParseSplit(p: string, decimals: nat)
    requires AllDigits(p) && decimals <= |p|
    ensures Parse(SplitAt(p, decimals), decimals) == Ok(Canonical(p))
  {
    var split := |p| - decimals;
    assert p == p[..split] + p[split..];
    ParseDecimalText(p[..split], p[split..]);
  }

  /** Print then parse, for a token with decimals: the amount without leading zeros. */
  lemma ParsePrintWithDecimals(amount: string, decimals: nat)
    requires AllDigits(amount) && decimals >= 1
    ensures Parse(Print(amount, decimals), decimals) == Ok(Canonical(amount))
  {
    if amount == "" {
      ParseZero(decimals);
    } else {
      assert Print(amount, decimals) == SplitAt(Padded(amount, decimals), decimals) by {
        PrintDigits(amount, decimals);
      }
      ParseSplit(Padded(amount, decimals), decimals);
      PaddedSame(amount, decimals);
    }
  }

  lemma PaddedSame(raw: string, decimals: nat)
    ensures StripLeft(Padded(raw, decimals)) == StripLeft(raw)
  {
    if |raw| <= decimals {
      StripLeftZeros(decimals - |raw| + 1, raw);
    }
  }

  lemma ParseZero(decimals: nat)
    ensures Parse("0", decimals) == Ok("0")
  {
    assert Written("0", "0", "");
    TrimNothing("0");
    ParseSpelled("0", decimals, "0", "");
    AllZeros("0" + ("" + ZeroText(decimals)));
  }

  lemma AllZeros(s: string)
    requires forall i :: 0 <= i < |s| ==> s[i] == '0'
    ensures Canonical(s) == "0"
  {
  }

  /** Print then parse without decimals: only zero is lost, since it prints as empty text. */
  lemma ParsePrintWithoutDecimals(amount: string)
    requires AllDigits(amount)
    ensures Parse(Print(amount, 0), 0) == Ok(Canonical(amount)) <==> amount == "" || StripLeft(amount) != ""
  {
    if amount == "" {
      ParseZero(0);
    } else {
      TrimNothing(amount);
      var t := StripLeft(amount);
      if t != "" {
        assert t == DecimalText(amount, "") && amount + "" == amount;
        ParseDecimalText(amount, "");
      }
    }
  }

  /**
   Print then parse gives the amount without leading zeros, exactly unless a zero is printed
   with no decimals.
   */
  lemma ParsePrint(amount: string, decimals: nat)
    requires AllDigits(amount)
    ensures Parse(Print(amount, decimals), decimals) == Ok(Canonical(amount)) <==>
            decimals >= 1 || amount == "" || StripLeft(amount) != ""
  {
    if decimals == 0 {
      ParsePrintWithoutDecimals(amount);
    } else {
      ParsePrintWithDecimals(amount, decimals);
    }
  }

  /** Padding the canonical digits of a string restores a suffix of it. */
  lemma PaddedMatches(all: string, decimals: nat)
    requires |all| > decimals
    ensures var p := Padded(Canonical(all), decimals);
            decimals < |p| <= |all| && all == ZeroText(|all| - |p|) + p
  {
    var raw := Canonical(all);
    var p := Padded(raw, decimals);
    if |raw| <= decimals {
      StripLeftZeros(decimals - |raw| + 1, raw);
    }
    StripLeftFront(all, "");
    assert raw + "" == raw && all + "" == all;
    SameStripped(all, p);
  }

  /**
   Parse then print gives the canonical text of the number that was written, exactly when the token
   has decimals or the number is not zero.
   */
  lemma PrintParse(amount: string, decimals: nat, whole: string, fraction: string)
    requires Spells(TrimSpace(amount), whole, fraction) && |fraction| <= decimals
    ensures Parse(amount, decimals).Ok?
    ensures Print(Parse(amount, decimals).raw, decimals) == DecimalText(whole, fraction) <==>
            decimals >= 1 || StripLeft(whole) != ""
  {
    assert AllDigits(whole) && AllDigits(fraction);
    ParseSpelled(amount, decimals, whole, fraction);
    PrintShiftedIff(decimals, whole, fraction, Parse(amount, decimals).raw);
  }

  lemma PrintShiftedIff(decimals: nat, whole: string, fraction: string, raw: string)
    requires AllDigits(whole) && AllDigits(fraction) && |fraction| <= decimals
    requires raw == Canonical(whole + (fraction + ZeroText(decimals - |fraction|)))
    ensures Print(raw, decimals) == DecimalText(whole, fraction) <==> decimals >= 1 || StripLeft(whole) != ""
  {
    if decimals >= 1 {
      PrintShifted(decimals, whole, fraction);
    } else {
      assert whole + (fraction + ZeroText(decimals - |fraction|)) == whole;
      PrintWhole(whole);
    }
  }

  lemma PrintWhole(whole: string)
    requires AllDigits(whole)
    ensures Print(Canonical(whole), 0) == DecimalText(whole, "") <==> StripLeft(whole) != ""
  {
    var c := Canonical(whole);
    assert AllDigits(c) && c != "" by { NumberOfCanonical(whole); }
    assert TrimSpace(c) == c by { TrimNothing(c); }
    if StripLeft(whole) != "" {
      LeadCountIs(c, 0);
    } else {
      LeadCountIs("0", 1);
    }
  }

  /** Zero of a token without decimals prints as no text at all, which does not parse. */
  lemma ZeroWithoutDecimals()
    ensures Print("0", 0) == "" && Parse("", 0) == Err && Parse("0", 0) == Ok("0")
  {
    ParseZero(0);
    TrimNothing("0");
    LeadCountIs("0", 1);
  }

  lemma PrintShifted(decimals: nat, whole: string, fraction: string)
    requires AllDigits(whole) && AllDigits(fraction) && |fraction| <= decimals && decimals >= 1
    ensures Print(Canonical(whole + (fraction + ZeroText(decimals - |fraction|))), decimals) == DecimalText(whole, fraction)
  {
    var back := fraction + ZeroText(decimals - |fraction|);
    var c := Canonical(whole + back);
    assert c == Canonical(OrZero(whole) + back) by { CanonicalOrZero(whole, back); }
    assert AllDigits(c) && c != "" by { NumberOfCanonical(whole + back); }
    assert Print(c, decimals) == SplitAt(Padded(c, decimals), decimals) by {
      PrintDigits(c, decimals);
    }
    SplitShifted(decimals, whole, fraction, back);
  }

  lemma SplitShifted(decimals: nat, whole: string, fraction: string, back: string)
    requires |fraction| <= decimals && back == fraction + ZeroText(decimals - |fraction|)
    ensures SplitAt(Padded(Canonical(OrZero(whole) + back), decimals), decimals) == DecimalText(whole, fraction)
  {
    var front := SplitPadded(decimals, OrZero(whole), back);
    DecimalTextTrims(whole, fraction, front, back);
  }

  lemma DecimalTextTrims(whole: string, fraction: string, w: string, f: string)
    requires StripLeft(w) == StripLeft(OrZero(whole)) && |f| >= |fraction| && f == fraction + ZeroText(|f| - |fraction|)
    ensures DecimalText(w, f) == DecimalText(whole, fraction)
  {
    StripRightZeros(fraction, |f| - |fraction|);
    if whole == "" {
      AllZeros(whole);
      AllZeros("0");
    }
  }

  /** Cutting the padded digits at the decimal point recovers both parts, up to leading zeros. */
  lemma SplitPadded(decimals: nat, w: string, back: string) returns (front: string)
    requires |back| == decimals && w != ""
    ensures SplitAt(Padded(Canonical(w + back), decimals), decimals) == DecimalText(front, back)
    ensures StripLeft(front) == StripLeft(w)
  {
    var all := w + back;
    PaddedMatches(all, decimals);
    var p := Padded(Canonical(all), decimals);
    front := CutDigits(w, back, |all| - |p|, p);
  }

  lemma CutDigits(w: string, back: string, m: nat, p: string) returns (front: string)
    requires w + back == ZeroText(m) + p && |back| < |p|
    ensures SplitAt(p, |back|) == DecimalText(front, back) && StripLeft(front) == StripLeft(w)
  {
    CutTogether(w, back, m, p);
    front := p[..|p| - |back|];
    assert StripLeft(ZeroText(m) + front) == StripLeft(front) by {
      StripLeftZeros(m, front);
    }
  }

  lemma CutTogether(w: string, back: string, m: nat, p: string)
    requires w + back == ZeroText(m) + p && |back| < |p|
    ensures p[|p| - |back|..] == back && w == ZeroText(m) + p[..|p| - |back|]
  {
    var all := w + back;
    assert all[|w|..] == back && all[|w|..] == p[|p| - |back|..];
    assert all[..|w|] == w && all[..|w|] == ZeroText(m) + p[..|p| - |back|];
  }

  // ------------------------------------------------------------------ canonical texts

  /** No leading zero but a lone one, no trailing zero after the point, no point without digits after it. */
  predicate CanonicalText(t: string, whole: string, fraction: string) {
    && AllDigits(whole) && AllDigits(fraction)
    && whole != "" && (whole == "0" || whole[0] != '0')
    && (fraction == "" || fraction[|fraction| - 1] != '0')
    && t == if fraction == "" then whole else whole + "." + fraction
  }

  lemma DecimalTextIsCanonical(whole: string, fraction: string)
    requires AllDigits(whole) && AllDigits(fraction)
    ensures CanonicalText(DecimalText(whole, fraction), Canonical(whole), StripRight(fraction))
  {
  }

  /** With decimals every amount prints as canonical text. */
  lemma PrintIsCanonical(amount: string, decimals: nat) returns (whole: string, fraction: string)
    requires AllDigits(amount) && amount != "" && decimals >= 1
    ensures CanonicalText(Print(amount, decimals), whole, fraction) && |fraction| <= decimals
  {
    var p := Padded(amount, decimals);
    PrintDigits(amount, decimals);
    var w, f := p[..|p| - decimals], p[|p| - decimals..];
    DecimalTextIsCanonical(w, f);
    whole, fraction := Canonical(w), StripRight(f);
  }

  /** Texts that are no digits print as they are, blank text as zero. */
  lemma PrintOtherTexts(amount: string, decimals: int)
    ensures TrimSpace(amount) == "" ==> Print(amount, decimals) == "0"
    ensures !AllDigits(TrimSpace(amount)) ==> Print(amount, decimals) == TrimSpace(amount)
  {
  }

  /** Trimming takes spaces from both ends, all of them and nothing else. */
  lemma TrimSpaceIs(s: string) returns (left: string, right: string)
    ensures s == left + TrimSpace(s) + right
    ensures (forall c :: c in left ==> IsSpace(c)) && (forall c :: c in right ==> IsSpace(c))
    ensures TrimSpace(s) != "" ==> !IsSpace(TrimSpace(s)[0]) && !IsSpace(TrimSpace(s)[|TrimSpace(s)| - 1])
  {
    left := TrimLeftIs(s);
    right := TrimRightIs(TrimLeft(s));
    assert TrimSpace(s) != "" ==> TrimSpace(s)[0] == TrimLeft(s)[0];
  }

  lemma {:induction false} TrimLeftIs(s: string) returns (left: string)
    ensures s == left + TrimLeft(s) && forall c :: c in left ==> IsSpace(c)
  {
    left := "";
    if s != "" && IsSpace(s[0]) {
      var rest := TrimLeftIs(s[1..]);
      left := [s[0]] + rest;
      assert s == [s[0]] + s[1..];
    }
  }

  lemma {:induction false} TrimRightIs(s: string) returns (right: string)
    ensures s == TrimRight(s) + right && forall c :: c in right ==> IsSpace(c)
  {
    right := "";
    if s != "" && IsSpace(s[|s| - 1]) {
      var rest := TrimRightIs(s[..|s| - 1]);
      right := rest + [s[|s| - 1]];
      assert s == s[..|s| - 1] + [s[|s| - 1]];
    }
  }

  /** The Latin-1 characters that count as spaces. */
  lemma SpacesAre(c: char)
    ensures IsSpace(c) <==> c in " \t\n\r" || c as int == 0x0B || c as int == 0x0C || c as int == 0x85 || c as int == 0xA0
  {
  }
}
