/**
 The Solana create_payment instruction of internal/usecases/payment_usecase.go: a fixed
 layout of discriminator, payment id, length-prefixed chain id, token, amount and receiver,
 written as base 58 text. A reader of the layout recovers every field.
 */
module SvmInstruction {
  import opened Wrappers
  import opened Numerals
  import Base58
  import Hex

  type Bytes = seq<nat>

  const WORD: nat := 32
  const U64_MAX: nat := 0xFFFF_FFFF_FFFF_FFFF

  // ------------------------------------------------------------- little endian

  /** The low `width` bytes of `n`, least significant first. */
  function LittleEndian(n: nat, width: nat): (b: Bytes)
    ensures |b| == width && Digits(256, b)
    decreases width, n
  {
    if width == 0 then [] else [n % 256] + LittleEndian(n / 256, width - 1)
  }

  function FromLittleEndian(b: Bytes): nat {
    if b == [] then 0 else b[0] + 256 * FromLittleEndian(b[1..])
  }

  /** Reading back gives the number modulo 256^width: a wider number wraps. */
  lemma {:induction false} LittleEndianRoundTrip(n: nat, width: nat)
    ensures exists k: nat :: n == FromLittleEndian(LittleEndian(n, width)) + k * Pow(256, width)
    ensures FromLittleEndian(LittleEndian(n, width)) < Pow(256, width)
    decreases width
  {
    if width == 0 {
      assert n == 0 + n * Pow(256, 0);
    } else {
      LittleEndianRoundTrip(n / 256, width - 1);
      var low := FromLittleEndian(LittleEndian(n / 256, width - 1));
      var k: nat :| n / 256 == low + k * Pow(256, width - 1);
      var b := LittleEndian(n, width);
      assert b[1..] == LittleEndian(n / 256, width - 1);
      assert 256 * (k * Pow(256, width - 1)) == k * Pow(256, width) by { Shift(k, Pow(256, width - 1)); }
      assert n == FromLittleEndian(b) + k * Pow(256, width);
    }
  }

  lemma Shift(k: nat, p: nat)
    ensures 256 * (k * p) == k * (256 * p)
  {
  }

  lemma LittleEndianFits(n: nat, width: nat)
    ensures FromLittleEndian(LittleEndian(n, width)) == n <==> n < Pow(256, width)
    ensures FromLittleEndian(LittleEndian(n, width)) <= n
  {
    LittleEndianRoundTrip(n, width);
    var low := FromLittleEndian(LittleEndian(n, width));
    var k: nat :| n == low + k * Pow(256, width);
    if k >= 1 {
      assert Pow(256, width) <= k * Pow(256, width) by { MulMono(1, k, Pow(256, width), Pow(256, width)); }
    }
  }

  // ------------------------------------------------------------------- fields

  /** The amount field: unparsable and negative amounts become zero, larger ones saturate. */
  function AmountField(amount: Option<int>): (a: nat)
    ensures a <= U64_MAX
  {
    if amount.None? || amount.value < 0 then 0
    else if amount.value > U64_MAX then U64_MAX
    else amount.value
  }

  /** Right-aligned in 32 bytes; longer input keeps its last 32. */
  function ToWord(b: Bytes): (w: Bytes)
    ensures |w| == WORD
    ensures Digits(256, b) ==> Digits(256, w)
  {
    var tail := if |b| > WORD then b[|b| - WORD..] else b;
    Zeros(WORD - |tail|) + tail
  }

  predicate Ascii(s: string) {
    forall i :: 0 <= i < |s| ==> s[i] as nat < 0x80
  }

  function AsciiBytes(s: string): (b: Bytes)
    requires Ascii(s)
    ensures Digits(256, b)
  {
    seq(|s|, i requires 0 <= i < |s| => s[i] as nat)
  }

  /** `addressToBytes32`: hex after 0x, else base 58, else the text's own bytes. */
  function AddressToBytes32(addr: string): (w: Bytes)
    requires Ascii(addr)
    ensures |w| == WORD && Digits(256, w)
  {
    if addr == "" then Zeros(WORD)
    else if "0x" <= addr && Hex.Decode(addr[2..]).Some? then ToWord(Hex.Decode(addr[2..]).value)
    else if Base58.Decode(addr) != [] then ToWord(Base58.Decode(addr))
    else ToWord(AsciiBytes(addr))
  }

  /** A Solana key written in base 58 comes back as itself. */
  lemma SolanaAddress(key: Bytes)
    requires |key| == WORD && Digits(256, key)
    ensures Ascii(Base58.Encode(key)) && AddressToBytes32(Base58.Encode(key)) == key
  {
    var text := Base58.Encode(key);
    Base58.DecodeEncode(key);
    assert ToWord(key) == key;
    assert text != "" by { if text == "" { Base58.DecodeEmptyIff(text); } }
    KeyIsNoHex(text);
  }

  /** The alphabet is ASCII and lacks the digit zero. */
  lemma KeyIsNoHex(text: string)
    requires Base58.InAlphabet(text)
    ensures Ascii(text) && !("0x" <= text)
  {
    assert text != "" ==> Base58.DigitOf(text[0]) >= 0;
    assert Base58.DigitOf('0') < 0;
    forall i | 0 <= i < |text| ensures text[i] as nat < 0x80 {
      assert Base58.DigitOf(text[i]) >= 0;
    }
  }

  /** Up to 32 bytes written in hex after 0x, in any letter case, come back right-aligned. */
  lemma HexAddress(text: string, b: Bytes)
    requires |b| <= WORD && Digits(256, b) && Ascii(text) && Hex.Lower(text) == Hex.Encode(b)
    ensures Ascii("0x" + text) && AddressToBytes32("0x" + text) == Zeros(WORD - |b|) + b
  {
    var addr := "0x" + text;
    assert addr[2..] == text && addr[0] == '0' && addr[1] == 'x';
    assert Hex.Decode(text) == Some(b) by { Hex.DecodeSpelling(text, b); }
    AsciiAppend("0x", text);
    TakesHex(addr, b);
  }

  lemma AsciiAppend(s: string, t: string)
    requires Ascii(s) && Ascii(t)
    ensures Ascii(s + t)
  {
  }

  lemma TakesHex(addr: string, b: Bytes)
    requires Ascii(addr) && |addr| >= 2 && addr[0] == '0' && addr[1] == 'x' && Hex.Decode(addr[2..]) == Some(b) && |b| <= WORD
    ensures AddressToBytes32(addr) == Zeros(WORD - |b|) + b
  {
    assert "0x" <= addr;
  }

  datatype Payment = Payment(id: Bytes, chainId: Bytes, destToken: string, receiver: string, amount: Option<int>)

  predicate ValidPayment(p: Payment) {
    |p.id| == 16 && Digits(256, p.id) && Digits(256, p.chainId) && Ascii(p.destToken) && Ascii(p.receiver)
  }

  function UuidWord(id: Bytes): Bytes { Zeros(16) + id }

  function Layout(discriminator: Bytes, p: Payment): Bytes
    requires ValidPayment(p)
  {
    discriminator
    + UuidWord(p.id)
    + LittleEndian(|p.chainId|, 4) + p.chainId
    + AddressToBytes32(p.destToken)
    + LittleEndian(AmountField(p.amount), 8)
    + AddressToBytes32(p.receiver)
  }

  /** `buildSvmPaymentBase58`. */
  function BuildPayment(discriminator: Bytes, p: Payment): string
    requires ValidPayment(p)
  {
    Base58.Encode(Layout(discriminator, p))
  }

  // -------------------------------------------------------------------- reader

  datatype Instruction = Instruction(id: Bytes, chainId: Bytes, token: Bytes, amount: nat, receiver: Bytes)

  /** The program's side: split the bytes by the layout, refusing anything that does not fit it. */
  function ReadInstruction(discriminator: Bytes, data: Bytes): Option<Instruction>
    requires |discriminator| == 8
  {
    if |data| < 44 || data[..8] != discriminator || data[8..24] != Zeros(16) then None
    else
      var n := FromLittleEndian(data[40..44]);
      if |data| != 44 + n + 72 then None
      else Some(Instruction(data[24..40], data[44..44 + n], data[44 + n..76 + n],
                            FromLittleEndian(data[76 + n..84 + n]), data[84 + n..]))
  }

  function Fields(p: Payment): Instruction
    requires ValidPayment(p)
  {
    Instruction(p.id, p.chainId, AddressToBytes32(p.destToken), AmountField(p.amount), AddressToBytes32(p.receiver))
  }

  lemma LayoutSlices(discriminator: Bytes, p: Payment)
    requires |discriminator| == 8 && ValidPayment(p)
    ensures var d, n := Layout(discriminator, p), |p.chainId|;
            && |d| == 44 + n + 72
            && d[..8] == discriminator && d[8..24] == Zeros(16) && d[24..40] == p.id
            && d[40..44] == LittleEndian(n, 4) && d[44..44 + n] == p.chainId
            && d[44 + n..76 + n] == AddressToBytes32(p.destToken)
            && d[76 + n..84 + n] == LittleEndian(AmountField(p.amount), 8)
            && d[84 + n..] == AddressToBytes32(p.receiver)
  {
    Slices(discriminator, Zeros(16), p.id, LittleEndian(|p.chainId|, 4), p.chainId, AddressToBytes32(p.destToken),
           LittleEndian(AmountField(p.amount), 8), AddressToBytes32(p.receiver));
  }

  lemma Slices(a: Bytes, z: Bytes, b: Bytes, c: Bytes, chain: Bytes, t: Bytes, m: Bytes, r: Bytes)
    requires |a| == 8 && |z| == 16 && |b| == 16 && |c| == 4 && |t| == 32 && |m| == 8 && |r| == 32
    ensures var d, n := a + (z + b) + c + chain + t + m + r, |chain|;
            && |d| == 44 + n + 72
            && d[..8] == a && d[8..24] == z && d[24..40] == b && d[40..44] == c && d[44..44 + n] == chain
            && d[44 + n..76 + n] == t && d[76 + n..84 + n] == m && d[84 + n..] == r
  {
    var d, n := a + (z + b) + c + chain + t + m + r, |chain|;
    var head, tail := a + (z + b) + c, t + m + r;
    assert d == head + chain + tail;
    assert d[..44] == head;
    assert d[..8] == head[..8] && d[8..24] == head[8..24] && d[24..40] == head[24..40] && d[40..44] == head[40..44];
    assert d[44 + n..] == tail;
    assert d[44 + n..76 + n] == tail[..32] && d[76 + n..84 + n] == tail[32..40] && d[84 + n..] == tail[40..];
  }

  lemma LayoutBytes(discriminator: Bytes, p: Payment)
    requires Digits(256, discriminator) && ValidPayment(p)
    ensures Digits(256, Layout(discriminator, p))
  {
  }

  /**
   A reader recovers every field of a built instruction exactly when the chain id is shorter
   than 2^32 bytes; the amount comes back saturated at 2^64 - 1.
   */
  lemma ReadBuiltPayment(discriminator: Bytes, p: Payment)
    requires |discriminator| == 8 && Digits(256, discriminator) && ValidPayment(p)
    ensures ReadInstruction(discriminator, Base58.Decode(BuildPayment(discriminator, p))) == Some(Fields(p))
            <==> |p.chainId| < Pow(256, 4)
  {
    LayoutBytes(discriminator, p);
    Base58.DecodeEncode(Layout(discriminator, p));
    ReadLayout(discriminator, p);
  }

  lemma AmountFits(p: Payment)
    ensures FromLittleEndian(LittleEndian(AmountField(p.amount), 8)) == AmountField(p.amount)
  {
    LittleEndianFits(AmountField(p.amount), 8);
    assert Pow(256, 8) == U64_MAX + 1;
  }

  lemma ReadLayout(discriminator: Bytes, p: Payment)
    requires |discriminator| == 8 && ValidPayment(p)
    ensures ReadInstruction(discriminator, Layout(discriminator, p)) == Some(Fields(p)) <==> |p.chainId| < Pow(256, 4)
  {
    LayoutSlices(discriminator, p);
    AmountFits(p);
    var n, limit := |p.chainId|, Pow(256, 4);
    assert FromLittleEndian(LittleEndian(n, 4)) == n <==> n < limit by {
      LittleEndianFits(n, 4);
    }
  }

  /** The length field wraps: a chain id of exactly 2^32 bytes is not read back. */
  lemma LongChainIdIsLost(discriminator: Bytes)
    requires |discriminator| == 8 && Digits(256, discriminator)
    ensures var p := Payment(Zeros(16), Zeros(Pow(256, 4)), "", "", None);
            ReadInstruction(discriminator, Base58.Decode(BuildPayment(discriminator, p))) != Some(Fields(p))
  {
    ReadBuiltPayment(discriminator, Payment(Zeros(16), Zeros(Pow(256, 4)), "", "", None));
  }

  /** The least significant byte comes first. */
  lemma LeastSignificantFirst()
    ensures LittleEndian(258, 4) == [2, 1, 0, 0]
  {
    assert LittleEndian(0, 1) == [0] && LittleEndian(0, 2) == [0, 0];
    assert LittleEndian(1, 3) == [1, 0, 0];
  }

  /** Amounts up to 2^64 - 1 are written as they are, larger ones as 2^64 - 1, negative and unreadable ones as zero. */
  lemma AmountFieldIs(n: int)
    ensures 0 <= n <= 18446744073709551615 ==> AmountField(Some(n)) == n
    ensures n > 18446744073709551615 ==> AmountField(Some(n)) == 18446744073709551615
    ensures n < 0 ==> AmountField(Some(n)) == 0
    ensures AmountField(None) == 0
  {
  }

  /** A text that is neither hex after 0x nor base 58 stands for its own bytes; of more than 32 the last are kept. */
  lemma RawAddress(text: string)
    requires Ascii(text) && text != "" && Base58.Decode(text) == [] && ("0x" <= text ==> Hex.Decode(text[2..]) == None)
    ensures |text| <= 32 ==> AddressToBytes32(text) == Zeros(32 - |text|) + AsciiBytes(text)
    ensures |text| > 32 ==> AddressToBytes32(text) == AsciiBytes(text)[|text| - 32..]
    ensures forall i :: 0 <= i < |text| ==> AsciiBytes(text)[i] == text[i] as nat
  {
    if |text| > 32 {
      assert Zeros(0) + AsciiBytes(text)[|text| - 32..] == AsciiBytes(text)[|text| - 32..];
    }
  }
}
