/** The hand-written calldata of updateStateKzgDA(uint256[],bytes[])
    (crates/settlement-clients/ethereum/src/conversion.rs), and a strict decoder for it that follows the
    formal specification of the encoding in the Solidity contract ABI specification. */
module Calldata {
  import opened Outcomes
  import opened ModularArithmetic
  import opened Bytes

  type Word32 = w: seq<byte> | |w| == WORD witness ZeroBytes(WORD)
  type Proof48 = w: seq<byte> | |w| == 48 witness ZeroBytes(48)

  // ---- Hexadecimal text -----------------------------------------------------------------------

  function HexDigit(d: nat): char
    requires d < 16
  {
    if d < 10 then ('0' as int + d) as char else ('a' as int + d - 10) as char
  }

  function HexValue(c: char): Option<nat> {
    if '0' <= c <= '9' then Some(c as int - '0' as int)
    else if 'a' <= c <= 'f' then Some(c as int - 'a' as int + 10)
    else None
  }

  /** Two lower-case digits per byte. */
  function HexByte(b: byte): string {
    [HexDigit(b / 16), HexDigit(b % 16)]
  }

  function HexBytes(bs: seq<byte>): string {
    if bs == [] then "" else HexBytes(bs[..|bs| - 1]) + HexByte(bs[|bs| - 1])
  }

  /** The shortest hexadecimal numeral. */
  function HexNumber(n: nat): string {
    if n < 16 then [HexDigit(n)] else HexNumber(n / 16) + [HexDigit(n % 16)]
  }

  function ZeroChars(n: nat): string {
    seq(n, _ => '0')
  }

  /** Zeros in front up to the width. */
  function PadFront(s: string, width: nat): string {
    if |s| >= width then s else ZeroChars(width - |s|) + s
  }

  /** Zeros behind up to the width. */
  function PadBack(s: string, width: nat): string {
    if |s| >= width then s else s + ZeroChars(width - |s|)
  }

  /** to_padded_hex, for slices of at most 32 bytes. */
  function ToPaddedHex(slice: seq<byte>): string
    requires |slice| <= WORD
  {
    PadBack(HexBytes(slice), 64)
  }

  /** u8_32_slice_to_hex_string. */
  function WordsToHex(data: seq<Word32>): string {
    if data == [] then ""
    else WordsToHex(data[..|data| - 1]) + PadFront(HexBytes(data[|data| - 1]), 64)
  }

  /** u8_48_to_hex_string. */
  function ProofToHex(data: Proof48): string {
    ToPaddedHex(data[..WORD]) + ToPaddedHex(data[WORD..])
  }

  function Field(n: nat): string {
    PadFront(HexNumber(n), 64)
  }

  const METHOD_ID: seq<byte> := [0x50, 0x7e, 0xe5, 0x28]

  /** get_input_data_for_eip_4844: every length and offset is computed from the pieces of text. */
  function InputData(programOutput: seq<Word32>, kzgProof: Proof48): string {
    var outputHex := WordsToHex(programOutput);
    "0x507ee528"
    + Field(64)
    + Field((3 * 64 + |outputHex|) / 2)
    + Field(|programOutput|)
    + outputHex
    + Field(1)
    + Field(32)
    + Field(|kzgProof|)
    + ProofToHex(kzgProof)
  }

  // ---- The decoder -------------------------------------------------------------------------------

  /** Text to bytes; none for an odd length or a character that is not a lower-case digit. */
  function UnhexBytes(s: string): Option<seq<byte>> {
    if s == "" then Some([])
    else if |s| == 1 then None
    else
      var front, hi, lo := UnhexBytes(s[..|s| - 2]), HexValue(s[|s| - 2]), HexValue(s[|s| - 1]);
      if front.None? || hi.None? || lo.None? then None else Some(front.value + [16 * hi.value + lo.value])
  }

  /** The 32-byte number at a byte position. */
  function WordAt(data: seq<byte>, at: nat): Option<nat> {
    if at + WORD > |data| then None else Some(ValueBe(data[at..at + WORD]))
  }

  /** n numbers from a position on. */
  function NumbersAt(data: seq<byte>, at: nat, n: nat): Option<seq<nat>> {
    if n == 0 then Some([])
    else
      var front, v := NumbersAt(data, at, n - 1), WordAt(data, at + WORD * (n - 1));
      if front.None? || v.None? then None else Some(front.value + [v.value])
  }

  /** uint256[]: a count, then the numbers. */
  function UintArrayAt(data: seq<byte>, at: nat): Option<seq<nat>> {
    match WordAt(data, at)
    case None => None
    case Some(n) => NumbersAt(data, at + WORD, n)
  }

  function RoundUp(n: nat): nat {
    (n + WORD - 1) / WORD * WORD
  }

  /** bytes: a length, the bytes, and zeros up to a multiple of 32. */
  function BytesAt(data: seq<byte>, at: nat): Option<seq<byte>> {
    match WordAt(data, at)
    case None => None
    case Some(n) =>
      var from, to := at + WORD, at + WORD + RoundUp(n);
      if to > |data| || data[from + n..to] != ZeroBytes(to - from - n) then None
      else Some(data[from..from + n])
  }

  /** The elements of bytes[]: offset k is relative to the start of the offsets. */
  function ElementsAt(data: seq<byte>, base: nat, n: nat): Option<seq<seq<byte>>> {
    if n == 0 then Some([])
    else
      var front, offset := ElementsAt(data, base, n - 1), WordAt(data, base + WORD * (n - 1));
      if front.None? || offset.None? then None
      else
        var element := BytesAt(data, base + offset.value);
        if element.None? then None else Some(front.value + [element.value])
  }

  function BytesArrayAt(data: seq<byte>, at: nat): Option<seq<seq<byte>>> {
    match WordAt(data, at)
    case None => None
    case Some(n) => ElementsAt(data, at + WORD, n)
  }

  datatype Call = Call(programOutput: seq<nat>, proofs: seq<seq<byte>>)

  /** The two dynamic arguments behind the selector: offsets in the head, contents where they point. */
  function DecodeArguments(data: seq<byte>): Option<Call> {
    var first, second := WordAt(data, 0), WordAt(data, WORD);
    if first.None? || second.None? then None
    else
      var ns, ps := UintArrayAt(data, first.value), BytesArrayAt(data, second.value);
      if ns.None? || ps.None? then None else Some(Call(ns.value, ps.value))
  }

  function DecodeCall(text: string): Option<Call> {
    if |text| < 2 || text[..2] != "0x" then None
    else
      match UnhexBytes(text[2..])
      case None => None
      case Some(bytes) =>
        if |bytes| < 4 || bytes[..4] != METHOD_ID then None else DecodeArguments(bytes[4..])
  }

  // ---- The encoders as code ------------------------------------------------------------------------

  lemma {:induction false} HexBytesLength(bs: seq<byte>)
    ensures |HexBytes(bs)| == 2 * |bs|
  {
    if bs != [] {
      HexBytesLength(bs[..|bs| - 1]);
    }
  }

  lemma {:induction false} WordsToHexLength(data: seq<Word32>)
    ensures |WordsToHex(data)| == 64 * |data|
  {
    if data != [] {
      WordsToHexLength(data[..|data| - 1]);
      HexBytesLength(data[|data| - 1]);
    }
  }

  // ---- Text to bytes -----------------------------------------------------------------------------

  lemma {:induction false} UnhexConcat(a: string, b: string)
    requires UnhexBytes(a).Some? && UnhexBytes(b).Some?
    ensures UnhexBytes(a + b) == Some(UnhexBytes(a).value + UnhexBytes(b).value)
  {
    if b == "" {
      assert a + b == a;
      assert UnhexBytes(a).value + [] == UnhexBytes(a).value;
    } else {
      var b' := b[..|b| - 2];
      UnhexConcat(a, b');
      assert (a + b)[..|a + b| - 2] == a + b';
      var last := UnhexBytes(b).value[|UnhexBytes(b).value| - 1];
      assert UnhexBytes(a).value + (UnhexBytes(b').value + [last])
          == UnhexBytes(a).value + UnhexBytes(b').value + [last];
    }
  }

  lemma HexDigitValue(d: nat)
    requires d < 16
    ensures HexValue(HexDigit(d)) == Some(d)
  {}

  lemma UnhexSnoc(s: string, bs: seq<byte>, b: byte)
    requires UnhexBytes(s) == Some(bs)
    ensures UnhexBytes(s + HexByte(b)) == Some(bs + [b])
  {
    var t := s + HexByte(b);
    HexDigitValue(b / 16);
    HexDigitValue(b % 16);
    assert t[..|t| - 2] == s;
    assert t[|t| - 2] == HexDigit(b / 16) && t[|t| - 1] == HexDigit(b % 16);
  }

  lemma HexLast(bs: seq<byte>)
    requires bs != []
    ensures HexBytes(bs) == HexBytes(bs[..|bs| - 1]) + HexByte(bs[|bs| - 1])
  {
  }

  lemma {:induction false} UnhexHex(bs: seq<byte>)
    ensures UnhexBytes(HexBytes(bs)) == Some(bs)
  {
    if bs != [] {
      var front := bs[..|bs| - 1];
      UnhexHex(front);
      HexLast(bs);
      UnhexSnoc(HexBytes(front), front, bs[|bs| - 1]);
      assert front + [bs[|bs| - 1]] == bs;
    }
  }

  lemma {:induction false} HexZeros(n: nat)
    ensures HexBytes(ZeroBytes(n)) == ZeroChars(2 * n)
  {
    if n != 0 {
      HexZeros(n - 1);
      assert ZeroBytes(n)[..n - 1] == ZeroBytes(n - 1);
    }
  }

  lemma {:induction false} HexConcat(a: seq<byte>, b: seq<byte>)
    ensures HexBytes(a + b) == HexBytes(a) + HexBytes(b)
  {
    if b == [] {
      assert a + b == a;
    } else {
      HexConcat(a, b[..|b| - 1]);
      assert (a + b)[..|a + b| - 1] == a + b[..|b| - 1];
    }
  }

  /** A padded numeral is the hexadecimal text of the number's 32 bytes. */
  lemma {:induction false} FieldIsHex(n: nat, width: nat)
    requires n < Pow(256, width) && width > 0
    ensures |HexNumber(n)| <= 2 * width && PadFront(HexNumber(n), 2 * width) == HexBytes(FixedBe(n, width))
  {
    if n < 256 {
      SmallFieldIsHex(n, width);
    } else {
      assert Pow(256, width) == 256 * Pow(256, width - 1);
      LargeIsWide(n, width);
      FieldIsHex(n / 256, width - 1);
      BigHexNumber(n);
      PadSnoc(HexNumber(n / 256), HexByte(n % 256), 2 * width - 2);
      HexSnoc(FixedBe(n / 256, width - 1), n % 256);
    }
  }

  /** Padding in front does not mind what is appended. */
  lemma PadSnoc(s: string, t: string, width: nat)
    requires |s| <= width
    ensures PadFront(s + t, width + |t|) == PadFront(s, width) + t
  {
    var zeros := ZeroChars(width - |s|);
    assert zeros + (s + t) == (zeros + s) + t;
  }

  lemma HexSnoc(front: seq<byte>, b: byte)
    ensures HexBytes(front + [b]) == HexBytes(front) + HexByte(b) && |HexByte(b)| == 2
  {
    assert (front + [b])[..|front|] == front;
  }

  lemma NarrowPow(width: nat)
    requires width <= 1
    ensures Pow(256, width) <= 256
  {
  }

  lemma LargeIsWide(n: nat, width: nat)
    requires 256 <= n < Pow(256, width)
    ensures width > 1
  {
    if width <= 1 {
      NarrowPow(width);
    }
  }

  lemma SmallFixed(n: nat, width: nat)
    requires n < 256 && width > 0
    ensures FixedBe(n, width) == ZeroBytes(width - 1) + [n]
  {
    FixedBeZero(width - 1);
  }

  lemma PadSmall(n: nat, k: nat)
    requires n < 256
    ensures |HexNumber(n)| <= 2 && PadFront(HexNumber(n), k + 2) == ZeroChars(k) + HexByte(n)
  {
    SmallHexNumber(n);
    if n < 16 {
      assert ZeroChars(k) + ("0" + HexNumber(n)) == ZeroChars(k + 1) + HexNumber(n);
    }
  }

  lemma SmallFieldIsHex(n: nat, width: nat)
    requires n < 256 && width > 0
    ensures |HexNumber(n)| <= 2 * width && PadFront(HexNumber(n), 2 * width) == HexBytes(FixedBe(n, width))
  {
    var k := 2 * (width - 1);
    SmallFixed(n, width);
    HexSnoc(ZeroBytes(width - 1), n);
    HexZeros(width - 1);
    PadSmall(n, k);
    assert k + 2 == 2 * width;
  }

  lemma SmallHexNumber(n: nat)
    requires n < 256
    ensures HexByte(n) == if n < 16 then "0" + HexNumber(n) else HexNumber(n)
  {
    if n >= 16 {
      assert HexNumber(n / 16) == [HexDigit(n / 16)];
    }
  }

  lemma BigHexNumber(n: nat)
    requires n >= 256
    ensures HexNumber(n) == HexNumber(n / 256) + HexByte(n % 256)
  {
    assert n / 16 / 16 == n / 256 && n / 16 % 16 == n % 256 / 16 && n % 16 == n % 256 % 16;
    assert HexNumber(n / 16) == HexNumber(n / 256) + [HexDigit(n % 256 / 16)];
  }

  function Concat(ws: seq<Word32>): seq<byte> {
    if ws == [] then [] else Concat(ws[..|ws| - 1]) + ws[|ws| - 1]
  }

  lemma UnhexField(n: nat)
    requires n < Pow(256, WORD)
    ensures UnhexBytes(Field(n)) == Some(FixedBe(n, WORD))
  {
    FieldIsHex(n, WORD);
    UnhexHex(FixedBe(n, WORD));
  }

  lemma {:induction false} UnhexWords(ws: seq<Word32>)
    ensures UnhexBytes(WordsToHex(ws)) == Some(Concat(ws))
  {
    if ws != [] {
      UnhexWords(ws[..|ws| - 1]);
      HexBytesLength(ws[|ws| - 1]);
      UnhexHex(ws[|ws| - 1]);
      UnhexConcat(WordsToHex(ws[..|ws| - 1]), HexBytes(ws[|ws| - 1]));
    }
  }

  lemma UnhexProof(data: Proof48)
    ensures UnhexBytes(ProofToHex(data)) == Some(data + ZeroBytes(16))
  {
    var first, last := data[..WORD], data[WORD..];
    HexBytesLength(first);
    HexBytesLength(last);
    HexZeros(16);
    HexConcat(last, ZeroBytes(16));
    UnhexHex(first);
    UnhexHex(last + ZeroBytes(16));
    UnhexConcat(HexBytes(first), HexBytes(last + ZeroBytes(16)));
    assert first + (last + ZeroBytes(16)) == data + ZeroBytes(16);
  }

  /** text is 0x and the hexadecimal form of bs. */
  ghost predicate IsHexOf(text: string, bs: seq<byte>) {
    |text| >= 2 && text[..2] == "0x" && UnhexBytes(text[2..]) == Some(bs)
  }

  /** Appending a field extends text and bytes in step. */
  lemma Extend(text: string, bs: seq<byte>, field: string, cs: seq<byte>)
    requires IsHexOf(text, bs) && UnhexBytes(field) == Some(cs)
    ensures IsHexOf(text + field, bs + cs)
  {
    UnhexConcat(text[2..], field);
    assert (text + field)[2..] == text[2..] + field;
  }

  lemma ExtendFour(text: string, bs: seq<byte>, f: string, g: string, h: string, k: string,
                   a: seq<byte>, b: seq<byte>, c: seq<byte>, d: seq<byte>)
    requires IsHexOf(text, bs)
    requires UnhexBytes(f) == Some(a) && UnhexBytes(g) == Some(b) && UnhexBytes(h) == Some(c) && UnhexBytes(k) == Some(d)
    ensures IsHexOf(text + f + g + h + k, bs + a + b + c + d)
  {
    Extend(text, bs, f, a);
    Extend(text + f, bs + a, g, b);
    Extend(text + f + g, bs + a + b, h, c);
    Extend(text + f + g + h, bs + a + b + c, k, d);
  }

  lemma UnhexSelector()
    ensures IsHexOf("0x507ee528", METHOD_ID)
  {
    UnhexHex(METHOD_ID);
    assert METHOD_ID[..3] == [0x50, 0x7e, 0xe5] && METHOD_ID[..3][..2] == [0x50, 0x7e] && METHOD_ID[..3][..2][..1] == [0x50];
    assert HexBytes([0x50]) == HexBytes([]) + HexByte(0x50) == "50";
    assert HexBytes([0x50, 0x7e]) == "50" + HexByte(0x7e) == "507e";
    assert HexBytes([0x50, 0x7e, 0xe5]) == "507e" + HexByte(0xe5) == "507ee5";
    assert HexBytes(METHOD_ID) == "507ee5" + HexByte(0x28) == "507ee528";
    assert "0x507ee528"[2..] == "507ee528";
  }

  /** Selector, argument offsets, and the numbers. */
  function FirstBytes(programOutput: seq<Word32>, head: nat, tail: nat): seq<byte> {
    METHOD_ID + FixedBe(head, WORD) + FixedBe(tail, WORD) + FixedBe(|programOutput|, WORD) + Concat(programOutput)
  }

  /** The array of one proof: count, offset, length, and the proof padded to 64 bytes. */
  function LastBytes(kzgProof: Proof48, one: nat, offset: nat, size: nat): seq<byte> {
    FixedBe(one, WORD) + FixedBe(offset, WORD) + FixedBe(size, WORD) + (kzgProof + ZeroBytes(16))
  }

  /** The offsets and lengths of the encoding, kept as variables so that they are not computed with. */
  datatype Layout = Layout(head: nat, tail: nat, one: nat, offset: nat, size: nat)

  predicate IsLayout(l: Layout, n: nat) {
    l.head == 64 && l.tail == 96 + 32 * n && l.one == 1 && l.offset == 32 && l.size == 48
  }

  function Encoded(programOutput: seq<Word32>, kzgProof: Proof48, l: Layout): seq<byte> {
    FirstBytes(programOutput, l.head, l.tail) + LastBytes(kzgProof, l.one, l.offset, l.size)
  }

  lemma FirstIsHex(text: string, bs: seq<byte>, programOutput: seq<Word32>, head: nat, tail: nat, n: nat)
    requires IsHexOf(text, bs) && head < Pow(256, WORD) && tail < Pow(256, WORD) && n < Pow(256, WORD)
    ensures IsHexOf(text + Field(head) + Field(tail) + Field(n) + WordsToHex(programOutput),
                    bs + FixedBe(head, WORD) + FixedBe(tail, WORD) + FixedBe(n, WORD) + Concat(programOutput))
  {
    UnhexField(head);
    UnhexField(tail);
    UnhexField(n);
    UnhexWords(programOutput);
    ExtendFour(text, bs, Field(head), Field(tail), Field(n), WordsToHex(programOutput),
               FixedBe(head, WORD), FixedBe(tail, WORD), FixedBe(n, WORD), Concat(programOutput));
  }

  lemma LastIsHex(text: string, bs: seq<byte>, kzgProof: Proof48, one: nat, offset: nat, size: nat)
    requires IsHexOf(text, bs) && one == 1 && offset == 32 && size == 48
    ensures IsHexOf(text + Field(one) + Field(offset) + Field(size) + ProofToHex(kzgProof),
                    bs + FixedBe(one, WORD) + FixedBe(offset, WORD) + FixedBe(size, WORD) + (kzgProof + ZeroBytes(16)))
  {
    WordBound();
    UnhexField(one);
    UnhexField(offset);
    UnhexField(size);
    UnhexProof(kzgProof);
    ExtendFour(text, bs, Field(one), Field(offset), Field(size), ProofToHex(kzgProof),
               FixedBe(one, WORD), FixedBe(offset, WORD), FixedBe(size, WORD), kzgProof + ZeroBytes(16));
  }

  lemma TailOffset(programOutput: seq<Word32>)
    requires |programOutput| < 0x1_0000_0000_0000_0000
    ensures (3 * 64 + |WordsToHex(programOutput)|) / 2 == 96 + 32 * |programOutput| < Pow(256, WORD)
    ensures 64 < Pow(256, WORD) && |programOutput| < Pow(256, WORD)
  {
    WordsToHexLength(programOutput);
    WordBound();
  }

  lemma LastPartIsHex(text: string, bs: seq<byte>, kzgProof: Proof48, one: nat, offset: nat, size: nat)
    requires IsHexOf(text, bs) && one == 1 && offset == 32 && size == 48
    ensures IsHexOf(text + Field(one) + Field(offset) + Field(size) + ProofToHex(kzgProof),
                    bs + LastBytes(kzgProof, one, offset, size))
  {
    LastIsHex(text, bs, kzgProof, one, offset, size);
    var a, b, c, d := FixedBe(one, WORD), FixedBe(offset, WORD), FixedBe(size, WORD), kzgProof + ZeroBytes(16);
    assert bs + a + b + c + d == bs + (a + b + c + d);
  }

  function Text(selector: string, programOutput: seq<Word32>, kzgProof: Proof48, l: Layout): string {
    selector + Field(l.head) + Field(l.tail) + Field(|programOutput|) + WordsToHex(programOutput)
    + Field(l.one) + Field(l.offset) + Field(l.size) + ProofToHex(kzgProof)
  }

  lemma TextIsHex(selector: string, programOutput: seq<Word32>, kzgProof: Proof48, l: Layout)
    requires |programOutput| < 0x1_0000_0000_0000_0000 && IsLayout(l, |programOutput|) && IsHexOf(selector, METHOD_ID)
    ensures IsHexOf(Text(selector, programOutput, kzgProof, l), Encoded(programOutput, kzgProof, l))
  {
    TailOffset(programOutput);
    FirstIsHex(selector, METHOD_ID, programOutput, l.head, l.tail, |programOutput|);
    var first := selector + Field(l.head) + Field(l.tail) + Field(|programOutput|) + WordsToHex(programOutput);
    LastPartIsHex(first, FirstBytes(programOutput, l.head, l.tail), kzgProof, l.one, l.offset, l.size);
  }

  lemma InputIsText(programOutput: seq<Word32>, kzgProof: Proof48, l: Layout)
    requires |programOutput| < 0x1_0000_0000_0000_0000 && IsLayout(l, |programOutput|)
    ensures InputData(programOutput, kzgProof) == Text("0x507ee528", programOutput, kzgProof, l)
  {
    TailOffset(programOutput);
  }

  /** The text is the hexadecimal form of the parts. */
  lemma InputIsHex(programOutput: seq<Word32>, kzgProof: Proof48, l: Layout, selector: string)
    requires |programOutput| < 0x1_0000_0000_0000_0000 && IsLayout(l, |programOutput|) && selector == "0x507ee528"
    ensures IsHexOf(InputData(programOutput, kzgProof), Encoded(programOutput, kzgProof, l))
  {
    UnhexSelector();
    TextIsHex(selector, programOutput, kzgProof, l);
    InputIsText(programOutput, kzgProof, l);
  }

  // ---- Decoding the bytes ---------------------------------------------------------------------------

  lemma WordHere(data: seq<byte>, at: nat, w: Word32)
    requires at + WORD <= |data| && data[at..at + WORD] == w
    ensures WordAt(data, at) == Some(ValueBe(w))
  {}

  function Values(ws: seq<Word32>): seq<nat> {
    seq(|ws|, (i: nat) requires i < |ws| => ValueBe(ws[i]))
  }

  lemma {:induction false} ConcatLength(ws: seq<Word32>)
    ensures |Concat(ws)| == WORD * |ws|
  {
    if ws != [] {
      ConcatLength(ws[..|ws| - 1]);
    }
  }

  lemma {:induction false} NumbersHere(data: seq<byte>, at: nat, ws: seq<Word32>)
    requires at + WORD * |ws| <= |data| && data[at..at + WORD * |ws|] == Concat(ws)
    ensures NumbersAt(data, at, |ws|) == Some(Values(ws))
  {
    if ws == [] {
      assert Values(ws) == [];
    } else {
      var front, last := ws[..|ws| - 1], ws[|ws| - 1];
      ConcatLength(front);
      var middle := at + WORD * |front|;
      assert data[at..middle] == Concat(ws)[..WORD * |front|] == Concat(front);
      assert data[middle..middle + WORD] == Concat(ws)[WORD * |front|..] == last;
      NumbersHere(data, at, front);
      WordHere(data, middle, last);
      assert Values(ws) == Values(front) + [ValueBe(last)];
    }
  }

  /** The first argument, where its offset points. */
  lemma FirstArgument(data: seq<byte>, at: nat, count: Word32, ws: seq<Word32>)
    requires ValueBe(count) == |ws| && at + WORD + WORD * |ws| <= |data|
    requires data[at..at + WORD] == count && data[at + WORD..at + WORD + WORD * |ws|] == Concat(ws)
    ensures UintArrayAt(data, at) == Some(Values(ws))
  {
    WordHere(data, at, count);
    NumbersHere(data, at + WORD, ws);
  }

  /** A slice of a slice. */
  lemma SubSlice(data: seq<byte>, at: nat, piece: seq<byte>, i: nat, j: nat)
    requires at + |piece| <= |data| && data[at..at + |piece|] == piece && i <= j <= |piece|
    ensures data[at + i..at + j] == piece[i..j]
  {
    forall k | 0 <= k < j - i ensures data[at + i..at + j][k] == piece[i..j][k] {
      assert data[at..at + |piece|][i + k] == data[at + i + k];
    }
  }

  /** The proof behind its length, padded to 64 bytes. */
  lemma ProofHere(data: seq<byte>, at: nat, size: Word32, kzgProof: Proof48)
    requires ValueBe(size) == 48 && at + 96 <= |data|
    requires data[at..at + 96] == size + (kzgProof + ZeroBytes(16))
    ensures BytesAt(data, at) == Some(kzgProof)
  {
    var piece := size + (kzgProof + ZeroBytes(16));
    SubSlice(data, at, piece, 0, 32);
    assert piece[0..32] == size;
    WordHere(data, at, size);
    assert RoundUp(48) == 64;
    SubSlice(data, at, piece, 32, 80);
    assert piece[32..80] == kzgProof;
    SubSlice(data, at, piece, 80, 96);
    assert piece[80..96] == ZeroBytes(16);
  }

  lemma OneElement(data: seq<byte>, at: nat, one: Word32, offset: Word32, element: seq<byte>)
    requires ValueBe(one) == 1 && ValueBe(offset) == 32 && at + 64 <= |data|
    requires data[at..at + 32] == one && data[at + 32..at + 64] == offset
    requires BytesAt(data, at + 64) == Some(element)
    ensures BytesArrayAt(data, at) == Some([element])
  {
    WordHere(data, at, one);
    WordHere(data, at + 32, offset);
    assert ElementsAt(data, at + 32, 0) == Some([]);
    assert [] + [element] == [element];
  }

  lemma SecondParts(data: seq<byte>, at: nat, one: Word32, offset: Word32, size: Word32, kzgProof: Proof48)
    requires ValueBe(one) == 1 && ValueBe(offset) == 32 && ValueBe(size) == 48
    requires at + 160 == |data| && data[at..] == one + offset + size + (kzgProof + ZeroBytes(16))
    ensures BytesArrayAt(data, at) == Some([kzgProof])
  {
    var piece := one + offset + size + (kzgProof + ZeroBytes(16));
    SubSlice(data, at, piece, 0, 32);
    assert piece[0..32] == one;
    SubSlice(data, at, piece, 32, 64);
    assert piece[32..64] == offset;
    SubSlice(data, at, piece, 64, 160);
    assert piece[64..160] == size + (kzgProof + ZeroBytes(16));
    ProofHere(data, at + 64, size, kzgProof);
    OneElement(data, at, one, offset, kzgProof);
  }

  /** The second argument: one proof at offset 32, behind its own length. */
  lemma SecondArgument(data: seq<byte>, at: nat, kzgProof: Proof48, one: nat, offset: nat, size: nat)
    requires one == 1 && offset == 32 && size == 48
    requires at + 160 == |data| && data[at..] == LastBytes(kzgProof, one, offset, size)
    ensures BytesArrayAt(data, at) == Some([kzgProof])
  {
    WordBound();
    FixedBeValue(one, WORD);
    FixedBeValue(offset, WORD);
    FixedBeValue(size, WORD);
    SecondParts(data, at, FixedBe(one, WORD), FixedBe(offset, WORD), FixedBe(size, WORD), kzgProof);
  }

  lemma Pieces(data: seq<byte>, a: Word32, b: Word32, c: Word32, d: seq<byte>, e: seq<byte>)
    requires data == a + b + c + d + e
    ensures data[0..32] == a && data[32..64] == b && data[64..96] == c
    ensures data[96..96 + |d|] == d && data[96 + |d|..] == e
  {}

  /** Both arguments are read where their offsets point. */
  lemma ArgumentsAt(data: seq<byte>, head: nat, tail: nat, ns: seq<nat>, ps: seq<seq<byte>>)
    requires WordAt(data, 0) == Some(head) && WordAt(data, WORD) == Some(tail)
    requires UintArrayAt(data, head) == Some(ns) && BytesArrayAt(data, tail) == Some(ps)
    ensures DecodeArguments(data) == Some(Call(ns, ps))
  {}

  /** The two offsets and the numbers are read back, and the last bytes are left. */
  lemma PartsDecode(data: seq<byte>, a: Word32, b: Word32, c: Word32, ws: seq<Word32>, last: seq<byte>, l: Layout)
    requires data == a + b + c + Concat(ws) + last && IsLayout(l, |ws|)
    requires ValueBe(a) == l.head && ValueBe(b) == l.tail && ValueBe(c) == |ws|
    ensures WordAt(data, 0) == Some(l.head) && WordAt(data, WORD) == Some(l.tail)
    ensures UintArrayAt(data, l.head) == Some(Values(ws))
    ensures |data| == l.tail + |last| && data[l.tail..] == last
  {
    ConcatLength(ws);
    Pieces(data, a, b, c, Concat(ws), last);
    WordHere(data, 0, a);
    WordHere(data, WORD, b);
    FirstArgument(data, l.head, c, ws);
  }

  /** The bytes behind the selector decode to the arguments. */
  lemma ArgumentsDecode(programOutput: seq<Word32>, kzgProof: Proof48, data: seq<byte>, l: Layout)
    requires |programOutput| < Pow(256, WORD) && l.tail < Pow(256, WORD) && IsLayout(l, |programOutput|)
    requires data == FixedBe(l.head, WORD) + FixedBe(l.tail, WORD) + FixedBe(|programOutput|, WORD)
                     + Concat(programOutput) + LastBytes(kzgProof, l.one, l.offset, l.size)
    ensures DecodeArguments(data) == Some(Call(Values(programOutput), [kzgProof]))
  {
    var n, last := |programOutput|, LastBytes(kzgProof, l.one, l.offset, l.size);
    FixedBeValue(l.head, WORD);
    FixedBeValue(l.tail, WORD);
    FixedBeValue(n, WORD);
    PartsDecode(data, FixedBe(l.head, WORD), FixedBe(l.tail, WORD), FixedBe(n, WORD), programOutput, last, l);
    SecondArgument(data, l.tail, kzgProof, l.one, l.offset, l.size);
    ArgumentsAt(data, l.head, l.tail, Values(programOutput), [kzgProof]);
  }

  lemma EncodedParts(programOutput: seq<Word32>, kzgProof: Proof48, l: Layout)
    ensures var bytes := Encoded(programOutput, kzgProof, l);
            |bytes| >= 4 && bytes[..4] == METHOD_ID
            && bytes[4..] == FixedBe(l.head, WORD) + FixedBe(l.tail, WORD) + FixedBe(|programOutput|, WORD)
                             + Concat(programOutput) + LastBytes(kzgProof, l.one, l.offset, l.size)
  {
    var a, b, c := FixedBe(l.head, WORD), FixedBe(l.tail, WORD), FixedBe(|programOutput|, WORD);
    var d, e := Concat(programOutput), LastBytes(kzgProof, l.one, l.offset, l.size);
    assert METHOD_ID + a + b + c + d + e == METHOD_ID + (a + b + c + d + e);
  }

  lemma EncodingDecodes(programOutput: seq<Word32>, kzgProof: Proof48, l: Layout)
    requires |programOutput| < 0x1_0000_0000_0000_0000 && IsLayout(l, |programOutput|)
    ensures DecodeCall(InputData(programOutput, kzgProof)) == Some(Call(Values(programOutput), [kzgProof]))
  {
    InputIsHex(programOutput, kzgProof, l, "0x507ee528");
    TailOffset(programOutput);
    EncodedParts(programOutput, kzgProof, l);
    ArgumentsDecode(programOutput, kzgProof, Encoded(programOutput, kzgProof, l)[4..], l);
  }

  lemma StartsWithSelector(programOutput: seq<Word32>, kzgProof: Proof48, selector: string)
    requires selector == "0x507ee528"
    ensures selector <= InputData(programOutput, kzgProof)
  {
  }

  /** Round trip: the strict decoder returns the same numbers and the single proof, for every number of words. */
  lemma CalldataRoundTrip(programOutput: seq<Word32>, kzgProof: Proof48)
    requires |programOutput| < 0x1_0000_0000_0000_0000
    ensures |InputData(programOutput, kzgProof)| >= 10 && InputData(programOutput, kzgProof)[..10] == "0x507ee528"
    ensures DecodeCall(InputData(programOutput, kzgProof)) == Some(Call(Values(programOutput), [kzgProof]))
  {
    StartsWithSelector(programOutput, kzgProof, "0x507ee528");
    EncodingDecodes(programOutput, kzgProof, Layout(64, 96 + 32 * |programOutput|, 1, 32, 48));
  }
}
