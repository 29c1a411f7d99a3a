/** Decoding the reason of a reverted transaction. */
module RevertReason {
  import opened Wrappers
  import opened HexText
  import opened JsonParser
  import opened JsonReading

  const EMPTY_HEX := "0x"

  // `text.slice(from, upto)` for bounds that are not negative
  function Slice(text: string, from: nat, upto: nat): string {
    var hi := if upto < |text| then upto else |text|;
    if from < hi then text[from..hi] else ""
  }

  // `String.fromCharCode(parseInt(pair, 16))`, where NaN gives the null character
  function CharOf(pair: string): char
    requires |pair| <= 2
  {
    PairBound(pair);
    ParseInt16(pair).GetOr(0) as char
  }

  lemma PairBound(pair: string)
    requires |pair| <= 2
    ensures ParseInt16(pair).GetOr(0) < 256
  {
    var digits := Digits16(pair);
    if |digits| == 2 {
      SingleDigit(digits[..1]);
    } else if |digits| == 1 {
      SingleDigit(digits);
    }
  }

  lemma SingleDigit(text: string)
    requires |text| == 1
    ensures Value(text) == HexValue(text[0])
    ensures Value(text).Some? ==> Value(text).value < 16
  {
    assert text[..0] == [];
    assert Value(text[..0]) == Some(0);
  }

  function HexToAscii(hex: string): string
    decreases |hex|
  {
    if hex == [] then ""
    else if |hex| == 1 then [CharOf(hex)]
    else [CharOf(hex[..2])] + HexToAscii(hex[2..])
  }

  method HexToASCII(hex: string) returns (ascii: string)
    ensures ascii == HexToAscii(hex)
  {
    ascii := "";
    var n := 0;
    while n < |hex|
      invariant n <= |hex| + 1
      invariant ascii + (if n < |hex| then HexToAscii(hex[n..]) else "") == HexToAscii(hex)
    {
      var pair := Slice(hex, n, n + 2);
      assert n + 1 < |hex| ==> hex[n..][..2] == pair && hex[n..][2..] == hex[n + 2..];
      ascii := ascii + [CharOf(pair)];
      n := n + 2;
    }
  }

  predicate Contains(text: string, part: string) {
    part <= text || (text != [] && Contains(text[1..], part))
  }

  function DecodeErrorMessage(message: Option<string>): string {
    if message.None? || message.value == "" then ""
    else if !Contains(message.value, EMPTY_HEX) then message.value
    else
      var body := if EMPTY_HEX <= message.value then message.value[2..] else message.value;
      DecodeBody(body)
  }

  // The text whose length is the second word after the selector, and whose bytes follow it.
  function DecodeBody(body: string): string {
    var strLen := ParseInt16(Slice(body, 8 + 64, 8 + 128)).GetOr(0);
    HexToAscii(Slice(body, 8 + 128, 8 + 128 + strLen * 2))
  }

  /******* The encoding of Error(string) *******/

  const SELECTOR := "08c379a0"

  predicate EightBit(s: string) {
    forall i :: 0 <= i < |s| ==> s[i] as int < 256
  }

  function Bytes(s: string): (r: seq<byte>)
    requires EightBit(s)
    ensures |r| == |s|
  {
    if s == [] then []
    else
      var b: byte := s[0] as int;
      [b] + Bytes(s[1..])
  }

  // A 32-byte word in hexadecimal, in either case.
  predicate IsWord(text: string, n: nat) {
    |text| == 64 && AllHex(text) && Value(text) == Some(n)
  }

  // The call data of Error(string): the selector, the offset of the string, its length and its bytes.
  predicate EncodesError(message: string, s: string, offset: string, length: string, text: string, padding: string)
    requires EightBit(s)
  {
    && message == EMPTY_HEX + (SELECTOR + offset + length + text + padding)
    && IsWord(offset, 32) && IsWord(length, |s|)
    && Decode(text) == Some(Bytes(s))
  }

  lemma {:induction false} AsciiReads(text: string, s: string)
    requires EightBit(s) && Decode(text) == Some(Bytes(s))
    ensures HexToAscii(text) == s && |text| == 2 * |s|
    decreases |text|
  {
    if text != [] {
      var pair := text[..2];
      var more := Decode(text[2..]).value;
      var b: byte := HexValue(text[0]).value * 16 + HexValue(text[1]).value;
      assert Decode(text).value == [b] + more;
      assert Bytes(s) == [s[0] as int] + Bytes(s[1..]);
      assert more == Bytes(s)[1..] == Bytes(s[1..]) && b == Bytes(s)[0] == s[0] as int;
      AsciiReads(text[2..], s[1..]);
      SingleDigit(pair[..1]);
      assert AllHex(pair) && Value(pair) == Some(b);
      assert [s[0]] + s[1..] == s;
    }
  }

  lemma MiddleSlice(a: string, b: string, c: string)
    ensures Slice(a + b + c, |a|, |a| + |b|) == b
  {
    assert (a + b + c)[|a|..|a| + |b|] == b;
  }

  lemma StripsPrefix(body: string)
    ensures DecodeErrorMessage(Some(EMPTY_HEX + body)) == DecodeBody(body)
  {
    var message := EMPTY_HEX + body;
    assert |message| >= 2 && message[..2] == EMPTY_HEX && message[2..] == body;
    assert Contains(message, EMPTY_HEX);
  }

  lemma BodyDecodes(s: string, head: string, length: string, text: string, padding: string)
    requires EightBit(s) && |head| == 72 && IsWord(length, |s|) && Decode(text) == Some(Bytes(s))
    ensures DecodeBody(head + length + text + padding) == s
  {
    var body := head + length + text + padding;
    MiddleSlice(head, length, text + padding);
    assert body == head + length + (text + padding);
    assert ParseInt16(length) == Some(|s|);
    AsciiReads(text, s);
    MiddleSlice(head + length, text, padding);
  }

  // A reason is decoded to itself, whatever follows its bytes.
  lemma ReasonDecodes(message: string, s: string, offset: string, length: string, text: string, padding: string)
    requires EightBit(s) && EncodesError(message, s, offset, length, text, padding)
    ensures DecodeErrorMessage(Some(message)) == s
  {
    BodyDecodes(s, SELECTOR + offset, length, text, padding);
    StripsPrefix(SELECTOR + offset + length + text + padding);
  }

  // Every string of 8-bit characters has such call data, and is decoded from it.
  lemma EncodedReads(s: string, offset: string, length: string, padding: string)
    requires forall i :: 0 <= i < |s| ==> s[i] <= '\U{00FF}'
    requires |offset| == 64 && AllHex(offset) && Value(offset) == Some(32)
    requires |length| == 64 && AllHex(length) && Value(length) == Some(|s|)
    ensures EightBit(s) && var text := Encode(Bytes(s));
      var message := "0x" + ("08c379a0" + offset + length + text + padding);
      EncodesError(message, s, offset, length, text, padding) && DecodeErrorMessage(Some(message)) == s
  {
    DecodeEncode(Bytes(s));
    var text := Encode(Bytes(s));
    ReasonDecodes("0x" + ("08c379a0" + offset + length + text + padding), s, offset, length, text, padding);
  }

  /******* Messages that are no encoded reason *******/

  lemma {:induction false} FoundIn(text: string, part: string) returns (before: string, after: string)
    requires Contains(text, part)
    ensures text == before + part + after
  {
    if part <= text {
      before, after := "", text[|part|..];
    } else {
      before, after := FoundIn(text[1..], part);
      before := [text[0]] + before;
    }
  }

  // A message without 0x stays as it is.
  lemma PlainStays(message: string)
    requires forall before, after :: message != before + "0x" + after
    ensures DecodeErrorMessage(Some(message)) == message
  {
    if Contains(message, EMPTY_HEX) {
      var before, after := FoundIn(message, EMPTY_HEX);
    }
  }

  // Call data that ends before a length, or has none where it should be, is decoded to nothing.
  lemma NoLengthIsEmpty(body: string)
    requires |body| <= 72 || HexValue(body[72]).None?
    ensures DecodeErrorMessage(Some("0x" + body)) == ""
  {
    StripsPrefix(body);
    assert Digits16(Slice(body, 72, 136)) == [];
  }

  // A pair that does not start with a hexadecimal digit becomes the null character.
  lemma NoDigitsIsNull(pair: string)
    requires |pair| <= 2 && (pair == "" || HexValue(pair[0]).None?)
    ensures CharOf(pair) == '\0'
  {
  }
}
