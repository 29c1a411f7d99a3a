/** Bytes and numbers as hexadecimal text. */
module HexText {
  import opened Wrappers
  import opened JsonParser
  import opened JsonReading

  type byte = n: nat | n < 256

  // `Buffer.from(bytes).toString('hex')`
  function Encode(bytes: seq<byte>): (r: string)
    ensures |r| == 2 * |bytes|
  {
    if bytes == [] then []
    else [HexDigit(bytes[0] / 16), HexDigit(bytes[0] % 16)] + Encode(bytes[1..])
  }

  // The value of a text of hexadecimal digits, most significant first.
  function Value(text: string): Option<nat> {
    if text == [] then Some(0)
    else
      var most, last := Value(text[..|text| - 1]), HexValue(text[|text| - 1]);
      if most.None? || last.None? then None else Some(most.value * 16 + last.value)
  }

  predicate AllHex(text: string) {
    forall i :: 0 <= i < |text| ==> HexValue(text[i]).Some?
  }

  // The longest start of a text that is made of hexadecimal digits.
  function Digits16(text: string): (r: string)
    ensures r <= text && AllHex(r)
    ensures AllHex(text) ==> r == text
  {
    if text == [] || HexValue(text[0]).None? then []
    else
      assert AllHex(text) ==> AllHex(text[1..]);
      [text[0]] + Digits16(text[1..])
  }

  // `parseInt(text, 16)`; None is NaN.
  function ParseInt16(text: string): Option<nat> {
    if Digits16(text) == [] then None else Value(Digits16(text))
  }

  // What a text of byte values in hexadecimal stands for.
  function Decode(text: string): Option<seq<byte>> {
    if text == [] then Some([])
    else if |text| == 1 || HexValue(text[0]).None? || HexValue(text[1]).None? then None
    else
      var more := Decode(text[2..]);
      if more.None? then None
      else Some([HexValue(text[0]).value * 16 + HexValue(text[1]).value] + more.value)
  }

  lemma {:induction false} DecodeEncode(bytes: seq<byte>)
    ensures Decode(Encode(bytes)) == Some(bytes)
  {
    if bytes != [] {
      DecodeEncode(bytes[1..]);
      assert Encode(bytes)[2..] == Encode(bytes[1..]);
      assert [bytes[0]] + bytes[1..] == bytes;
    }
  }
}
