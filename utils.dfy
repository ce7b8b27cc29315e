/**
 * `Utils.BytesToString` of jox/Utils.cs: every byte becomes the character
 * with the same code, so the source text is read as Latin-1.
 */
module Utils {

  newtype byte = b: int | 0 <= b < 256

  /** The character with the byte's code. */
  function ByteChar(b: byte): (c: char)
    ensures c as int == b as int
  {
    (b as int) as char
  }

  /** The text of a byte sequence, one character per byte. */
  function Latin1(bs: seq<byte>): (s: string)
    ensures |s| == |bs|
    ensures forall i :: 0 <= i < |bs| ==> s[i] as int == bs[i] as int
    decreases |bs|
  {
    if |bs| == 0 then "" else Latin1(bs[..|bs| - 1]) + [ByteChar(bs[|bs| - 1])]
  }

  /** Every character code of `s` is below 256. */
  predicate Narrow(s: string) {
    forall i :: 0 <= i < |s| ==> (s[i] as int) < 256
  }

  /** A narrow string back to its bytes. */
  function StringToBytes(s: string): (bs: seq<byte>)
    requires Narrow(s)
    ensures |bs| == |s|
    ensures forall i :: 0 <= i < |s| ==> bs[i] as int == s[i] as int
    decreases |s|
  {
    if |s| == 0 then [] else StringToBytes(s[..|s| - 1]) + [(s[|s| - 1] as int) as byte]
  }

  /** Reading bytes as text loses nothing: the bytes come back. */
  lemma Latin1RoundTrip(bs: seq<byte>)
    ensures Narrow(Latin1(bs))
    ensures StringToBytes(Latin1(bs)) == bs
  {
  }

  /** Every narrow string is the text of some bytes, namely its own. */
  lemma NarrowRoundTrip(s: string)
    requires Narrow(s)
    ensures Latin1(StringToBytes(s)) == s
  {
  }

  /**
   * The loop of `BytesToString`: one character per byte, in order, so the
   * result is as long as the array, each character has its byte's code, and
   * every code is below 256.
   */
  method BytesToString(bytes: array<byte>) returns (result: string)
    ensures result == Latin1(bytes[..])
    ensures |result| == bytes.Length && Narrow(result)
  {
    result := "";
    for i := 0 to bytes.Length
      invariant result == Latin1(bytes[..i])
    {
      assert bytes[..i + 1][..i] == bytes[..i];
      result := result + [ByteChar(bytes[i])];
    }
    assert bytes[..bytes.Length] == bytes[..];
  }
}
