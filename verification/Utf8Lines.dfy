/** Why lines may be cut out of UTF-8 text at the byte level (section 3 of RFC 3629). */
module Utf8Lines {
  import opened Splitting
  import opened LogFile

  type CodePoint = c: nat | c < 0x11_0000

  function EncodePoint(c: CodePoint): (bytes: seq<Byte>)
    ensures c != 10 ==> NEWLINE !in bytes
  {
    if c < 0x80 then
      [c as Byte]
    else if c < 0x800 then
      [(0xC0 + c / 0x40) as Byte, (0x80 + c % 0x40) as Byte]
    else if c < 0x1_0000 then
      [(0xE0 + c / 0x1000) as Byte, (0x80 + c / 0x40 % 0x40) as Byte, (0x80 + c % 0x40) as Byte]
    else
      [(0xF0 + c / 0x4_0000) as Byte, (0x80 + c / 0x1000 % 0x40) as Byte, (0x80 + c / 0x40 % 0x40) as Byte,
       (0x80 + c % 0x40) as Byte]
  }

  function Encode(text: seq<CodePoint>): seq<Byte> {
    if text == [] then [] else EncodePoint(text[0]) + Encode(text[1..])
  }

  function EncodeEach(lines: seq<seq<CodePoint>>): (r: seq<seq<Byte>>)
    ensures |r| == |lines|
  {
    if lines == [] then [] else [Encode(lines[0])] + EncodeEach(lines[1..])
  }

  /**
   The byte lines of an encoded text are the encodings of its text lines: no line
   the reader decodes starts or ends inside a multi-byte sequence, however the
   blocks it was read in were cut.
   */
  lemma {:induction false} ByteLinesAreTextLines(text: seq<CodePoint>)
    ensures Split(Encode(text), NEWLINE) == EncodeEach(Split(text, 10))
  {
    if text != [] {
      var rest := Split(text[1..], 10);
      ByteLinesAreTextLines(text[1..]);
      assert text == [text[0]] + text[1..];
      SplitOfCons(text[0], text[1..], 10);
      if text[0] == 10 {
        SplitOfCons(NEWLINE, Encode(text[1..]), NEWLINE);
        assert ([[]] + rest)[1..] == rest;
      } else {
        var point, byteRest := EncodePoint(text[0]), EncodeEach(rest);
        SplitAbsorbs(point, Encode(text[1..]), NEWLINE, byteRest[0], byteRest[1..]);
        assert NEWLINE !in byteRest[0] by {
          JoinOfSplit(Encode(text[1..]), NEWLINE);
        }
        SplitOfFree(point + byteRest[0], NEWLINE);
        var first := [text[0]] + rest[0];
        assert first[1..] == rest[0];
        assert ([first] + rest[1..])[1..] == rest[1..];
      }
    }
  }
}
