/** Ownership markers (manifest.rs ownership_uri, percent_encode; reconcile.rs owned_definition).
    A marker names one owner and one task path; it is kept in the registration Source. */
module Ownership {
  import opened Paths

  type Byte = b: int | 0 <= b < 256

  /** The textual form of an owner: thirty-six characters, none of them a line break. */
  type Uuid = text: string | |text| == 36 && '\n' !in text
    witness "00000000-0000-0000-0000-000000000000"

  // ---- bytes of a text (section 3 of RFC 3629) ------------------------------------

  function Utf8(c: char): seq<Byte> {
    var low := c as int;
    var mid := low / 0x40;
    var high := mid / 0x40;
    if low < 0x80 then [low]
    else if low < 0x800 then [0xC0 + mid, 0x80 + low % 0x40]
    else if low < 0x10000 then [0xE0 + high, 0x80 + mid % 0x40, 0x80 + low % 0x40]
    else [0xF0 + high / 0x40, 0x80 + high % 0x40, 0x80 + mid % 0x40, 0x80 + low % 0x40]
  }

  function Bytes(text: string): seq<Byte> {
    if text == "" then [] else Utf8(text[0]) + Bytes(text[1..])
  }

  /** How many bytes the character led by this byte occupies. */
  function Width(lead: Byte): nat {
    if lead < 0x80 then 1 else if lead < 0xE0 then 2 else if lead < 0xF0 then 3 else 4
  }

  /** The code a leading byte and its continuation bytes spell. */
  function Code(bytes: seq<int>): int
    requires 1 <= |bytes| <= 4
  {
    if |bytes| == 1 then bytes[0]
    else if |bytes| == 2 then (bytes[0] - 0xC0) * 0x40 + (bytes[1] - 0x80)
    else if |bytes| == 3 then ((bytes[0] - 0xE0) * 0x40 + (bytes[1] - 0x80)) * 0x40 + (bytes[2] - 0x80)
    else (((bytes[0] - 0xF0) * 0x40 + (bytes[1] - 0x80)) * 0x40 + (bytes[2] - 0x80)) * 0x40 + (bytes[3] - 0x80)
  }

  /** The bytes spell the character, and no more of them are used than it needs. */
  lemma Utf8Decodes(c: char)
    ensures var bytes := Utf8(c);
      && |bytes| == Width(bytes[0]) && Code(bytes) == c as int
      && (|bytes| > 1 ==> c >= ['\U{80}', '\U{800}', '\U{10000}'][|bytes| - 2])
      && forall i :: 1 <= i < |bytes| ==> 0x80 <= bytes[i] < 0xC0
  {
  }

  lemma {:induction false} BytesInjective(a: string, b: string)
    requires Bytes(a) == Bytes(b)
    ensures a == b
  {
    if a != "" && b != "" {
      var all := Bytes(a);
      Utf8Decodes(a[0]);
      Utf8Decodes(b[0]);
      assert all[0] == Utf8(a[0])[0] == Utf8(b[0])[0];
      assert Utf8(a[0]) == all[..Width(all[0])] == Utf8(b[0]);
      assert Bytes(a[1..]) == all[Width(all[0])..] == Bytes(b[1..]);
      BytesInjective(a[1..], b[1..]);
      assert a == [a[0]] + a[1..] && b == [b[0]] + b[1..];
    }
  }

  // ---- percent encoding (sections 2.1 and 2.3 of RFC 3986) --------------------------

  predicate Unreserved(b: Byte) {
    'A' as int <= b <= 'Z' as int || 'a' as int <= b <= 'z' as int || '0' as int <= b <= '9' as int
    || b == '-' as int || b == '_' as int || b == '.' as int || b == '~' as int
  }

  const HEX := "0123456789ABCDEF"

  function EncodedByte(b: Byte): string {
    if Unreserved(b) then [b as char] else ['%', HEX[b / 16], HEX[b % 16]]
  }

  function Encoded(bytes: seq<Byte>): string {
    if bytes == [] then "" else EncodedByte(bytes[0]) + Encoded(bytes[1..])
  }

  lemma {:induction false} EncodedAppend(bytes: seq<Byte>, b: Byte)
    ensures Encoded(bytes + [b]) == Encoded(bytes) + EncodedByte(b)
  {
    hide EncodedByte;
    if bytes == [] {
      assert bytes + [b] == [b];
      assert [b][1..] == [];
    } else {
      EncodedAppend(bytes[1..], b);
      assert (bytes + [b])[1..] == bytes[1..] + [b];
    }
  }

  /** The characters pushed for one byte. */
  method EncodeByte(byte: Byte) returns (piece: string)
    ensures piece == EncodedByte(byte)
  {
    if Unreserved(byte) {
      piece := [byte as char];
    } else {
      piece := ['%'];
      piece := piece + [HEX[byte / 16]];
      piece := piece + [HEX[byte % 16]];
    }
  }

  method PercentEncode(value: string) returns (encoded: string)
    ensures encoded == Encoded(Bytes(value))
  {
    hide EncodedByte, Bytes;
    encoded := "";
    var bytes := Bytes(value);
    for i := 0 to |bytes|
      invariant encoded == Encoded(bytes[..i])
    {
      var piece := EncodeByte(bytes[i]);
      encoded := encoded + piece;
      EncodedAppend(bytes[..i], bytes[i]);
      assert bytes[..i + 1] == bytes[..i] + [bytes[i]];
    }
    assert bytes[..|bytes|] == bytes;
  }

  predicate LetterOrDigit(c: char) { 'A' <= c <= 'Z' || 'a' <= c <= 'z' || '0' <= c <= '9' }

  /** The value of a hexadecimal digit; only upper-case letters are read. */
  function HexValue(c: char): int {
    if '0' <= c <= '9' then c as int - '0' as int
    else if 'A' <= c <= 'F' then c as int - 'A' as int + 10
    else -1
  }

  /** The bytes a percent-encoded text stands for; nothing if it is malformed. */
  function Decoded(text: string): seq<seq<int>> {
    if text == "" then [[]]
    else if text[0] != '%' then
      var rest := Decoded(text[1..]);
      if rest == [] then [] else [[text[0] as int] + rest[0]]
    else if |text| < 3 || HexValue(text[1]) < 0 || HexValue(text[2]) < 0 then []
    else
      var rest := Decoded(text[3..]);
      if rest == [] then [] else [[HexValue(text[1]) * 16 + HexValue(text[2])] + rest[0]]
  }

  lemma HexReads(digit: int)
    requires 0 <= digit < 16
    ensures HexValue(HEX[digit]) == digit
  {
  }

  lemma ByteDecodes(b: Byte, rest: string)
    ensures var decoded := Decoded(rest);
      Decoded(EncodedByte(b) + rest) == if decoded == [] then [] else [[b] + decoded[0]]
  {
    var text := EncodedByte(b) + rest;
    if Unreserved(b) {
      assert text[0] == b as char && text[1..] == rest;
    } else {
      HexReads(b / 16);
      HexReads(b % 16);
      assert text[0] == '%' && text[1] == HEX[b / 16] && text[2] == HEX[b % 16] && text[3..] == rest;
      assert b / 16 * 16 + b % 16 == b;
    }
  }

  /** Decoding undoes the encoding, and letters, digits and four signs are the bytes left as they are. */
  lemma {:induction false} EncodedIsDecoded(bytes: seq<Byte>)
    ensures Decoded(Encoded(bytes)) == [bytes]
    ensures forall b: Byte <- bytes ::
      EncodedByte(b) == [b as char] <==> LetterOrDigit(b as char) || b as char in "-_.~"
  {
    if bytes != [] {
      EncodedIsDecoded(bytes[1..]);
      ByteDecodes(bytes[0], Encoded(bytes[1..]));
      assert [bytes[0]] + bytes[1..] == bytes;
    }
    forall b: Byte | b in bytes
      ensures EncodedByte(b) == [b as char] <==> LetterOrDigit(b as char) || b as char in "-_.~"
    {
      LeftAsItIs(b);
    }
  }

  lemma LeftAsItIs(b: Byte)
    ensures EncodedByte(b) == [b as char] <==> LetterOrDigit(b as char) || b as char in "-_.~"
  {
  }

  lemma EncodedInjective(a: seq<Byte>, b: seq<Byte>)
    requires Encoded(a) == Encoded(b)
    ensures a == b
  {
    EncodedIsDecoded(a);
    EncodedIsDecoded(b);
  }

  lemma EncodedByteCharacters(b: Byte)
    ensures forall c <- EncodedByte(b) :: c == '%' || (c as int < 256 && Unreserved(c as int))
  {
    if !Unreserved(b) {
      assert b / 16 < 16 && b % 16 < 16;
      HexIsUnreserved(b / 16);
      HexIsUnreserved(b % 16);
    }
  }

  lemma HexIsUnreserved(digit: int)
    requires 0 <= digit < 16
    ensures HEX[digit] as int < 256 && Unreserved(HEX[digit] as int)
  {
  }

  /** Only unreserved characters, percent signs and hexadecimal digits are emitted. */
  lemma {:induction false} EncodedCharacters(bytes: seq<Byte>)
    ensures forall c <- Encoded(bytes) :: c == '%' || (c as int < 256 && Unreserved(c as int))
  {
    if bytes != [] {
      EncodedCharacters(bytes[1..]);
      EncodedByteCharacters(bytes[0]);
      hide EncodedByte, Unreserved;
    }
  }

  // ---- markers ---------------------------------------------------------------------

  const PREFIX := "urn:windows-task:owner:"
  const INFIX := ":task:"

  /** ownership_uri. */
  function Marker(owner: Uuid, path: TaskPath): string {
    PREFIX + owner + INFIX + Encoded(Bytes(TaskText(path)))
  }

  lemma MarkerHasNoNewline(owner: Uuid, path: TaskPath)
    ensures '\n' !in Marker(owner, path)
  {
    EncodedCharacters(Bytes(TaskText(path)));
  }

  /** The marker names the owner and, once decoded, the path. */
  lemma MarkerReads(owner: Uuid, path: TaskPath)
    ensures exists encoded ::
      && Marker(owner, path) == "urn:windows-task:owner:" + owner + ":task:" + encoded
      && Decoded(encoded) == [Bytes(TaskText(path))]
  {
    EncodedIsDecoded(Bytes(TaskText(path)));
  }

  /** Different owners or different paths have different markers. */
  lemma MarkerInjective(owner: Uuid, path: TaskPath, owner': Uuid, path': TaskPath)
    requires Marker(owner, path) == Marker(owner', path')
    ensures owner == owner' && path == path'
  {
    var all := Marker(owner, path);
    var at, cut := |PREFIX|, |PREFIX| + 36 + |INFIX|;
    assert owner == all[at..at + 36] == owner';
    assert Encoded(Bytes(TaskText(path))) == all[cut..] == Encoded(Bytes(TaskText(path')));
    EncodedInjective(Bytes(TaskText(path)), Bytes(TaskText(path')));
    BytesInjective(TaskText(path), TaskText(path'));
    TaskTextInjective(path, path');
  }

  /** The Source half of the ownership test of inspect_backend. */
  predicate CarriesMarker(source: string, marker: string) {
    source == marker
    || (marker <= source && |source| > |marker| && source[|marker|] == '\n')
  }

  /** The Source that owned_definition registers. */
  function MarkedSource(source: string, marker: string): string {
    if source == marker || marker + "\n" <= source then source else marker + "\n" + source
  }

  /** What the application wrote before the marker was put in front. */
  function OriginalSource(source: string, marker: string): string {
    if marker + "\n" <= source then source[|marker| + 1..] else source
  }

  /** A marked source is recognised, marking it again changes nothing, and the application's own
      text is still there in full; text that already carried the marker is left as it was. */
  lemma MarkingIsIdempotent(source: string, marker: string)
    ensures var marked := MarkedSource(source, marker);
      && CarriesMarker(marked, marker)
      && MarkedSource(marked, marker) == marked
      && OriginalSource(marked, marker) == OriginalSource(source, marker)
      && (CarriesMarker(source, marker) <==> marked == source)
  {
    var marked := MarkedSource(source, marker);
    if marked != source {
      assert marked == (marker + "\n") + source;
      assert marked[|marker| + 1..] == source;
    }
    if marker + "\n" <= source {
      assert source == (marker + "\n") + source[|marker| + 1..];
    }
    if CarriesMarker(source, marker) && source != marker {
      assert source[..|marker| + 1] == marker + "\n";
    }
  }

  /** A source that carries the marker of one task is never taken for the marker of another:
      whatever text follows the first line, exactly one (owner, path) recognises it. */
  lemma MarkerIsExclusive(owner: Uuid, path: TaskPath, owner': Uuid, path': TaskPath, source: string)
    requires CarriesMarker(source, Marker(owner, path))
    ensures CarriesMarker(source, Marker(owner', path')) <==> (owner == owner' && path == path')
  {
    var m, m' := Marker(owner, path), Marker(owner', path');
    MarkerHasNoNewline(owner, path);
    MarkerHasNoNewline(owner', path');
    if CarriesMarker(source, m') {
      assert forall i :: 0 <= i < |m| ==> m[i] == source[i] && m[i] in m;
      assert forall i :: 0 <= i < |m'| ==> m'[i] == source[i] && m'[i] in m';
      assert m == source[..|m|] == m';
      MarkerInjective(owner, path, owner', path');
    }
  }
}
