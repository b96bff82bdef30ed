// Opaque change cursors: a sequence number printed in decimal and wrapped in
// unpadded base64url (section 5 of RFC 4648).
module Cursor {
  import opened Base

  type Byte = b: int | 0 <= b < 256

  const MAX_SAFE_INTEGER := 9007199254740991

  datatype CursorError = UnsafeSequence | InvalidCursor

  // ----- the base64 alphabet -----

  type Sextet = v: int | 0 <= v < 64

  function EncodeChar(v: Sextet): char {
    if v < 26 then 'A' + v as char
    else if v < 52 then 'a' + (v - 26) as char
    else if v < 62 then '0' + (v - 52) as char
    else if v == 62 then '+'
    else '/'
  }

  function DecodeChar(c: char): Option<Sextet> {
    if 'A' <= c <= 'Z' then Some(c as int - 'A' as int)
    else if 'a' <= c <= 'z' then Some(c as int - 'a' as int + 26)
    else if '0' <= c <= '9' then Some(c as int - '0' as int + 52)
    else if c == '+' then Some(62)
    else if c == '/' then Some(63)
    else None
  }

  // ----- btoa and atob -----

  // The bytes cut into groups of six bits, the last one filled with zeros.
  function Sextets(bytes: seq<Byte>): seq<Sextet> {
    if bytes == [] then []
    else if |bytes| == 1 then [bytes[0] / 4, bytes[0] % 4 * 16]
    else if |bytes| == 2 then [bytes[0] / 4, bytes[0] % 4 * 16 + bytes[1] / 16, bytes[1] % 16 * 4]
    else
      [bytes[0] / 4, bytes[0] % 4 * 16 + bytes[1] / 16, bytes[1] % 16 * 4 + bytes[2] / 64, bytes[2] % 64] + Sextets(bytes[3..])
  }

  // The base64 characters of some bytes, without padding.
  function Symbols(bytes: seq<Byte>): string {
    var sextets := Sextets(bytes);
    seq(|sextets|, i requires 0 <= i < |sextets| => EncodeChar(sextets[i]))
  }

  // The number of padding signs that completes a length to a multiple of four.
  function Padding(length: nat): nat { (4 - length % 4) % 4 }

  function PadEnd(text: string): string { text + seq(Padding(|text|), _ => '=') }

  function Btoa(bytes: seq<Byte>): string { PadEnd(Symbols(bytes)) }

  function FirstByte(a: Sextet, b: Sextet): Byte { a as int * 4 + b as int / 16 }

  function SecondByte(b: Sextet, c: Sextet): Byte { b as int % 16 * 16 + c as int / 4 }

  function ThirdByte(c: Sextet, d: Sextet): Byte { c as int % 4 * 64 + d as int }

  // The bytes spelled by groups of six bits; a lone last group fails, and the unused low
  // bits of the last group are dropped.
  function Assemble(v: seq<Sextet>): Option<seq<Byte>> {
    if v == [] then Some([])
    else if |v| == 1 then None
    else if |v| == 2 then Some([FirstByte(v[0], v[1])])
    else if |v| == 3 then Some([FirstByte(v[0], v[1]), SecondByte(v[1], v[2])])
    else match Assemble(v[4..])
      case None => None
      case Some(rest) => Some([FirstByte(v[0], v[1]), SecondByte(v[1], v[2]), ThirdByte(v[2], v[3])] + rest)
  }

  // Base64 characters decoded; a character outside the alphabet fails.
  function DecodeSymbols(text: string): Option<seq<Byte>> {
    if forall i :: 0 <= i < |text| ==> DecodeChar(text[i]).Some? then
      Assemble(seq(|text|, i requires 0 <= i < |text| && DecodeChar(text[i]).Some? => DecodeChar(text[i]).value))
    else None
  }

  predicate IsSpace(c: char) { c == ' ' || c == '\t' || c == '\n' || c == '\r' || c as int == 12 }

  function WithoutSpaces(text: string): string {
    if text == [] then []
    else if IsSpace(text[0]) then WithoutSpaces(text[1..])
    else [text[0]] + WithoutSpaces(text[1..])
  }

  // One or two padding signs are dropped, only from a text whose length is a multiple of four.
  function WithoutPadding(text: string): string {
    var n := |text|;
    if n % 4 != 0 || n == 0 || text[n - 1] != '=' then text
    else if text[n - 2] == '=' then text[..n - 2]
    else text[..n - 1]
  }

  function Atob(text: string): Option<seq<Byte>> {
    DecodeSymbols(WithoutPadding(WithoutSpaces(text)))
  }

  // ----- the URL-safe form -----

  function ReplaceAll(text: string, from: char, to: char): string {
    seq(|text|, i requires 0 <= i < |text| => if text[i] == from then to else text[i])
  }

  function WithoutTrailingEquals(text: string): string {
    if text != [] && text[|text| - 1] == '=' then WithoutTrailingEquals(text[..|text| - 1]) else text
  }

  function Base64Url(bytes: seq<Byte>): string {
    WithoutTrailingEquals(ReplaceAll(ReplaceAll(Btoa(bytes), '+', '-'), '/', '_'))
  }

  // Its text decodes to the bytes, and needs no escaping in a URL.
  method BytesToBase64Url(bytes: seq<Byte>) returns (text: string)
    ensures text == Base64Url(bytes)
    ensures Base64UrlToBytes(text) == Some(bytes)
    ensures forall i :: 0 <= i < |text| ==> text[i] != '+' && text[i] != '/' && text[i] != '='
    ensures |text| == (4 * |bytes| + 2) / 3
  {
    var binary: string := "";
    for i := 0 to |bytes|
      invariant |binary| == i && forall j :: 0 <= j < i ==> binary[j] as int == bytes[j]
    {
      binary := binary + [bytes[i] as char];
    }
    var codes: seq<Byte> := seq(|binary|, i requires 0 <= i < |bytes| && |binary| == |bytes| && binary[i] as int == bytes[i] => binary[i] as int);
    assert codes == bytes;
    text := WithoutTrailingEquals(ReplaceAll(ReplaceAll(Btoa(codes), '+', '-'), '/', '_'));
    Base64UrlRoundTrip(bytes);
    Base64UrlIsUnpadded(bytes);
    SymbolsRoundTrip(bytes);
    SextetCount(bytes);
  }

  function Base64UrlToBytes(text: string): Option<seq<Byte>> {
    Atob(PadEnd(ReplaceAll(ReplaceAll(text, '-', '+'), '_', '/')))
  }

  // ----- decimal numbers -----

  function Decimal(n: nat): string {
    if n < 10 then ['0' + n as char] else Decimal(n / 10) + ['0' + (n % 10) as char]
  }

  predicate IsDigit(c: char) { '0' <= c <= '9' }

  // The value of the leading digits, continuing from the digits already read.
  function LeadingDigits(text: string, read: nat): nat {
    if text == [] || !IsDigit(text[0]) then read
    else LeadingDigits(text[1..], read * 10 + (text[0] as int - '0' as int))
  }

  predicate IsParseSpace(c: char) { IsSpace(c) || c as int == 11 }

  // parseInt(text, 10); None is NaN.
  function ParseInt(text: string): Option<int> {
    if text == [] then None
    else if IsParseSpace(text[0]) then ParseInt(text[1..])
    else
      var signed := text[0] == '-' || text[0] == '+';
      var digits := if signed then text[1..] else text;
      if digits == [] || !IsDigit(digits[0]) then None
      else
        var magnitude: int := LeadingDigits(digits, 0);
        Some(if text[0] == '-' then -magnitude else magnitude)
  }

  // UTF-8 of ASCII text, and back; a byte outside ASCII becomes a character parseInt rejects.
  function TextEncode(text: string): (bytes: seq<Byte>)
    requires forall i :: 0 <= i < |text| ==> text[i] as int < 128
  {
    seq(|text|, i requires 0 <= i < |text| => text[i] as int)
  }

  function TextDecode(bytes: seq<Byte>): string {
    seq(|bytes|, i requires 0 <= i < |bytes| => if bytes[i] < 128 then bytes[i] as char else '?')
  }

  // ----- the cursor -----

  function EncodeCursor(sequence: int): Result<string, CursorError> {
    if 0 <= sequence <= MAX_SAFE_INTEGER then
      DecimalIsDigits(sequence);
      Success(Base64Url(TextEncode(Decimal(sequence))))
    else Failure(UnsafeSequence)
  }

  function DecodeCursor(cursor: Option<string>): Result<nat, CursorError> {
    if cursor.None? || cursor.value == "" then Success(0) else
      match Base64UrlToBytes(cursor.value)
      case None => Failure(InvalidCursor)
      case Some(bytes) =>
        match ParseInt(TextDecode(bytes))
        case None => Failure(InvalidCursor)
        case Some(value) => if 0 <= value <= MAX_SAFE_INTEGER then Success(value) else Failure(InvalidCursor)
  }

  // ----- round trips -----

  lemma CharRoundTrip(v: Sextet)
    ensures DecodeChar(EncodeChar(v)) == Some(v)
    ensures var c := EncodeChar(v); !IsSpace(c) && c != '=' && c != '-' && c != '_'
  {
  }

  ghost predicate Plain(text: string) {
    forall i :: 0 <= i < |text| ==> !IsSpace(text[i]) && text[i] != '=' && text[i] != '-' && text[i] != '_'
  }

  // Three bytes are put together again from their four groups of six bits.
  lemma BytesFromSextets(x: Byte, y: Byte, z: Byte)
    ensures FirstByte(x / 4, x % 4 * 16 + y / 16) == x
    ensures SecondByte(x % 4 * 16 + y / 16, y % 16 * 4 + z / 64) == y
    ensures ThirdByte(y % 16 * 4 + z / 64, z % 64) == z
  {
  }

  lemma AssembleThree(x: Byte, y: Byte, z: Byte, rest: seq<Byte>)
    requires Assemble(Sextets(rest)) == Some(rest)
    ensures Assemble(Sextets([x, y, z] + rest)) == Some([x, y, z] + rest)
    ensures |Sextets([x, y, z] + rest)| == 4 + |Sextets(rest)|
  {
    var group: seq<Sextet> := [x / 4, x % 4 * 16 + y / 16, y % 16 * 4 + z / 64, z % 64];
    assert ([x, y, z] + rest)[3..] == rest;
    assert Sextets([x, y, z] + rest) == group + Sextets(rest);
    assert (group + Sextets(rest))[4..] == Sextets(rest);
    BytesFromSextets(x, y, z);
  }

  lemma AssembleLast(bytes: seq<Byte>)
    requires |bytes| < 3
    ensures Assemble(Sextets(bytes)) == Some(bytes) && |Sextets(bytes)| % 4 != 1
  {
    if |bytes| == 2 {
      BytesFromSextets(bytes[0], bytes[1], 0);
      assert bytes == [bytes[0], bytes[1]];
    } else if |bytes| == 1 {
      BytesFromSextets(bytes[0], 0, 0);
      assert bytes == [bytes[0]];
    }
  }

  lemma {:induction false} AssembleInvertsSextets(bytes: seq<Byte>)
    ensures Assemble(Sextets(bytes)) == Some(bytes)
    ensures |Sextets(bytes)| % 4 != 1
  {
    if |bytes| >= 3 {
      AssembleInvertsSextets(bytes[3..]);
      AssembleThree(bytes[0], bytes[1], bytes[2], bytes[3..]);
      assert bytes == [bytes[0], bytes[1], bytes[2]] + bytes[3..];
    } else {
      AssembleLast(bytes);
    }
  }

  // Decoding the characters of any bytes gives the bytes back.
  lemma SymbolsRoundTrip(bytes: seq<Byte>)
    ensures DecodeSymbols(Symbols(bytes)) == Some(bytes)
    ensures Plain(Symbols(bytes)) && |Symbols(bytes)| % 4 != 1
  {
    var v, text := Sextets(bytes), Symbols(bytes);
    forall i | 0 <= i < |text|
      ensures DecodeChar(text[i]) == Some(v[i]) && !IsSpace(text[i]) && text[i] != '=' && text[i] != '-' && text[i] != '_'
    {
      CharRoundTrip(v[i]);
    }
    assert seq(|text|, i requires 0 <= i < |text| && DecodeChar(text[i]).Some? => DecodeChar(text[i]).value) == v;
    AssembleInvertsSextets(bytes);
  }

  lemma {:induction false} PlainHasNoSpaces(text: string)
    requires forall i :: 0 <= i < |text| ==> !IsSpace(text[i])
    ensures WithoutSpaces(text) == text
  {
    if text != [] {
      PlainHasNoSpaces(text[1..]);
    }
  }

  lemma PaddingIsDropped(text: string)
    requires Plain(text) && |text| % 4 != 1
    ensures WithoutPadding(WithoutSpaces(PadEnd(text))) == text
  {
    PlainHasNoSpaces(PadEnd(text));
    PaddedText(text);
  }

  // The padding completes a multiple of four, and what comes before it is the text.
  lemma PaddedText(text: string)
    requires Plain(text) && |text| % 4 != 1
    ensures var padded := PadEnd(text);
      |padded| % 4 == 0 && 0 <= |padded| - |text| <= 2 && padded[..|text|] == text
      && (forall i :: |text| <= i < |padded| ==> padded[i] == '=')
      && (forall i :: 0 <= i < |text| ==> padded[i] != '=')
  {
  }

  // atob inverts btoa on all byte sequences.
  lemma AtobInvertsBtoa(bytes: seq<Byte>)
    ensures Atob(Btoa(bytes)) == Some(bytes)
  {
    SymbolsRoundTrip(bytes);
    PaddingIsDropped(Symbols(bytes));
  }

  function UrlSafe(text: string): string { ReplaceAll(ReplaceAll(text, '+', '-'), '/', '_') }

  lemma {:induction false} SextetCount(bytes: seq<Byte>)
    ensures |Sextets(bytes)| == (4 * |bytes| + 2) / 3
  {
    if |bytes| >= 3 {
      SextetCount(bytes[3..]);
    }
  }

  lemma {:induction false} StripPadding(text: string, n: nat)
    requires text != [] ==> text[|text| - 1] != '='
    ensures WithoutTrailingEquals(text + seq(n, _ => '=')) == text
  {
    var padded := text + seq(n, _ => '=');
    if n == 0 {
      assert padded == text;
    } else {
      assert padded[..|padded| - 1] == text + seq(n - 1, _ => '=');
      StripPadding(text, n - 1);
    }
  }

  // The URL-safe form is the unpadded characters with two of them replaced.
  lemma Base64UrlIsUnpadded(bytes: seq<Byte>)
    ensures Base64Url(bytes) == UrlSafe(Symbols(bytes))
  {
    SymbolsRoundTrip(bytes);
    var symbols := Symbols(bytes);
    assert UrlSafe(Btoa(bytes)) == UrlSafe(symbols) + seq(Padding(|symbols|), _ => '=');
    StripPadding(UrlSafe(symbols), Padding(|symbols|));
  }

  // Unpadded base64url decodes to the bytes it encodes, for all byte sequences.
  lemma Base64UrlRoundTrip(bytes: seq<Byte>)
    ensures Base64UrlToBytes(Base64Url(bytes)) == Some(bytes)
  {
    Base64UrlIsUnpadded(bytes);
    SymbolsRoundTrip(bytes);
    assert ReplaceAll(ReplaceAll(UrlSafe(Symbols(bytes)), '-', '+'), '_', '/') == Symbols(bytes);
    AtobInvertsBtoa(bytes);
  }

  lemma {:induction false} DecimalIsDigits(n: nat)
    ensures Decimal(n) != [] && forall i :: 0 <= i < |Decimal(n)| ==> IsDigit(Decimal(n)[i])
  {
    if n >= 10 {
      DecimalIsDigits(n / 10);
    }
  }

  lemma {:induction false} DigitsAppend(text: string, last: char, read: nat)
    requires forall i :: 0 <= i < |text| ==> IsDigit(text[i])
    requires IsDigit(last)
    ensures LeadingDigits(text + [last], read) == LeadingDigits(text, read) * 10 + (last as int - '0' as int)
  {
    if text == [] {
      assert (text + [last])[1..] == [];
    } else {
      assert (text + [last])[1..] == text[1..] + [last];
      DigitsAppend(text[1..], last, read * 10 + (text[0] as int - '0' as int));
    }
  }

  lemma {:induction false} DecimalRoundTrip(n: nat)
    ensures LeadingDigits(Decimal(n), 0) == n
  {
    if n >= 10 {
      DecimalIsDigits(n / 10);
      DecimalRoundTrip(n / 10);
      DigitsAppend(Decimal(n / 10), '0' + (n % 10) as char, 0);
    }
  }

  lemma NonEmptyBase64Url(bytes: seq<Byte>)
    requires bytes != []
    ensures Base64Url(bytes) != ""
  {
    Base64UrlIsUnpadded(bytes);
    assert |Sextets(bytes)| > 0;
  }

  // Every issued cursor decodes to the sequence it was issued for.
  lemma CursorRoundTrip(sequence: int)
    requires 0 <= sequence <= MAX_SAFE_INTEGER
    ensures EncodeCursor(sequence).Success?
    ensures DecodeCursor(Some(EncodeCursor(sequence).value)) == Success(sequence)
  {
    DecimalIsDigits(sequence);
    var text := Decimal(sequence);
    var bytes := TextEncode(text);
    Base64UrlRoundTrip(bytes);
    NonEmptyBase64Url(bytes);
    assert TextDecode(bytes) == text;
    DecimalRoundTrip(sequence);
  }
}
