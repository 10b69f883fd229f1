/** Percent-encoding of a string of Unicode scalar values: UTF-8, then sections 2.1 and 2.3
    of RFC 3986 as ECMAScript's encodeURIComponent and decodeURIComponent apply them. */
module UriComponent {
  import opened Options

  type Byte = b: int | 0 <= b < 256

  predicate Unreserved(c: char) {
    || 'a' <= c <= 'z' || 'A' <= c <= 'Z' || '0' <= c <= '9'
    || c == '-' || c == '_' || c == '.' || c == '!' || c == '~' || c == '*' || '\'' <= c <= ')'
  }

  predicate IsScalar(n: int) {
    0 <= n < 0xD800 || 0xE000 <= n < 0x11_0000
  }

  // ----- UTF-8 -----

  function Utf8(n: int): (bytes: seq<Byte>)
    requires IsScalar(n)
    ensures 1 <= |bytes| <= 4
  {
    if n < 0x80 then [n]
    else if n < 0x800 then [0xC0 + n / 64, 0x80 + n % 64]
    else if n < 0x1_0000 then [0xE0 + n / 64 / 64, 0x80 + n / 64 % 64, 0x80 + n % 64]
    else [0xF0 + n / 64 / 64 / 64, 0x80 + n / 64 / 64 % 64, 0x80 + n / 64 % 64, 0x80 + n % 64]
  }

  /** How many bytes a sequence that starts like this has; none does after 0xF7, nor with a
      continuation byte. */
  function Width(first: Byte): Option<nat> {
    if first < 0x80 then Some(1)
    else if 0xC0 <= first < 0xE0 then Some(2)
    else if 0xE0 <= first < 0xF0 then Some(3)
    else if 0xF0 <= first < 0xF8 then Some(4)
    else None
  }

  predicate IsContinuation(b: Byte) {
    0x80 <= b < 0xC0
  }

  function Payload(bytes: seq<Byte>): int
    requires 1 <= |bytes| <= 4
  {
    match |bytes|
    case 1 => bytes[0]
    case 2 => (bytes[0] as int - 0xC0) * 64 + (bytes[1] as int - 0x80)
    case 3 => ((bytes[0] as int - 0xE0) * 64 + (bytes[1] as int - 0x80)) * 64 + (bytes[2] as int - 0x80)
    case _ => (((bytes[0] as int - 0xF0) * 64 + (bytes[1] as int - 0x80)) * 64 + (bytes[2] as int - 0x80)) * 64
              + (bytes[3] as int - 0x80)
  }

  predicate WellShaped(bytes: seq<Byte>) {
    bytes != [] && Width(bytes[0]) == Some(|bytes|) && forall i :: 1 <= i < |bytes| ==> IsContinuation(bytes[i])
  }

  /** One whole sequence: overlong forms, surrogates and what lies beyond Unicode are errors. */
  function FromUtf8(bytes: seq<Byte>): (n: Option<int>)
    ensures n.Some? ==> IsScalar(n.value)
  {
    if !WellShaped(bytes) then None
    else
      var n := Payload(bytes);
      if IsScalar(n) && |Utf8(n)| == |bytes| then Some(n) else None
  }

  lemma Utf8RoundTrip(n: int)
    requires IsScalar(n)
    ensures WellShaped(Utf8(n)) && FromUtf8(Utf8(n)) == Some(n)
  {
    assert n == n / 64 * 64 + n % 64;
    assert n / 64 == n / 64 / 64 * 64 + n / 64 % 64;
    assert n / 64 / 64 == n / 64 / 64 / 64 * 64 + n / 64 / 64 % 64;
  }

  // ----- escapes -----

  function HexDigit(d: int): char
    requires 0 <= d < 16
  {
    if d < 10 then '0' + d as char else 'A' + (d - 10) as char
  }

  function HexValue(c: char): Option<int> {
    if '0' <= c <= '9' then Some(c as int - '0' as int)
    else if 'A' <= c <= 'F' then Some(c as int - 'A' as int + 10)
    else if 'a' <= c <= 'f' then Some(c as int - 'a' as int + 10)
    else None
  }

  function Escape(b: Byte): (s: string)
    ensures |s| == 3 && s[0] == '%'
  {
    ['%', HexDigit(b / 16), HexDigit(b % 16)]
  }

  /** The byte escaped at the start of a string, if one is. */
  function Escaped(s: string): (b: Option<Byte>)
    ensures b.Some? ==> 3 <= |s|
  {
    if 3 <= |s| && s[0] == '%' && HexValue(s[1]).Some? && HexValue(s[2]).Some? then
      Some(HexValue(s[1]).value * 16 + HexValue(s[2]).value)
    else None
  }

  lemma EscapeRoundTrip(b: Byte, after: string)
    ensures Escaped(Escape(b) + after) == Some(b)
  {
  }

  function EscapeAll(bytes: seq<Byte>): (s: string)
    ensures |s| == 3 * |bytes|
  {
    if bytes == [] then "" else Escape(bytes[0]) + EscapeAll(bytes[1..])
  }

  /** As many bytes as asked for, each escaped. */
  function EscapedRun(s: string, n: nat): (bytes: Option<seq<Byte>>)
    ensures bytes.Some? ==> |bytes.value| == n && 3 * n <= |s|
  {
    if n == 0 then Some([])
    else
      var first := Escaped(s);
      if first.None? then None
      else
        var rest := EscapedRun(s[3..], n - 1);
        if rest.None? then None else Some([first.value] + rest.value)
  }

  lemma {:induction false} RunRoundTrip(bytes: seq<Byte>, after: string)
    ensures EscapedRun(EscapeAll(bytes) + after, |bytes|) == Some(bytes)
  {
    if bytes == [] {
    } else {
      var tail := EscapeAll(bytes[1..]) + after;
      var s := Escape(bytes[0]) + tail;
      assert EscapeAll(bytes) + after == s && s[3..] == tail;
      EscapeRoundTrip(bytes[0], tail);
      RunRoundTrip(bytes[1..], after);
      assert [bytes[0]] + bytes[1..] == bytes;
    }
  }

  lemma FirstRoundTrip(bytes: seq<Byte>, after: string)
    requires bytes != []
    ensures Escaped(EscapeAll(bytes) + after) == Some(bytes[0])
  {
    var tail := EscapeAll(bytes[1..]) + after;
    assert EscapeAll(bytes) + after == Escape(bytes[0]) + tail;
    EscapeRoundTrip(bytes[0], tail);
  }

  // ----- the two functions -----

  function EncodeChar(c: char): (s: string)
    ensures s != ""
  {
    if Unreserved(c) then [c] else EscapeAll(Utf8(c as int))
  }

  function Encode(s: string): string {
    if s == "" then "" else EncodeChar(s[0]) + Encode(s[1..])
  }

  /** The character a string begins with, and how much of the string it takes up. */
  function DecodeChar(s: string): (r: Option<(char, nat)>)
    requires s != ""
    ensures r.Some? ==> 0 < r.value.1 <= |s|
  {
    if s[0] != '%' then Some((s[0], 1))
    else
      var first := Escaped(s);
      if first.None? || Width(first.value).None? then None
      else
        var bytes := EscapedRun(s, Width(first.value).value);
        if bytes.None? || FromUtf8(bytes.value).None? then None
        else Some((FromUtf8(bytes.value).value as char, 3 * |bytes.value|))
  }

  /** None is the URIError of a malformed escape. */
  function Decode(s: string): Option<string>
    decreases |s|
  {
    if s == "" then Some("")
    else
      var first := DecodeChar(s);
      if first.None? then None
      else
        var rest := Decode(s[first.value.1..]);
        if rest.None? then None else Some([first.value.0] + rest.value)
  }

  lemma Decodes(s: string, bytes: seq<Byte>, n: int)
    requires s != "" && s[0] == '%' && bytes != []
    requires Escaped(s) == Some(bytes[0]) && EscapedRun(s, |bytes|) == Some(bytes)
    requires Width(bytes[0]) == Some(|bytes|) && FromUtf8(bytes) == Some(n)
    ensures DecodeChar(s) == Some((n as char, 3 * |bytes|))
  {
  }

  lemma EscapedRoundTrip(c: char, after: string)
    ensures var escaped := EscapeAll(Utf8(c as int));
            DecodeChar(escaped + after) == Some((c, |escaped|))
  {
    var bytes := Utf8(c as int);
    Utf8RoundTrip(c as int);
    RunRoundTrip(bytes, after);
    FirstRoundTrip(bytes, after);
    Decodes(EscapeAll(bytes) + after, bytes, c as int);
  }

  lemma CharRoundTrip(c: char, after: string)
    ensures DecodeChar(EncodeChar(c) + after) == Some((c, |EncodeChar(c)|))
  {
    if !Unreserved(c) { EscapedRoundTrip(c, after); }
  }

  lemma {:induction false} RoundTrip(s: string)
    ensures Decode(Encode(s)) == Some(s)
  {
    if s == "" {
    } else {
      CharRoundTrip(s[0], Encode(s[1..]));
      assert Encode(s)[|EncodeChar(s[0])|..] == Encode(s[1..]);
      RoundTrip(s[1..]);
      assert [s[0]] + s[1..] == s;
    }
  }

  /** Of ASCII, letters, digits and nine marks stay; any other character becomes its two digits. */
  lemma AsciiIs(c: char)
    requires (c as int) < 128
    ensures Encode([c]) ==
            if 'a' <= c <= 'z' || 'A' <= c <= 'Z' || '0' <= c <= '9' || c in "-_.!~*'()" then [c]
            else ['%', "0123456789ABCDEF"[c as int / 16], "0123456789ABCDEF"[c as int % 16]]
  {
    assert [c][1..] == "" && Encode("") == "";
    var digits := "0123456789ABCDEF";
    assert forall d :: 0 <= d < 10 ==> digits[d] == '0' + d as char;
    assert forall d :: 10 <= d < 16 ==> digits[d] == 'A' + (d - 10) as char;
    assert Utf8(c as int) == [c as int] && [c as int][1..] == [];
    assert EscapeAll([c as int]) == Escape(c as int) + EscapeAll([]);
  }

  predicate IsPlain(c: char) {
    Unreserved(c) || c == '%'
  }

  predicate AllPlain(s: string) {
    forall i :: 0 <= i < |s| ==> IsPlain(s[i])
  }

  lemma {:induction false} EscapesArePlain(bytes: seq<Byte>)
    ensures AllPlain(EscapeAll(bytes))
  {
    if bytes == [] {
    } else {
      EscapesArePlain(bytes[1..]);
    }
  }

  /** Nothing that could move a boundary of the URL survives the encoding. */
  lemma {:induction false} EncodedIsPlain(s: string)
    ensures AllPlain(Encode(s))
    ensures Encode(s) == "" <==> s == ""
  {
    if s == "" {
    } else {
      EncodedIsPlain(s[1..]);
      if !Unreserved(s[0]) { EscapesArePlain(Utf8(s[0] as int)); }
    }
  }
}
