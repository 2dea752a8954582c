/**
  Percent-encoding of UTF-8 as `encodeURIComponent` and `decodeURIComponent` do it (section 2.1 of
  RFC 3986, sections 19.2.6.1 and 19.2.6.4 of ECMA-262).
 */
module PercentCoding {
  import opened Wrappers

  predicate IsAlphaNumeric(c: char) {
    'a' <= c <= 'z' || 'A' <= c <= 'Z' || '0' <= c <= '9'
  }

  /** The characters that are not encoded. */
  predicate Unescaped(c: char) {
    IsAlphaNumeric(c) || c in "-_.!~*'()"
  }

  function HexDigit(n: int): char
    requires 0 <= n < 16
  {
    if n < 10 then ('0' as int + n) as char else ('A' as int + n - 10) as char
  }

  function FromHex(c: char): Option<int> {
    if '0' <= c <= '9' then Some(c as int - '0' as int)
    else if 'A' <= c <= 'F' then Some(c as int - 'A' as int + 10)
    else if 'a' <= c <= 'f' then Some(c as int - 'a' as int + 10)
    else None
  }

  function Escape(b: int): (s: string)
    requires 0 <= b < 256
    ensures |s| == 3 && s[0] == '%'
  {
    ['%', HexDigit(b / 16), HexDigit(b % 16)]
  }

  /** The byte escaped at the front of the text. */
  function Unescape(s: string): (b: Option<int>)
    ensures b.Some? ==> |s| >= 3 && 0 <= b.value < 256
  {
    if |s| < 3 || s[0] != '%' || FromHex(s[1]).None? || FromHex(s[2]).None? then None
    else Some(16 * FromHex(s[1]).value + FromHex(s[2]).value)
  }

  lemma EscapeUnescapes(b: int, rest: string)
    requires 0 <= b < 256
    ensures Unescape(Escape(b) + rest) == Some(b) && (Escape(b) + rest)[3..] == rest
  {
    var s := Escape(b) + rest;
    assert s[0] == '%' && s[1] == HexDigit(b / 16) && s[2] == HexDigit(b % 16);
    HexRoundTrip(b / 16);
    HexRoundTrip(b % 16);
  }

  lemma HexRoundTrip(n: int)
    requires 0 <= n < 16
    ensures FromHex(HexDigit(n)) == Some(n)
  {
  }

  // ---- encoding ----

  /** The UTF-8 form of a code point (section 3 of RFC 3629). */
  function Utf8(code: int): (bytes: seq<int>)
    requires 0 <= code < 0x110000
    ensures 1 <= |bytes| <= 4 && forall i :: 0 <= i < |bytes| ==> 0 <= bytes[i] < 256
  {
    if code < 0x80 then [code]
    else if code < 0x800 then [0xc0 + code / 0x40, 0x80 + code % 0x40]
    else if code < 0x10000 then [0xe0 + code / 0x1000, 0x80 + code / 0x40 % 0x40, 0x80 + code % 0x40]
    else [0xf0 + code / 0x40000, 0x80 + code / 0x1000 % 0x40, 0x80 + code / 0x40 % 0x40, 0x80 + code % 0x40]
  }

  function EscapeAll(bytes: seq<int>): string
    requires forall i :: 0 <= i < |bytes| ==> 0 <= bytes[i] < 256
  {
    if bytes == [] then [] else Escape(bytes[0]) + EscapeAll(bytes[1..])
  }

  function EncodeChar(c: char): string {
    if Unescaped(c) then [c] else EscapeAll(Utf8(c as int))
  }

  function Encode(s: string): string {
    if s == [] then [] else EncodeChar(s[0]) + Encode(s[1..])
  }

  // ---- decoding ----

  /** How many bytes a sequence has that starts with this byte; 0 if none may. */
  function SequenceLength(lead: int): nat {
    if lead < 0x80 then 1
    else if 0xc0 <= lead < 0xe0 then 2
    else if 0xe0 <= lead < 0xf0 then 3
    else if 0xf0 <= lead < 0xf8 then 4
    else 0
  }

  function LeadBits(lead: int): int {
    if lead < 0x80 then lead
    else if lead < 0xe0 then lead - 0xc0
    else if lead < 0xf0 then lead - 0xe0
    else lead - 0xf0
  }

  /** The value gathered so far, extended by `n` escaped continuation bytes, and what follows them. */
  function Continue(s: string, value: int, n: nat): Option<(int, string)> {
    if n == 0 then Some((value, s))
    else
      var b := Unescape(s);
      if b.None? || !(0x80 <= b.value < 0xc0) then None
      else Continue(s[3..], value * 0x40 + b.value - 0x80, n - 1)
  }

  /** The shortest form only, and no surrogates. */
  predicate ValidCode(code: int, n: nat) {
    && (n == 1 ==> 0 <= code < 0x80) && (n == 2 ==> 0x80 <= code < 0x800)
    && (n == 3 ==> 0x800 <= code < 0xd800 || 0xe000 <= code < 0x10000) && (n == 4 ==> 0x10000 <= code < 0x110000)
    && 1 <= n <= 4
  }

  /** The first character and what follows it. */
  function DecodeFirst(s: string): (r: Option<(char, string)>)
    requires s != ""
    ensures r.Some? ==> |r.value.1| < |s|
  {
    if s[0] != '%' then Some((s[0], s[1..]))
    else
      var lead := Unescape(s);
      if lead.None? then None
      else
        var n := SequenceLength(lead.value);
        if n == 0 then None
        else
          ContinueShrinks(s[3..], LeadBits(lead.value), n - 1);
          var r := Continue(s[3..], LeadBits(lead.value), n - 1);
          if r.None? || !ValidCode(r.value.0, n) then None else Some((r.value.0 as char, r.value.1))
  }

  lemma {:induction false} ContinueShrinks(s: string, value: int, n: nat)
    ensures Continue(s, value, n).Some? ==> |Continue(s, value, n).value.1| <= |s|
    decreases n
  {
    if n > 0 {
      var b := Unescape(s);
      if b.Some? {
        ContinueShrinks(s[3..], value * 0x40 + b.value - 0x80, n - 1);
      }
    }
  }

  function Decode(s: string): Option<string>
    decreases |s|
  {
    if s == "" then Some("")
    else match DecodeFirst(s)
      case None => None
      case Some((c, rest)) =>
        match Decode(rest)
        case None => None
        case Some(text) => Some([c] + text)
  }

  // ---- the round trip ----

  lemma ContinueOne(b: int, rest: string, value: int, n: nat)
    requires 0x80 <= b < 0xc0
    ensures Continue(Escape(b) + rest, value, n + 1) == Continue(rest, value * 0x40 + b - 0x80, n)
  {
    EscapeUnescapes(b, rest);
  }

  lemma Escapes(bytes: seq<int>, rest: string)
    requires bytes != [] && forall i :: 0 <= i < |bytes| ==> 0 <= bytes[i] < 256
    ensures EscapeAll(bytes) + rest == Escape(bytes[0]) + (EscapeAll(bytes[1..]) + rest)
  {
  }

  lemma {:induction false} ContinueAll(bytes: seq<int>, rest: string, value: int)
    requires forall i :: 0 <= i < |bytes| ==> 0x80 <= bytes[i] < 0xc0
    ensures Continue(EscapeAll(bytes) + rest, value, |bytes|) == Some((Gather(bytes, value), rest))
    decreases |bytes|
  {
    if bytes == [] {
      assert EscapeAll(bytes) + rest == rest;
    } else {
      Escapes(bytes, rest);
      ContinueOne(bytes[0], EscapeAll(bytes[1..]) + rest, value, |bytes| - 1);
      ContinueAll(bytes[1..], rest, value * 0x40 + bytes[0] - 0x80);
    }
  }

  function Gather(bytes: seq<int>, value: int): int {
    if bytes == [] then value else Gather(bytes[1..], value * 0x40 + bytes[0] - 0x80)
  }

  /** The bytes of a code point announce their number, continue as they should and gather to it. */
  lemma Utf8Gathers(code: int)
    requires 0 <= code < 0x110000
    ensures var bytes := Utf8(code);
            && SequenceLength(bytes[0]) == |bytes| && (code < 0x80 <==> bytes[0] < 0x80)
            && (forall i :: 1 <= i < |bytes| ==> 0x80 <= bytes[i] < 0xc0)
            && Gather(bytes[1..], LeadBits(bytes[0])) == code
            && (code < 0xd800 || code >= 0xe000 ==> ValidCode(code, |bytes|))
  {
    var bytes := Utf8(code);
    if code >= 0x10000 {
      GatherThree(code);
      assert bytes[1..] == [bytes[1], bytes[2], bytes[3]];
    } else if code >= 0x800 {
      GatherTwo(code);
      assert bytes[1..] == [bytes[1], bytes[2]];
    } else if code >= 0x80 {
      assert bytes[1..] == [bytes[1]];
      assert bytes[1..][1..] == [];
    }
  }

  lemma GatherOne(b: int, value: int)
    ensures Gather([b], value) == value * 0x40 + b - 0x80
  {
    assert [b][1..] == [];
  }

  lemma Base64(code: int)
    requires code >= 0
    ensures (code / 0x1000 * 0x40 + code / 0x40 % 0x40) * 0x40 + code % 0x40 == code
  {
  }

  lemma GatherNext(b: int, rest: seq<int>, value: int)
    ensures Gather([b] + rest, value) == Gather(rest, value * 0x40 + b - 0x80)
  {
    assert ([b] + rest)[1..] == rest;
  }

  lemma GatherTwo(code: int)
    requires code >= 0
    ensures Gather([0x80 + code / 0x40 % 0x40, 0x80 + code % 0x40], code / 0x1000) == code
  {
    hide Gather;
    var b, c := 0x80 + code / 0x40 % 0x40, 0x80 + code % 0x40;
    assert [b] + [c] == [b, c];
    GatherNext(b, [c], code / 0x1000);
    GatherOne(c, code / 0x1000 * 0x40 + b - 0x80);
    Base64(code);
  }

  lemma GatherThree(code: int)
    requires code >= 0
    ensures Gather([0x80 + code / 0x1000 % 0x40, 0x80 + code / 0x40 % 0x40, 0x80 + code % 0x40], code / 0x40000) == code
  {
    var bytes := [0x80 + code / 0x1000 % 0x40, 0x80 + code / 0x40 % 0x40, 0x80 + code % 0x40];
    assert bytes[1..] == [bytes[1], bytes[2]];
    GatherTwo(code);
  }

  /** An encoded character decodes first, whatever follows. */
  lemma DecodeEncodedChar(c: char, rest: string)
    ensures DecodeFirst(EncodeChar(c) + rest) == Some((c, rest))
  {
    if Unescaped(c) {
      assert ([c] + rest)[1..] == rest;
    } else {
      var bytes := Utf8(c as int);
      Utf8Gathers(c as int);
      Escapes(bytes, rest);
      EscapeUnescapes(bytes[0], EscapeAll(bytes[1..]) + rest);
      ContinueAll(bytes[1..], rest, LeadBits(bytes[0]));
      assert EncodeChar(c) + rest == Escape(bytes[0]) + (EscapeAll(bytes[1..]) + rest);
    }
  }

  /** Decoding undoes encoding, for every text. */
  lemma {:induction false} DecodeEncode(s: string)
    ensures Decode(Encode(s)) == Some(s)
    decreases |s|
  {
    if s != [] {
      DecodeEncodedChar(s[0], Encode(s[1..]));
      DecodeEncode(s[1..]);
      assert s == [s[0]] + s[1..];
    }
  }

  /** Letters, digits and these marks stay, and every other character is escaped. */
  lemma StaysIff(c: char)
    ensures Encode([c]) == [c] <==>
              'a' <= c <= 'z' || 'A' <= c <= 'Z' || '0' <= c <= '9' || c == '-' || c == '_' || c == '.' || c == '!' || c == '~'
              || c == '*' || c == '\'' || c == '(' || c == ')'
  {
    assert [c][1..] == [] && Encode([c]) == EncodeChar(c) + [] == EncodeChar(c);
    MarksStay(c);
    if !Unescaped(c) {
      Escapes(Utf8(c as int), "");
    }
  }

  lemma MarksStay(c: char)
    ensures c in "-_.!~*'()" <==>
              c == '-' || c == '_' || c == '.' || c == '!' || c == '~' || c == '*' || c == '\'' || c == '(' || c == ')'
  {
    var marks := "-_.!~*'()";
    assert marks[0] == '-' && marks[1] == '_' && marks[2] == '.' && marks[3] == '!' && marks[4] == '~' && marks[5] == '*'
        && marks[6] == '\'' && marks[7] == '(' && marks[8] == ')';
  }
}
