/** The script tables: which characters have Unicode superscripts and subscripts, by code point. */
module ScriptTables {
  import opened Wrappers

  const MINUS := '\U{2212}'

  /** The code point of the superscript of a character, or 0. */
  function SuperscriptCode(code: int): int {
    match code
    case 0x30 => 0x2070
    case 0x31 => 0xb9
    case 0x32 => 0xb2
    case 0x33 => 0xb3
    case 0x34 => 0x2074
    case 0x35 => 0x2075
    case 0x36 => 0x2076
    case 0x37 => 0x2077
    case 0x38 => 0x2078
    case 0x39 => 0x2079
    case 0x2b => 0x207a
    case 0x2212 => 0x207b
    case 0x2d => 0x207b
    case 0x3d => 0x207c
    case 0x28 => 0x207d
    case 0x29 => 0x207e
    case 0x61 => 0x1d43
    case 0x62 => 0x1d47
    case 0x63 => 0x1d9c
    case 0x64 => 0x1d48
    case 0x65 => 0x1d49
    case 0x66 => 0x1da0
    case 0x67 => 0x1d4d
    case 0x68 => 0x2b0
    case 0x69 => 0x2071
    case 0x6a => 0x2b2
    case 0x6b => 0x1d4f
    case 0x6c => 0x2e1
    case 0x6d => 0x1d50
    case 0x6e => 0x207f
    case 0x6f => 0x1d52
    case 0x70 => 0x1d56
    case 0x72 => 0x2b3
    case 0x73 => 0x2e2
    case 0x74 => 0x1d57
    case 0x75 => 0x1d58
    case 0x76 => 0x1d5b
    case 0x77 => 0x2b7
    case 0x78 => 0x2e3
    case 0x79 => 0x2b8
    case 0x7a => 0x1dbb
    case 0x54 => 0x1d40
    case _ => 0
  }

  /** The code point of the subscript of a character, or 0. */
  function SubscriptCode(code: int): int {
    match code
    case 0x30 => 0x2080
    case 0x31 => 0x2081
    case 0x32 => 0x2082
    case 0x33 => 0x2083
    case 0x34 => 0x2084
    case 0x35 => 0x2085
    case 0x36 => 0x2086
    case 0x37 => 0x2087
    case 0x38 => 0x2088
    case 0x39 => 0x2089
    case 0x2b => 0x208a
    case 0x2212 => 0x208b
    case 0x2d => 0x208b
    case 0x3d => 0x208c
    case 0x28 => 0x208d
    case 0x29 => 0x208e
    case 0x61 => 0x2090
    case 0x65 => 0x2091
    case 0x68 => 0x2095
    case 0x69 => 0x1d62
    case 0x6a => 0x2c7c
    case 0x6b => 0x2096
    case 0x6c => 0x2097
    case 0x6d => 0x2098
    case 0x6e => 0x2099
    case 0x6f => 0x2092
    case 0x70 => 0x209a
    case 0x72 => 0x1d63
    case 0x73 => 0x209b
    case 0x74 => 0x209c
    case 0x75 => 0x1d64
    case 0x76 => 0x1d65
    case 0x78 => 0x2093
    case _ => 0
  }

  /** The plain character of a superscript, or 0. */
  function FromSuperscript(code: int): int {
    match code
    case 0x2070 => 0x30
    case 0xb9 => 0x31
    case 0xb2 => 0x32
    case 0xb3 => 0x33
    case 0x2074 => 0x34
    case 0x2075 => 0x35
    case 0x2076 => 0x36
    case 0x2077 => 0x37
    case 0x2078 => 0x38
    case 0x2079 => 0x39
    case 0x207a => 0x2b
    case 0x207b => 0x2d
    case 0x207c => 0x3d
    case 0x207d => 0x28
    case 0x207e => 0x29
    case 0x1d43 => 0x61
    case 0x1d47 => 0x62
    case 0x1d9c => 0x63
    case 0x1d48 => 0x64
    case 0x1d49 => 0x65
    case 0x1da0 => 0x66
    case 0x1d4d => 0x67
    case 0x2b0 => 0x68
    case 0x2071 => 0x69
    case 0x2b2 => 0x6a
    case 0x1d4f => 0x6b
    case 0x2e1 => 0x6c
    case 0x1d50 => 0x6d
    case 0x207f => 0x6e
    case 0x1d52 => 0x6f
    case 0x1d56 => 0x70
    case 0x2b3 => 0x72
    case 0x2e2 => 0x73
    case 0x1d57 => 0x74
    case 0x1d58 => 0x75
    case 0x1d5b => 0x76
    case 0x2b7 => 0x77
    case 0x2e3 => 0x78
    case 0x2b8 => 0x79
    case 0x1dbb => 0x7a
    case 0x1d40 => 0x54
    case _ => 0
  }

  /** The plain character of a subscript, or 0. */
  function FromSubscript(code: int): int {
    match code
    case 0x2080 => 0x30
    case 0x2081 => 0x31
    case 0x2082 => 0x32
    case 0x2083 => 0x33
    case 0x2084 => 0x34
    case 0x2085 => 0x35
    case 0x2086 => 0x36
    case 0x2087 => 0x37
    case 0x2088 => 0x38
    case 0x2089 => 0x39
    case 0x208a => 0x2b
    case 0x208b => 0x2d
    case 0x208c => 0x3d
    case 0x208d => 0x28
    case 0x208e => 0x29
    case 0x2090 => 0x61
    case 0x2091 => 0x65
    case 0x2095 => 0x68
    case 0x1d62 => 0x69
    case 0x2c7c => 0x6a
    case 0x2096 => 0x6b
    case 0x2097 => 0x6c
    case 0x2098 => 0x6d
    case 0x2099 => 0x6e
    case 0x2092 => 0x6f
    case 0x209a => 0x70
    case 0x1d63 => 0x72
    case 0x209b => 0x73
    case 0x209c => 0x74
    case 0x1d64 => 0x75
    case 0x1d65 => 0x76
    case 0x2093 => 0x78
    case _ => 0
  }

  /** The plain character a Unicode script stands for, or the character itself. */
  function PlainCode(code: int): int {
    if FromSuperscript(code) != 0 then FromSuperscript(code)
    else if FromSubscript(code) != 0 then FromSubscript(code) else code
  }

  /** The two minus signs are one. */
  function OneMinus(code: int): int {
    if code == 0x2212 then 0x2d else code
  }

  lemma SuperscriptCodesInvert(code: int)
    requires SuperscriptCode(code) != 0
    ensures FromSuperscript(SuperscriptCode(code)) == OneMinus(code) > 0
    ensures 0 <= SuperscriptCode(code) < 0xd800
  {
  }

  lemma SubscriptCodesInvert(code: int)
    requires SubscriptCode(code) != 0
    ensures FromSubscript(SubscriptCode(code)) == OneMinus(code) > 0 && FromSuperscript(SubscriptCode(code)) == 0
    ensures 0 <= SubscriptCode(code) < 0xd800
  {
  }

  lemma PlainCodesStay(code: int)
    requires 0 <= code < 0x80 || code == 0x2212
    ensures PlainCode(code) == code
  {
  }

  lemma PlainCodesAreScalars(code: int)
    ensures PlainCode(code) == code || 0 < PlainCode(code) < 0x80
  {
  }

  // ---- on characters ----

  function Superscript(c: char): Option<char> {
    var code := SuperscriptCode(c as int);
    if code == 0 then None else
      SuperscriptCodesInvert(c as int);
      Some(code as char)
  }

  function Subscript(c: char): Option<char> {
    var code := SubscriptCode(c as int);
    if code == 0 then None else
      SubscriptCodesInvert(c as int);
      Some(code as char)
  }

  /** White space as regular expressions see it. */
  predicate IsSpace(c: char) {
    var code := c as int;
    code == 0x20 || 0x09 <= code <= 0x0d || code == 0xa0 || code == 0x1680 || 0x2000 <= code <= 0x200a
    || code == 0x2028 || code == 0x2029 || code == 0x202f || code == 0x205f || code == 0x3000 || code == 0xfeff
  }

  predicate IsBracket(c: char) {
    c == '(' || c == ')' || c == '{' || c == '}' || c == '[' || c == ']'
  }

  predicate IsDigit(c: char) {
    '0' <= c <= '9'
  }

  /**
    What a character contributes to the skeleton of a formula: scripts count as their plain
    characters, the minus signs are one, and script marks, brackets and spaces do not count.
   */
  function Bare(c: char): string {
    if c == '^' || c == '_' || IsBracket(c) || IsSpace(c) then ""
    else
      PlainCodesAreScalars(c as int);
      var code := OneMinus(PlainCode(c as int));
      var plain := code as char;
      if IsBracket(plain) then "" else [plain]
  }

  lemma ScriptsAreBare(c: char)
    ensures Superscript(c).Some? ==> Bare(Superscript(c).value) == Bare(c)
    ensures Subscript(c).Some? ==> Bare(Subscript(c).value) == Bare(c)
  {
    hide SuperscriptCode, SubscriptCode, FromSuperscript, FromSubscript;
    if Superscript(c).Some? {
      SuperscriptCodesInvert(c as int);
      NotAMark(SuperscriptCode(c as int));
      KeysArePlain(c as int);
      PlainCodesStay(c as int);
    }
    if Subscript(c).Some? {
      SubscriptCodesInvert(c as int);
      NotAMark(SubscriptCode(c as int));
      KeysArePlain(c as int);
      PlainCodesStay(c as int);
    }
  }

  lemma KeysArePlain(code: int)
    requires SuperscriptCode(code) != 0 || SubscriptCode(code) != 0
    ensures (0x28 <= code < 0x80 && !(0x5b <= code <= 0x5f)) || code == 0x2212
  {
  }

  lemma NotAMark(code: int)
    requires FromSuperscript(code) != 0 || FromSubscript(code) != 0
    ensures 0xb2 <= code < 0x400 || 0x1d00 <= code < 0x2000 || 0x2070 <= code < 0x20a0 || code == 0x2c7c
  {
  }

  lemma PlainIsBare(c: char)
    requires c as int < 0x80 || c == MINUS
    ensures Bare(c) == if c == '^' || c == '_' || IsBracket(c) || IsSpace(c) then "" else if c == MINUS then "-" else [c]
  {
    PlainCodesStay(c as int);
  }
}
