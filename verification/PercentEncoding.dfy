/** Percent-decoding of text, as Python's `unquote` does it, and percent-encoding by section 2.1 of RFC 3986. */
module PercentEncoding {
  import opened ByteStrings

  // ---------------------------------------------------------------- UTF-8

  const REPLACEMENT: char := '\U{FFFD}'

  /** A continuation byte with the low six bits. */
  function Continuation(n: nat): (b: byte)
    ensures IsContinuation(b) && Payload(b) == n % 64
  {
    (0x80 + n % 64) as byte
  }

  function Encode(c: char): (b: Bytes)
    ensures 1 <= |b| <= 4
  {
    var n := c as int;
    if n < 0x80 then [n as byte]
    else if n < 0x800 then [(0xC0 + n / 64) as byte, Continuation(n)]
    else if n < 0x10000 then [(0xE0 + n / 64 / 64) as byte, Continuation(n / 64), Continuation(n)]
    else [(0xF0 + n / 64 / 64 / 64) as byte, Continuation(n / 64 / 64), Continuation(n / 64), Continuation(n)]
  }

  /** How many bytes a character has that starts with this one, or 0 when none does. */
  function Length(lead: byte): nat {
    if lead < 0x80 then 1
    else if 0xC2 <= lead <= 0xDF then 2
    else if 0xE0 <= lead <= 0xEF then 3
    else if 0xF0 <= lead <= 0xF4 then 4
    else 0
  }

  /** Overlong forms, surrogates and numbers above U+10FFFF have no valid second byte. */
  predicate ValidSecond(lead: byte, second: byte) {
    && (if lead == 0xE0 then 0xA0 else if lead == 0xF0 then 0x90 else 0x80) <= second
    && second <= (if lead == 0xED then 0x9F else if lead == 0xF4 then 0x8F else 0xBF)
  }

  predicate IsContinuation(b: byte) {
    0x80 <= b <= 0xBF
  }

  function Payload(b: byte): int {
    b as int % 64
  }

  /** How many bytes at the start belong to one character, or form the longest beginning of one. */
  function Reach(b: Bytes): (n: nat)
    requires b != []
    ensures 1 <= n <= |b|
  {
    var k := Length(b[0]);
    if k < 2 || |b| < 2 || !ValidSecond(b[0], b[1]) then 1
    else if k < 3 || |b| < 3 || !IsContinuation(b[2]) then 2
    else if k < 4 || |b| < 4 || !IsContinuation(b[3]) then 3
    else 4
  }

  function DecodeFirst(b: Bytes): char
    requires b != []
  {
    var (k, n) := (Length(b[0]), Reach(b));
    if n < k || k == 0 then REPLACEMENT
    else if k == 1 then b[0] as char
    else if k == 2 then ((b[0] as int - 0xC0) * 64 + Payload(b[1])) as char
    else if k == 3 then (((b[0] as int - 0xE0) * 64 + Payload(b[1])) * 64 + Payload(b[2])) as char
    else ((((b[0] as int - 0xF0) * 64 + Payload(b[1])) * 64 + Payload(b[2])) * 64 + Payload(b[3])) as char
  }

  /** Malformed beginnings are replaced one by one. */
  function Decode(b: Bytes): string
    decreases |b|
  {
    if b == [] then [] else [DecodeFirst(b)] + Decode(b[Reach(b)..])
  }

  function Utf8(s: string): Bytes {
    if s == [] then [] else Encode(s[0]) + Utf8(s[1..])
  }

  lemma Base64(n: nat)
    ensures n == n / 64 * 64 + n % 64
  {}

  lemma DecodesTwoBytes(c: char, rest: Bytes)
    requires 0x80 <= c as int < 0x800
    ensures DecodeFirst(Encode(c) + rest) == c && Reach(Encode(c) + rest) == 2
  {
    Base64(c as int);
  }

  lemma DecodesThreeBytes(c: char, rest: Bytes)
    requires 0x800 <= c as int < 0x10000
    ensures DecodeFirst(Encode(c) + rest) == c && Reach(Encode(c) + rest) == 3
  {
    var (n, m) := (c as int, c as int / 64);
    Base64(n);
    Base64(m);
    var b := Encode(c) + rest;
    assert b[0] as int == 0xE0 + m / 64 && b[1] == Continuation(m) && b[2] == Continuation(n);
    assert ValidSecond(b[0], b[1]);
  }

  lemma DecodesFourBytes(c: char, rest: Bytes)
    requires 0x10000 <= c as int
    ensures DecodeFirst(Encode(c) + rest) == c && Reach(Encode(c) + rest) == 4
  {
    var (n, m, l) := (c as int, c as int / 64, c as int / 64 / 64);
    Base64(n);
    Base64(m);
    Base64(l);
    var b := Encode(c) + rest;
    assert b[0] as int == 0xF0 + l / 64 && b[1] == Continuation(l) && b[2] == Continuation(m)
      && b[3] == Continuation(n);
    assert ValidSecond(b[0], b[1]);
  }

  lemma DecodesOne(c: char, rest: Bytes)
    ensures DecodeFirst(Encode(c) + rest) == c && Reach(Encode(c) + rest) == |Encode(c)|
  {
    var n := c as int;
    if n >= 0x10000 {
      DecodesFourBytes(c, rest);
    } else if n >= 0x800 {
      DecodesThreeBytes(c, rest);
    } else if n >= 0x80 {
      DecodesTwoBytes(c, rest);
    }
  }

  lemma {:induction false} DecodeOfUtf8(s: string)
    ensures Decode(Utf8(s)) == s
    decreases |s|
  {
    if s != [] {
      DecodesOne(s[0], Utf8(s[1..]));
      assert Utf8(s)[|Encode(s[0])|..] == Utf8(s[1..]);
      DecodeOfUtf8(s[1..]);
    }
  }

  // ---------------------------------------------------------------- percent-decoding

  predicate IsAscii(c: char) {
    c as int < 0x80
  }

  predicate AllAscii(s: string) {
    forall c :: c in s ==> IsAscii(c)
  }

  predicate IsHex(c: char) {
    '0' <= c <= '9' || 'A' <= c <= 'F' || 'a' <= c <= 'f'
  }

  function HexValue(c: char): (v: byte)
    requires IsHex(c)
    ensures v < 16
  {
    if c <= '9' then (c as int - '0' as int) as byte
    else if c <= 'F' then (c as int - 'A' as int + 10) as byte
    else (c as int - 'a' as int + 10) as byte
  }

  function HexDigit(v: byte): (c: char)
    requires v < 16
    ensures IsHex(c) && HexValue(c) == v && IsAscii(c)
  {
    if v < 10 then ('0' as int + v as int) as char else ('A' as int + v as int - 10) as char
  }

  predicate StartsWithEscape(s: string) {
    |s| >= 3 && s[0] == '%' && IsHex(s[1]) && IsHex(s[2])
  }

  /** The bytes of ASCII text; a percent sign without two hexadecimal digits stands for itself. */
  function PercentBytes(s: string): Bytes
    requires AllAscii(s)
    decreases |s|
  {
    if s == [] then []
    else if StartsWithEscape(s) then [16 * HexValue(s[1]) + HexValue(s[2])] + PercentBytes(s[3..])
    else (assert s[0] in s; [s[0] as int as byte]) + PercentBytes(s[1..])
  }

  const LOWER_HEX := "0123456789abcdef"
  const UPPER_HEX := "0123456789ABCDEF"

  /** An escape stands for its byte, in either case of the digits. */
  lemma EscapeIsByte(i: nat, j: nat, a: char, b: char, r: string)
    requires i < 16 && j < 16 && (a == LOWER_HEX[i] || a == UPPER_HEX[i]) && (b == LOWER_HEX[j] || b == UPPER_HEX[j])
    requires AllAscii(r)
    ensures AllAscii(['%', a, b] + r)
    ensures PercentBytes(['%', a, b] + r) == [(16 * i + j) as byte] + PercentBytes(r)
  {
    assert HexValue(a) as int == i && HexValue(b) as int == j;
    assert (['%', a, b] + r)[3..] == r;
  }

  /** Nowhere a percent sign with two hexadecimal digits after it. */
  predicate NoEscapes(s: string) {
    forall i :: 0 <= i < |s| - 2 ==>
      !(s[i] == '%' && s[i + 1] in LOWER_HEX + UPPER_HEX && s[i + 2] in LOWER_HEX + UPPER_HEX)
  }

  lemma HexIff(c: char)
    ensures IsHex(c) <==> c in LOWER_HEX + UPPER_HEX
  {
    if '0' <= c <= '9' {
      assert LOWER_HEX[c as int - '0' as int] == c;
    } else if 'a' <= c <= 'f' {
      assert LOWER_HEX[c as int - 'a' as int + 10] == c;
    } else if 'A' <= c <= 'F' {
      assert UPPER_HEX[c as int - 'A' as int + 10] == c;
    }
  }

  lemma {:induction false} NoEscapesKept(s: string)
    requires AllAscii(s) && NoEscapes(s)
    ensures PercentBytes(s) == Utf8(s)
  {
    if s != [] {
      if |s| >= 3 {
        HexIff(s[1]);
        HexIff(s[2]);
      }
      forall i | 0 <= i < |s[1..]| - 2
        ensures !(s[1..][i] == '%' && s[1..][i + 1] in LOWER_HEX + UPPER_HEX && s[1..][i + 2] in LOWER_HEX + UPPER_HEX)
      {
        assert s[1..][i] == s[i + 1] && s[1..][i + 1] == s[i + 2] && s[1..][i + 2] == s[i + 3];
      }
      NoEscapesKept(s[1..]);
      assert s[0] in s;
    }
  }

  /** The longest ASCII beginning. */
  function AsciiRun(s: string): (n: nat)
    ensures n <= |s| && AllAscii(s[..n])
    ensures AllAscii(s) ==> n == |s|
    ensures s != [] && IsAscii(s[0]) ==> n > 0
  {
    if s == [] then 0
    else if !IsAscii(s[0]) then (assert s[0] in s; 0)
    else
      var n := 1 + AsciiRun(s[1..]);
      assert s[..n] == [s[0]] + s[1..][..n - 1];
      n
  }

  /** Decodes run by run; other characters stay. */
  function UnquoteRuns(s: string): string
    decreases |s|
  {
    if s == [] then []
    else if !IsAscii(s[0]) then [s[0]] + UnquoteRuns(s[1..])
    else Decode(PercentBytes(s[..AsciiRun(s)])) + UnquoteRuns(s[AsciiRun(s)..])
  }

  function Unquote(s: string): string {
    if '%' !in s then s else UnquoteRuns(s)
  }

  // ---------------------------------------------------------------- percent-encoding

  /** Which characters a renderer leaves as they are. */
  type Keep = char -> bool

  /** It may leave any ASCII character but the percent sign and the separators of a package URL; it may leave the
      at sign, which is a separator only at its first occurrence. */
  ghost predicate Keepable(keep: Keep) {
    forall c :: keep(c) ==> IsAscii(c) && c !in "%/?&="
  }

  function PercentAll(b: Bytes): string {
    if b == [] then [] else ['%', HexDigit(b[0] / 16), HexDigit(b[0] % 16)] + PercentAll(b[1..])
  }

  function Escape(keep: Keep, s: string): string {
    if s == [] then [] else EscapeChar(keep, s[0]) + Escape(keep, s[1..])
  }

  function EscapeChar(keep: Keep, c: char): string {
    if keep(c) then [c] else PercentAll(Encode(c))
  }

  lemma {:induction false} PercentAllShape(b: Bytes)
    ensures forall c :: c in PercentAll(b) ==> c == '%' || (IsHex(c) && IsAscii(c))
  {
    if b != [] { PercentAllShape(b[1..]); }
  }

  lemma {:induction false} EscapeShape(keep: Keep, s: string)
    ensures forall c :: c in Escape(keep, s) ==> c == '%' || (IsHex(c) && IsAscii(c)) || keep(c)
  {
    if s != [] {
      PercentAllShape(Encode(s[0]));
      EscapeShape(keep, s[1..]);
    }
  }

  /** An escaped text has none of the separators. */
  lemma EscapeHidesSeparators(keep: Keep, s: string)
    requires Keepable(keep)
    ensures AllAscii(Escape(keep, s))
    ensures forall c :: c in "/?&=" ==> c !in Escape(keep, s)
  {
    EscapeShape(keep, s);
  }

  lemma NoAtInPercents(b: Bytes)
    ensures '@' !in PercentAll(b)
  {
    PercentAllShape(b);
  }

  /** At signs survive only when they are kept. */
  lemma {:induction false} AtInEscape(keep: Keep, s: string)
    ensures '@' in Escape(keep, s) <==> keep('@') && '@' in s
    decreases |s|
  {
    if s != [] {
      AtInEscape(keep, s[1..]);
      NoAtInPercents(Encode(s[0]));
      assert '@' in s <==> s[0] == '@' || '@' in s[1..];
    }
  }

  lemma {:induction false} PercentAllDecodes(b: Bytes, r: string)
    requires AllAscii(r)
    ensures AllAscii(PercentAll(b) + r) && PercentBytes(PercentAll(b) + r) == b + PercentBytes(r)
    decreases |b|
  {
    PercentAllShape(b);
    var t := PercentAll(b) + r;
    if b == [] {
      assert t == r;
    } else {
      PercentAllDecodes(b[1..], r);
      assert t == ['%', HexDigit(b[0] / 16), HexDigit(b[0] % 16)] + (PercentAll(b[1..]) + r);
      assert t[3..] == PercentAll(b[1..]) + r;
    }
  }

  lemma PlainDecodes(c: char, r: string)
    requires IsAscii(c) && c != '%' && AllAscii(r)
    ensures AllAscii([c] + r) && PercentBytes([c] + r) == Encode(c) + PercentBytes(r)
  {
    assert ([c] + r)[1..] == r;
  }

  lemma EscapeCharDecodes(keep: Keep, c: char, r: string)
    requires Keepable(keep) && AllAscii(r)
    ensures AllAscii(EscapeChar(keep, c) + r) && PercentBytes(EscapeChar(keep, c) + r) == Encode(c) + PercentBytes(r)
  {
    if keep(c) {
      PlainDecodes(c, r);
    } else {
      PercentAllDecodes(Encode(c), r);
    }
  }

  lemma {:induction false} EscapeDecodes(keep: Keep, s: string, r: string)
    requires Keepable(keep) && AllAscii(r)
    ensures AllAscii(Escape(keep, s) + r) && PercentBytes(Escape(keep, s) + r) == Utf8(s) + PercentBytes(r)
    decreases |s|
  {
    if s == [] {
      assert Escape(keep, s) + r == r;
    } else {
      EscapeDecodes(keep, s[1..], r);
      EscapeCharDecodes(keep, s[0], Escape(keep, s[1..]) + r);
      Associative(EscapeChar(keep, s[0]), Escape(keep, s[1..]), r);
      Associative(Encode(s[0]), Utf8(s[1..]), PercentBytes(r));
    }
  }

  lemma {:induction false} NothingToDecode(s: string)
    requires AllAscii(s) && '%' !in s
    ensures PercentBytes(s) == Utf8(s)
    decreases |s|
  {
    if s != [] {
      NothingToDecode(s[1..]);
      PlainDecodes(s[0], s[1..]);
      assert s == [s[0]] + s[1..];
    }
  }

  /** On ASCII text there is a single run. */
  lemma UnquoteOfAscii(s: string)
    requires AllAscii(s)
    ensures Unquote(s) == Decode(PercentBytes(s))
  {
    if '%' !in s {
      NothingToDecode(s);
      DecodeOfUtf8(s);
    } else {
      assert AsciiRun(s) == |s| && s[..|s|] == s && s[|s|..] == [];
      var all := Decode(PercentBytes(s));
      assert UnquoteRuns(s) == all + [] == all;
    }
  }

  /** Unquoting undoes escaping, for every text and every choice of characters to keep. */
  lemma UnquoteOfEscape(keep: Keep, s: string)
    requires Keepable(keep)
    ensures Unquote(Escape(keep, s)) == s
  {
    EscapeDecodes(keep, s, []);
    assert Escape(keep, s) + [] == Escape(keep, s);
    assert Utf8(s) + [] == Utf8(s);
    UnquoteOfAscii(Escape(keep, s));
    DecodeOfUtf8(s);
  }

  /** Text with percent signs but no escapes, as in `100%`, stays as it is. */
  lemma UnquoteKeepsText(s: string)
    requires AllAscii(s) && NoEscapes(s)
    ensures Unquote(s) == s
  {
    UnquoteOfAscii(s);
    NoEscapesKept(s);
    DecodeOfUtf8(s);
  }

  // ---------------------------------------------------------------- what decoding makes of any bytes

  /** The first bytes of `b` are those of `c`. */
  predicate StartsWith(b: Bytes, c: char) {
    |Encode(c)| <= |b| && b[..|Encode(c)|] == Encode(c)
  }

  lemma EncodeShape(c: char)
    ensures
      var e := Encode(c);
      && Length(e[0]) == |e| && (|e| >= 2 ==> ValidSecond(e[0], e[1]))
      && (|e| >= 3 ==> IsContinuation(e[2])) && (|e| == 4 ==> IsContinuation(e[3]))
  {
    var n := c as int;
    if 0x800 <= n < 0x10000 {
      assert Encode(c)[1] == Continuation(n / 64) && n / 64 == n / 64 / 64 * 64 + n / 64 % 64;
    } else if 0x10000 <= n {
      assert Encode(c)[1] == Continuation(n / 64 / 64) && n / 64 / 64 == n / 64 / 64 / 64 * 64 + n / 64 / 64 % 64;
    }
  }

  /** The character of two, three or four bytes with the given lead and payloads. */
  lemma TwoBytes(lead: byte, p: nat) returns (c: char)
    requires Length(lead) == 2 && p < 64
    ensures Encode(c) == [lead, Continuation(p)]
  {
    c := ((lead as int - 0xC0) * 64 + p) as char;
  }

  lemma ThreeBytes(lead: byte, second: byte, q: nat) returns (c: char)
    requires Length(lead) == 3 && ValidSecond(lead, second) && q < 64
    ensures Encode(c) == [lead, second, Continuation(q)]
  {
    var m := (lead as int - 0xE0) * 64 + Payload(second);
    c := (m * 64 + q) as char;
    assert c as int / 64 == m && c as int % 64 == q;
    assert m / 64 == lead as int - 0xE0 && m % 64 == Payload(second);
  }

  lemma FourBytes(lead: byte, second: byte, q: nat, r: nat) returns (c: char)
    requires Length(lead) == 4 && ValidSecond(lead, second) && q < 64 && r < 64
    ensures Encode(c) == [lead, second, Continuation(q), Continuation(r)]
  {
    var l := (lead as int - 0xF0) * 64 + Payload(second);
    var m := l * 64 + q;
    c := (m * 64 + r) as char;
    assert c as int / 64 == m && c as int % 64 == r;
    assert m / 64 == l && m % 64 == q;
    assert l / 64 == lead as int - 0xF0 && l % 64 == Payload(second);
  }

  lemma ContinuationOf(b: byte)
    requires IsContinuation(b)
    ensures b == Continuation(Payload(b))
  {}

  /** A complete beginning is the beginning of a character. */
  lemma CompleteIsCharacter(b: Bytes) returns (c: char)
    requires b != [] && Length(b[0]) > 0 && Reach(b) >= Length(b[0])
    ensures StartsWith(b, c)
  {
    var k := Length(b[0]);
    if k == 1 {
      c := b[0] as char;
    } else if k == 2 {
      ContinuationOf(b[1]);
      c := TwoBytes(b[0], Payload(b[1]));
    } else if k == 3 {
      ContinuationOf(b[2]);
      c := ThreeBytes(b[0], b[1], Payload(b[2]));
    } else {
      ContinuationOf(b[2]);
      ContinuationOf(b[3]);
      c := FourBytes(b[0], b[1], Payload(b[2]), Payload(b[3]));
    }
    assert b[..k] == Encode(c);
  }

  /** The first step of decoding any bytes: a character that they start with is decoded and passed; when they start
      with none, overlong forms, surrogates and cut-off characters included, the replacement character stands for
      what is passed. */
  lemma DecodesFirst(b: Bytes)
    requires b != []
    ensures forall c :: StartsWith(b, c) ==> DecodeFirst(b) == c && Reach(b) == |Encode(c)|
    ensures (forall c :: !StartsWith(b, c)) ==> DecodeFirst(b) == '\U{FFFD}'
  {
    forall c | StartsWith(b, c) ensures DecodeFirst(b) == c && Reach(b) == |Encode(c)| {
      var rest := b[|Encode(c)|..];
      assert b == Encode(c) + rest;
      DecodesBack(c, rest);
    }
    if Length(b[0]) > 0 && Reach(b) >= Length(b[0]) {
      var c := CompleteIsCharacter(b);
    }
  }

  lemma DecodesBack(c: char, rest: Bytes)
    ensures DecodeFirst(Encode(c) + rest) == c && Reach(Encode(c) + rest) == |Encode(c)|
  {
    if 0x80 <= c as int < 0x800 {
      DecodesTwoBytes(c, rest);
    } else if 0x800 <= c as int < 0x10000 {
      DecodesThreeBytes(c, rest);
    } else if 0x10000 <= c as int {
      DecodesFourBytes(c, rest);
    }
  }

  /** Some character has more than `n` bytes and the first `n` in common with `b`. */
  ghost predicate Begins(b: Bytes, n: nat) {
    n <= |b| && exists c :: n < |Encode(c)| && Encode(c)[..n] == b[..n]
  }

  lemma CutOffBegins(b: Bytes)
    requires b != [] && 1 < Reach(b) < Length(b[0])
    ensures Begins(b, Reach(b))
  {
    var n := Reach(b);
    if Length(b[0]) == 3 {
      var c := ThreeBytes(b[0], b[1], 0);
      assert Encode(c)[..n] == b[..n];
    } else if n == 2 {
      var c := FourBytes(b[0], b[1], 0, 0);
      assert Encode(c)[..n] == b[..n];
    } else {
      ContinuationOf(b[2]);
      var c := FourBytes(b[0], b[1], Payload(b[2]), 0);
      assert Encode(c)[..n] == b[..n];
    }
  }

  /** When no character starts the bytes, one replacement character stands for the longest beginning of a character,
      or for one byte. */
  lemma ReplacesLongest(b: Bytes)
    requires b != [] && forall c :: !StartsWith(b, c)
    ensures Reach(b) == 1 || Begins(b, Reach(b))
    ensures !Begins(b, Reach(b) + 1)
  {
    var n := Reach(b);
    if Length(b[0]) > 0 && n >= Length(b[0]) {
      var c := CompleteIsCharacter(b);
    }
    if 1 < n {
      CutOffBegins(b);
    }
    if n < |b| {
      forall c | n + 1 < |Encode(c)| ensures Encode(c)[..n + 1] != b[..n + 1] {
        EncodeShape(c);
        assert Encode(c)[0] == Encode(c)[..n + 1][0] && Encode(c)[n] == Encode(c)[..n + 1][n];
        assert b[0] == b[..n + 1][0] && b[n] == b[..n + 1][n];
      }
    }
  }
}
