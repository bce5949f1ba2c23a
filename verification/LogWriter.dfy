/** The line-buffering log writer. */
module LogWriter {
  import opened ByteStrings
  import PercentEncoding

  // ---------------------------------------------------------------- trailing white space

  /** The UTF-8 form of one white space character. */
  predicate IsSpace(t: Bytes) {
    || (|t| == 1 && (9 <= t[0] <= 13 || t[0] == SPACE))
    || (|t| == 2 && t[0] == 0xC2 && (t[1] == 0x85 || t[1] == 0xA0))
    || (|t| == 3 && t[0] == 0xE1 && t[1] == 0x9A && t[2] == 0x80)
    || (|t| == 3 && t[0] == 0xE2 && t[1] == 0x80
        && (0x80 <= t[2] <= 0x8A || t[2] == 0xA8 || t[2] == 0xA9 || t[2] == 0xAF))
    || (|t| == 3 && t[0] == 0xE2 && t[1] == 0x81 && t[2] == 0x9F)
    || (|t| == 3 && t[0] == 0xE3 && t[1] == 0x80 && t[2] == 0x80)
  }

  /** Which byte strings are one white space character. */
  type Space = Bytes -> bool

  /** The Unicode white space characters. */
  predicate WhiteSpace(c: char) {
    var n := c as int;
    9 <= n <= 13 || n in {0x20, 0x85, 0xA0, 0x1680, 0x2028, 0x2029, 0x202F, 0x205F, 0x3000} || 0x2000 <= n <= 0x200A
  }

  lemma SpaceOfShortChar(c: char)
    requires c as int < 0x800
    ensures IsSpace(PercentEncoding.Encode(c)) <==> WhiteSpace(c)
  {
    var n := c as int;
    assert n == n / 64 * 64 + n % 64;
  }

  lemma SpaceOfLongChar(c: char)
    requires 0x800 <= c as int < 0x10000
    ensures IsSpace(PercentEncoding.Encode(c)) <==> WhiteSpace(c)
  {
    var (n, m) := (c as int, c as int / 64);
    var (x, y, z) := (m / 64, m % 64, n % 64);
    assert n == x * 4096 + y * 64 + z;
    var e := PercentEncoding.Encode(c);
    assert |e| == 3 && e[0] as int == 0xE0 + x && e[1] as int == 0x80 + y && e[2] as int == 0x80 + z;
  }

  lemma SpaceOfChar(c: char)
    ensures IsSpace(PercentEncoding.Encode(c)) <==> WhiteSpace(c)
  {
    if c as int < 0x800 {
      SpaceOfShortChar(c);
    } else if c as int < 0x10000 {
      SpaceOfLongChar(c);
    }
  }

  /** What is trimmed is exactly the UTF-8 form of a white space character. */
  lemma SpacesAreWhiteSpace(t: Bytes)
    ensures IsSpace(t) <==> exists c :: WhiteSpace(c) && t == PercentEncoding.Encode(c)
  {
    if IsSpace(t) {
      var c :=
        if |t| == 1 then t[0] as char
        else if |t| == 2 then t[1] as char
        else if t[0] == 0xE1 then '\U{1680}'
        else if t[0] == 0xE3 then '\U{3000}'
        else if t[1] == 0x81 then '\U{205F}'
        else (0x2000 + t[2] as int - 0x80) as char;
      assert t == PercentEncoding.Encode(c);
      SpaceOfChar(c);
    }
    if c :| WhiteSpace(c) && t == PercentEncoding.Encode(c) {
      SpaceOfChar(c);
    }
  }

  const UNICODE: Space := t => IsSpace(t)

  predicate EndsIn(space: Space, s: Bytes, k: nat) {
    k <= |s| && space(s[|s| - k..])
  }

  /** The length of the white space character at the end, or 0. */
  function SpaceAtEnd(space: Space, s: Bytes): (k: nat)
    ensures k <= |s|
  {
    if EndsIn(space, s, 1) then 1 else if EndsIn(space, s, 2) then 2 else if EndsIn(space, s, 3) then 3 else 0
  }

  function TrimRight(space: Space, s: Bytes): Bytes
    decreases |s|
  {
    if SpaceAtEnd(space, s) == 0 then s else TrimRight(space, s[..|s| - SpaceAtEnd(space, s)])
  }

  /** White space characters and nothing else. */
  ghost predicate AllSpace(space: Space, s: Bytes)
    decreases |s|
  {
    s == [] || exists k: nat :: 1 <= k <= |s| && EndsIn(space, s, k) && AllSpace(space, s[..|s| - k])
  }

  /** No character is the end of another one, and none is longer than three bytes. */
  ghost predicate Unambiguous(space: Space) {
    && (forall t :: space(t) ==> 1 <= |t| <= 3)
    && (forall t, j: nat :: space(t) && EndsIn(space, t, j) && j > 0 ==> j == |t|)
  }

  lemma UnicodeIsUnambiguous()
    ensures Unambiguous(UNICODE)
  {}

  lemma NoShorterSpace(space: Space, s: Bytes, j: nat, k: nat)
    requires Unambiguous(space) && 0 < j < k && EndsIn(space, s, k)
    ensures !EndsIn(space, s, j)
  {
    var t := s[|s| - k..];
    assert s[|s| - j..] == t[|t| - j..];
    assert !EndsIn(space, t, j);
  }

  lemma SpaceIsUnambiguous(space: Space, s: Bytes, k: nat)
    requires Unambiguous(space) && k > 0 && EndsIn(space, s, k)
    ensures SpaceAtEnd(space, s) == k
  {
    if k > 1 { NoShorterSpace(space, s, 1, k); }
    if k > 2 { NoShorterSpace(space, s, 2, k); }
  }

  lemma EndsAlike(space: Space, r: Bytes, w: Bytes, k: nat)
    requires k <= |w|
    ensures EndsIn(space, r + w, k) <==> EndsIn(space, w, k)
  {
    assert (r + w)[|r + w| - k..] == w[|w| - k..];
  }

  lemma SpaceIsTrimmed(space: Space, r: Bytes, w: Bytes, k: nat)
    requires Unambiguous(space) && 0 < k <= |w| && EndsIn(space, w, k)
    ensures TrimRight(space, r + w) == TrimRight(space, r + w[..|w| - k])
  {
    EndsAlike(space, r, w, k);
    SpaceIsUnambiguous(space, r + w, k);
    assert (r + w)[..|r + w| - k] == r + w[..|w| - k];
  }

  lemma {:induction false} TrimRightRemovesSpaces(space: Space, r: Bytes, w: Bytes)
    requires Unambiguous(space) && AllSpace(space, w) && SpaceAtEnd(space, r) == 0
    ensures TrimRight(space, r + w) == r
    decreases |w|
  {
    if w == [] {
      assert r + w == r;
    } else {
      var k: nat :| 1 <= k <= |w| && EndsIn(space, w, k) && AllSpace(space, w[..|w| - k]);
      SpaceIsTrimmed(space, r, w, k);
      TrimRightRemovesSpaces(space, r, w[..|w| - k]);
    }
  }

  lemma OneMoreSpace(space: Space, w: Bytes, t: Bytes)
    requires AllSpace(space, w) && space(t) && t != []
    ensures AllSpace(space, w + t)
  {
    assert (w + t)[|w|..] == t && (w + t)[..|w|] == w;
    assert EndsIn(space, w + t, |t|);
  }

  /** One step of trimming. */
  lemma OneSpaceTrimmed(space: Space, s: Bytes) returns (s': Bytes, t: Bytes)
    requires SpaceAtEnd(space, s) > 0
    ensures s == s' + t && space(t) && |t| > 0 && TrimRight(space, s) == TrimRight(space, s')
  {
    var k := SpaceAtEnd(space, s);
    s', t := s[..|s| - k], s[|s| - k..];
  }

  /** `r` is `s` without the white space `w` at its end. */
  ghost predicate Splits(space: Space, s: Bytes, r: Bytes, w: Bytes) {
    s == r + w && AllSpace(space, w) && SpaceAtEnd(space, r) == 0
  }

  lemma {:induction false} TrimRightSplits(space: Space, s: Bytes) returns (w: Bytes)
    ensures Splits(space, s, TrimRight(space, s), w)
    decreases |s|
  {
    if SpaceAtEnd(space, s) == 0 {
      w := [];
    } else {
      var s', t := OneSpaceTrimmed(space, s);
      var w' := TrimRightSplits(space, s');
      OneMoreSpace(space, w', t);
      Associative(TrimRight(space, s'), w', t);
      w := w' + t;
    }
  }

  /** Trimming removes white space characters at the end, any mix of them, as long as there is one. */
  lemma TrimRightIff(s: Bytes, r: Bytes)
    ensures r == TrimRight(UNICODE, s) <==> exists w :: Splits(UNICODE, s, r, w)
  {
    UnicodeIsUnambiguous();
    var w := TrimRightSplits(UNICODE, s);
    if exists w :: Splits(UNICODE, s, r, w) {
      var w :| Splits(UNICODE, s, r, w);
      TrimRightRemovesSpaces(UNICODE, r, w);
    }
  }

  // ---------------------------------------------------------------- the writer

  /** One entry for each line that is not blank. */
  ghost function Entries(space: Space, lines: seq<Bytes>): seq<Bytes> {
    if lines == [] then []
    else (if TrimRight(space, lines[0]) != [] then [TrimRight(space, lines[0])] else []) + Entries(space, lines[1..])
  }

  lemma {:induction false} EntriesOfMore(space: Space, a: seq<Bytes>, b: seq<Bytes>)
    ensures Entries(space, a + b) == Entries(space, a) + Entries(space, b)
    decreases |a|
  {
    if a == [] {
      assert a + b == b;
    } else {
      assert (a + b)[1..] == a[1..] + b;
      EntriesOfMore(space, a[1..], b);
    }
  }

  /** The entries logged and the unfinished line. */
  datatype Output = Output(log: seq<Bytes>, buffer: Bytes)

  const NOTHING := Output([], [])

  /** Bytes continue the unfinished line; every line they finish is logged. */
  ghost function Written(space: Space, o: Output, p: Bytes): Output {
    Output(o.log + Entries(space, Lines(o.buffer + p)), Rest(o.buffer + p))
  }

  ghost function Closed(o: Output): Output {
    Output(o.log + (if o.buffer != [] then [o.buffer] else []), [])
  }

  lemma OneLineWritten(space: Space, o: Output, a: Bytes, p: Bytes)
    requires LF !in o.buffer && LF !in a
    ensures Written(space, o, a + [LF] + p) == Written(space, Output(o.log + Entries(space, [o.buffer + a]), []), p)
  {
    var line := o.buffer + a;
    assert o.buffer + (a + [LF] + p) == line + [LF] + p;
    assert [] + p == p;
    FirstLine(line, p);
    EntriesOfMore(space, [line], Lines(p));
    Associative(o.log, Entries(space, [line]), Entries(space, Lines(p)));
  }

  lemma NoLineWritten(space: Space, o: Output, p: Bytes)
    requires LF !in o.buffer && LF !in p
    ensures Written(space, o, p) == Output(o.log, o.buffer + p)
  {
    assert o.log + [] == o.log;
  }

  class Writer {
    var buffer: Bytes
    var log: seq<Bytes>

    ghost predicate Valid()
      reads this
    {
      LF !in buffer
    }

    ghost function Out(): Output
      reads this
    {
      Output(log, buffer)
    }

    constructor ()
      ensures Valid() && Out() == NOTHING
    {
      buffer, log := [], [];
    }

    method Write(p: Bytes) returns (n: nat)
      requires Valid()
      modifies this
      ensures Valid() && n == |p|
      ensures Out() == Written(UNICODE, old(Out()), p)
    {
      n := 0;
      var left := p;
      while true
        invariant Valid() && n + |left| == |p|
        invariant Written(UNICODE, Out(), left) == Written(UNICODE, old(Out()), p)
        decreases |left|
      {
        if |left| == 0 {
          NoLineWritten(UNICODE, Out(), left);
          assert buffer + left == buffer;
          return;
        }
        var i := IndexByte(left, LF);
        if i == |left| {
          NoLineWritten(UNICODE, Out(), left);
          buffer := buffer + left;
          return n + |left|;
        }
        var (a, rest) := (left[..i], left[i + 1..]);
        assert left == a + [LF] + rest;
        OneLineWritten(UNICODE, Out(), a, rest);
        buffer := buffer + a;
        left := rest;
        n := n + i + 1;
        LogLine();
      }
    }

    /** Logs the buffer as a line unless it is blank, and resets it. */
    method LogLine()
      modifies this
      ensures Out() == Output(old(log) + Entries(UNICODE, [old(buffer)]), [])
    {
      var line := TrimRight(UNICODE, buffer);
      if |line| > 0 {
        log := log + [line];
      }
      buffer := [];
    }

    method Close()
      requires Valid()
      modifies this
      ensures Valid() && Out() == Closed(old(Out()))
    {
      if |buffer| > 0 {
        log := log + [buffer];
        buffer := [];
      }
    }
  }

  // ---------------------------------------------------------------- chunking

  /** Two writes leave what one write of all their bytes leaves. */
  lemma WriteTwice(space: Space, o: Output, p: Bytes, q: Bytes)
    ensures Written(space, Written(space, o, p), q) == Written(space, o, p + q)
  {
    var s := o.buffer + p;
    assert o.buffer + (p + q) == s + q;
    LinesOfMore(s, q);
    EntriesOfMore(space, Lines(s), Lines(Rest(s) + q));
    Associative(o.log, Entries(space, Lines(s)), Entries(space, Lines(Rest(s) + q)));
  }

  ghost function WriteAll(space: Space, o: Output, chunks: seq<Bytes>): Output
    decreases |chunks|
  {
    if chunks == [] then o else WriteAll(space, Written(space, o, chunks[0]), chunks[1..])
  }

  ghost function Concat(chunks: seq<Bytes>): Bytes {
    if chunks == [] then [] else chunks[0] + Concat(chunks[1..])
  }

  /** However a stream is cut into chunks, the log and the buffer depend only on the bytes of the stream. */
  lemma {:induction false} ChunkingIndependence(space: Space, o: Output, chunks: seq<Bytes>)
    requires LF !in o.buffer
    ensures WriteAll(space, o, chunks) == Written(space, o, Concat(chunks))
    decreases |chunks|
  {
    if chunks == [] {
      assert o.buffer + [] == o.buffer;
    } else {
      ChunkingIndependence(space, Written(space, o, chunks[0]), chunks[1..]);
      WriteTwice(space, o, chunks[0], Concat(chunks[1..]));
    }
  }

  lemma TextWritten(space: Space, lines: seq<Bytes>, rest: Bytes)
    requires LF !in rest && (forall l :: l in lines ==> LF !in l)
    ensures Written(space, NOTHING, Join(lines) + rest) == Output(Entries(space, lines), rest)
  {
    var text := Join(lines) + rest;
    assert NOTHING.buffer + text == text;
    assert NOTHING.log + Entries(space, lines) == Entries(space, lines);
    LinesOfJoin(lines, rest);
  }

  /** A text of lines and an unterminated rest, in any chunks, is logged as its trimmed lines that are not blank,
      and then the rest as it is. */
  lemma LoggedIsText(space: Space, chunks: seq<Bytes>, lines: seq<Bytes>, rest: Bytes)
    requires LF !in rest && (forall l :: l in lines ==> LF !in l) && Concat(chunks) == Join(lines) + rest
    ensures Closed(WriteAll(space, NOTHING, chunks)).log == Entries(space, lines) + (if rest != [] then [rest] else [])
  {
    ChunkingIndependence(space, NOTHING, chunks);
    TextWritten(space, lines, rest);
  }
}
