/** The lengths of the lines of a source text, and how they relate to the interceptor's lines. */
module LineLengths {
  import opened ByteStrings
  import opened HttpInterceptor

  /** A buffered reader over a string. */
  class Reader {
    var rest: Bytes

    constructor (source: Bytes)
      ensures rest == source
    {
      rest := source;
    }

    /** Reads up to and including the first delimiter, or everything when there is none. */
    method ReadString(delimiter: byte) returns (line: Bytes, eof: bool)
      modifies this
      ensures line + rest == old(rest)
      ensures eof <==> FirstIndex(old(rest), delimiter) == |old(rest)|
      ensures |line| == if eof then |old(rest)| else FirstIndex(old(rest), delimiter) + 1
    {
      var i := IndexByte(rest, delimiter);
      FirstIndexIsUnique(rest, delimiter, i);
      eof := i == |rest|;
      line, rest := if eof then rest else rest[..i + 1], if eof then [] else rest[i + 1..];
    }
  }

  /** The length of a line that an LF ends, without the CR that may precede the LF. */
  function LengthBeforeLF(line: Bytes): int {
    |line| - (if line != [] && line[|line| - 1] == CR then 1 else 0)
  }

  ghost function LengthsFrom(s: Bytes): seq<int>
    decreases |s|
  {
    var i := FirstIndex(s, LF);
    if i < |s| then [LengthBeforeLF(s[..i])] + LengthsFrom(s[i + 1..])
    else if s == [] then [] else [|s|]
  }

  /** An empty text has a single empty line. */
  ghost function LengthsOf(s: Bytes): seq<int> {
    if s == [] then [0] else LengthsFrom(s)
  }

  /** The length recorded for what one read returned. */
  method LengthOfRead(line: Bytes) returns (l: int)
    requires line != []
    ensures l == if line[|line| - 1] == LF then LengthBeforeLF(line[..|line| - 1]) else |line|
  {
    l := |line|;
    if line[l - 1] == LF {
      var drop := 1;
      if l >= 2 && line[l - 2] == CR {
        drop := 2;
      }
      l := l - drop;
    }
  }

  lemma LastRead(line: Bytes)
    requires FirstIndex(line, LF) == |line|
    ensures LengthsFrom(line) == if line == [] then [] else [|line|]
    ensures line != [] ==> line[|line| - 1] != LF
  {}

  lemma NextRead(s: Bytes, line: Bytes, rest: Bytes)
    requires s == line + rest && FirstIndex(s, LF) < |s| && |line| == FirstIndex(s, LF) + 1
    ensures line[|line| - 1] == LF && LengthsFrom(s) == [LengthBeforeLF(line[..|line| - 1])] + LengthsFrom(rest)
  {
    assert s[..|line| - 1] == line[..|line| - 1] && s[|line|..] == rest;
  }

  method GetLineLengths(source: Bytes) returns (lengths: seq<int>)
    ensures lengths == LengthsOf(source)
  {
    var reader := new Reader(source);
    lengths := [];
    while true
      invariant fresh(reader) && lengths + LengthsFrom(reader.rest) == LengthsFrom(source)
      decreases |reader.rest|
    {
      ghost var (s, before) := (reader.rest, lengths);
      var line, eof := reader.ReadString(LF);
      if eof {
        LastRead(s);
        assert line == s;
      } else {
        NextRead(s, line, reader.rest);
        Associative(before, [LengthBeforeLF(line[..|line| - 1])], LengthsFrom(reader.rest));
      }
      if |line| >= 1 {
        var l := LengthOfRead(line);
        lengths := lengths + [l];
      }
      if eof {
        break;
      }
    }
    if |lengths| == 0 {
      lengths := lengths + [0];
    }
  }

  // ---------------------------------------------------------------- agreement

  function Sizes(lines: seq<Bytes>): seq<int> {
    seq(|lines|, i requires 0 <= i < |lines| => |lines[i]|)
  }

  lemma {:induction false} SizesAre(s: Bytes)
    ensures LengthsFrom(s) == Sizes(LinesOf(s))
    decreases |s|
  {
    var i := FirstIndex(s, LF);
    if i < |s| {
      SizesAre(s[i + 1..]);
    }
  }

  /** The interceptor's splitter and the length counter see the same lines in every text but the empty one, which
      has no lines for the one and an empty line for the other. */
  lemma SplittersAgreeIff(s: Bytes)
    ensures LengthsOf(s) == Sizes(LinesOf(s)) <==> s != []
  {
    SizesAre(s);
  }

  // ---------------------------------------------------------------- conservation

  function Total(lengths: seq<int>): int {
    if lengths == [] then 0 else lengths[0] + Total(lengths[1..])
  }

  /** How often a CR is directly before an LF. */
  function CRLFs(s: Bytes): nat {
    if |s| < 2 then 0 else (if s[0] == CR && s[1] == LF then 1 else 0) + CRLFs(s[1..])
  }

  lemma {:induction false} CRLFsOfLine(a: Bytes, s: Bytes)
    requires LF !in a
    ensures CRLFs(a + [LF] + s) == |a| - LengthBeforeLF(a) + CRLFs(s)
    ensures CRLFs(a) == 0
  {
    var t := a + [LF] + s;
    if a == [] {
      assert t[1..] == s;
      assert |s| < 2 ==> CRLFs(s) == 0;
    } else {
      assert t[1..] == a[1..] + [LF] + s;
      CRLFsOfLine(a[1..], s);
    }
  }

  lemma CountsOfLine(a: Bytes, s: Bytes)
    requires LF !in a
    ensures multiset(a + [LF] + s)[LF] == 1 + multiset(s)[LF]
  {
    assert multiset(a)[LF] == 0;
    assert multiset(a + [LF] + s) == multiset(a) + multiset{LF} + multiset(s);
  }

  lemma {:induction false} LengthsConserveBytes(s: Bytes)
    ensures Total(LengthsFrom(s)) + multiset(s)[LF] + CRLFs(s) == |s|
    decreases |s|
  {
    var i := FirstIndex(s, LF);
    if i < |s| {
      var (a, rest) := (s[..i], s[i + 1..]);
      assert s == a + [LF] + rest;
      CRLFsOfLine(a, rest);
      CountsOfLine(a, rest);
      LengthsConserveBytes(rest);
    } else {
      CRLFsOfLine(s, []);
      assert multiset(s)[LF] == 0;
      assert LengthsFrom(s) == if s == [] then [] else [|s|];
    }
  }

  /** Every byte is in a line, is an LF, or is a CR directly before an LF. */
  lemma LengthsAddUp(s: Bytes)
    ensures Total(LengthsOf(s)) + multiset(s)[LF] + CRLFs(s) == |s|
  {
    LengthsConserveBytes(s);
  }
}
