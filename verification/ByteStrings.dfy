/** Byte strings and how they break into lines. */
module ByteStrings {
  newtype byte = x: int | 0 <= x < 256

  type Bytes = seq<byte>

  const LF: byte := 10
  const CR: byte := 13
  const TAB: byte := 9
  const SPACE: byte := 32
  const COLON: byte := 58

  lemma Associative<T>(a: seq<T>, b: seq<T>, c: seq<T>)
    ensures a + b + c == a + (b + c)
  {}

  predicate IsFirstIndex(s: Bytes, c: byte, i: nat) {
    i <= |s| && (forall k :: 0 <= k < i ==> s[k] != c) && (i < |s| ==> s[i] == c)
  }

  /** The index of the first `c`, or the length when there is none. */
  method IndexByte(s: Bytes, c: byte) returns (i: nat)
    ensures IsFirstIndex(s, c, i)
  {
    i := 0;
    while i < |s| && s[i] != c
      invariant i <= |s| && forall k :: 0 <= k < i ==> s[k] != c
    {
      i := i + 1;
    }
  }

  lemma {:induction false} FirstIndexExists(s: Bytes, c: byte)
    ensures exists i: nat :: IsFirstIndex(s, c, i)
  {
    if s == [] || s[0] == c {
      assert IsFirstIndex(s, c, 0);
    } else {
      FirstIndexExists(s[1..], c);
      var i: nat :| IsFirstIndex(s[1..], c, i);
      assert forall k :: 0 < k < |s| ==> s[k] == s[1..][k - 1];
      assert IsFirstIndex(s, c, i + 1);
    }
  }

  ghost function FirstIndex(s: Bytes, c: byte): (i: nat)
    ensures IsFirstIndex(s, c, i)
  {
    FirstIndexExists(s, c);
    var i: nat :| IsFirstIndex(s, c, i);
    i
  }

  lemma FirstIndexIsUnique(s: Bytes, c: byte, i: nat)
    requires IsFirstIndex(s, c, i)
    ensures FirstIndex(s, c) == i
  {}

  lemma FirstIndexOf(a: Bytes, c: byte, b: Bytes)
    requires c !in a
    ensures FirstIndex(a + [c] + b, c) == |a|
    ensures FirstIndex(a, c) == |a|
  {
    FirstIndexIsUnique(a + [c] + b, c, |a|);
    FirstIndexIsUnique(a, c, |a|);
  }

  /** The lines that an LF ends, without it. */
  ghost function Lines(s: Bytes): (r: seq<Bytes>)
    ensures LF !in s ==> r == []
    decreases |s|
  {
    var i := FirstIndex(s, LF);
    if i == |s| then [] else [s[..i]] + Lines(s[i + 1..])
  }

  /** What follows the last LF. */
  ghost function Rest(s: Bytes): (r: Bytes)
    ensures LF !in r && |r| <= |s|
    ensures LF !in s ==> r == s
    decreases |s|
  {
    var i := FirstIndex(s, LF);
    if i == |s| then (assert s == s[..i]; s) else Rest(s[i + 1..])
  }

  lemma FirstLine(a: Bytes, s: Bytes)
    requires LF !in a
    ensures Lines(a + [LF] + s) == [a] + Lines(s) && Rest(a + [LF] + s) == Rest(s)
  {
    var t := a + [LF] + s;
    FirstIndexOf(a, LF, s);
    assert t[..|a|] == a && t[|a| + 1..] == s;
  }

  /** More bytes continue the unfinished line. */
  lemma {:induction false} LinesOfMore(s: Bytes, t: Bytes)
    ensures Lines(s + t) == Lines(s) + Lines(Rest(s) + t)
    ensures Rest(s + t) == Rest(Rest(s) + t)
    decreases |s|
  {
    var i := FirstIndex(s, LF);
    if i < |s| {
      var (a, s') := (s[..i], s[i + 1..]);
      assert s == a + [LF] + s';
      assert s + t == a + [LF] + (s' + t);
      FirstLine(a, s');
      FirstLine(a, s' + t);
      LinesOfMore(s', t);
    }
  }

  ghost function Join(lines: seq<Bytes>): Bytes {
    if lines == [] then [] else lines[0] + [LF] + Join(lines[1..])
  }

  /** Lines and rest invert joining. */
  lemma {:induction false} LinesOfJoin(lines: seq<Bytes>, rest: Bytes)
    requires LF !in rest && forall l :: l in lines ==> LF !in l
    ensures Lines(Join(lines) + rest) == lines && Rest(Join(lines) + rest) == rest
  {
    if lines == [] {
      assert Join(lines) + rest == rest;
    } else {
      assert Join(lines) + rest == lines[0] + [LF] + (Join(lines[1..]) + rest);
      FirstLine(lines[0], Join(lines[1..]) + rest);
      LinesOfJoin(lines[1..], rest);
    }
  }
}
