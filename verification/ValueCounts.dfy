/** Counts of integer values. */
module ValueCounts {
  import opened Options
  import opened Ordering
  import opened Sums
  import ByteStrings
  import LineLengths

  /** How often each value occurs. */
  type Counts = map<int, int>

  datatype Pair = Pair(value: int, count: int)

  // ---------------------------------------------------------------- counting

  ghost predicate CountsData(vc: Counts, data: seq<int>) {
    (forall v :: v in vc <==> v in data) && forall v :: v in vc ==> vc[v] == multiset(data)[v]
  }

  method Count(data: seq<int>) returns (vc: Counts)
    ensures CountsData(vc, data)
  {
    vc := map[];
    for i := 0 to |data|
      invariant CountsData(vc, data[..i])
    {
      var value := data[i];
      assert data[..i + 1] == data[..i] + [value];
      vc := vc[value := (if value in vc then vc[value] else 0) + 1];
    }
    assert data[..|data|] == data;
  }

  /** Each value times its count. */
  function Weighted(vc: Counts): Counts {
    map v | v in vc :: v * vc[v]
  }

  function OneMore(vc: Counts, x: int): Counts {
    vc[x := (if x in vc then vc[x] else 0) + 1]
  }

  lemma OneMoreCounted(data: seq<int>, x: int, vc: Counts, was: Counts)
    requires CountsData(vc, [x] + data) && CountsData(was, data)
    ensures vc == OneMore(was, x)
  {
    assert multiset([x] + data) == multiset{x} + multiset(data);
    forall v ensures v in vc <==> v in OneMore(was, x) {
      assert v in [x] + data <==> v == x || v in data;
    }
    forall v | v in vc ensures vc[v] == OneMore(was, x)[v] {
      assert v !in data ==> multiset(data)[v] == 0;
    }
  }

  lemma WeightOfUpdate(vc: Counts, x: int, n: int)
    ensures Sum(Weighted(vc[x := n])) == Sum(Weighted(vc)) - (if x in vc then x * vc[x] else 0) + x * n
  {
    assert Weighted(vc[x := n]) == Weighted(vc)[x := x * n];
    SumUpdate(Weighted(vc), x, x * n);
  }

  lemma Distribute(x: int, n: int)
    ensures x * (n + 1) == x * n + x
  {}

  lemma WeightOfOneMore(was: Counts, x: int)
    ensures Sum(Weighted(OneMore(was, x))) == Sum(Weighted(was)) + x
  {
    var n := if x in was then was[x] else 0;
    WeightOfUpdate(was, x, n + 1);
    Distribute(x, n);
  }

  lemma {:induction false} CountsExist(data: seq<int>) returns (vc: Counts)
    ensures CountsData(vc, data)
  {
    vc := map v | v in data :: multiset(data)[v];
  }

  /** Counting keeps the total: values times counts add up to the sum of the data. */
  lemma {:induction false} CountKeepsTotal(data: seq<int>, vc: Counts)
    requires CountsData(vc, data)
    ensures Sum(Weighted(vc)) == LineLengths.Total(data)
    decreases |data|
  {
    if data == [] {
      assert forall v :: v !in vc;
      assert vc == map[] && Weighted(vc) == map[];
    } else {
      var was := CountsExist(data[1..]);
      CountKeepsTotal(data[1..], was);
      assert data == [data[0]] + data[1..];
      OneMoreCounted(data[1..], data[0], vc, was);
      WeightOfOneMore(was, data[0]);
    }
  }

  /** For a text: the counted line lengths account for every byte. */
  lemma LineLengthCounts(s: ByteStrings.Bytes, vc: Counts)
    requires CountsData(vc, LineLengths.LengthsOf(s))
    ensures Sum(Weighted(vc)) + multiset(s)[ByteStrings.LF] + LineLengths.CRLFs(s) == |s|
  {
    CountKeepsTotal(LineLengths.LengthsOf(s), vc);
    LineLengths.LengthsAddUp(s);
  }

  // ---------------------------------------------------------------- pairs

  ghost predicate Increasing(pairs: seq<Pair>) {
    forall i, j :: 0 <= i < j < |pairs| ==> pairs[i].value < pairs[j].value
  }

  ghost predicate NoRepeats(pairs: seq<Pair>) {
    forall i, j :: 0 <= i < j < |pairs| ==> pairs[i].value != pairs[j].value
  }

  /** The pairs are the entries of the map. */
  ghost predicate Lists(pairs: seq<Pair>, vc: Counts) {
    && (forall p :: p in pairs ==> p.value in vc && vc[p.value] == p.count)
    && forall v :: v in vc ==> Pair(v, vc[v]) in pairs
  }

  const LESS: (int, int) -> bool := (x, y) => x < y

  lemma LessIsLinear()
    ensures Linear(LESS)
  {
    assert TotalOrder(LESS);
    TotalIsLinear(LESS);
  }

  method ToPairs(vc: Counts) returns (pairs: seq<Pair>)
    ensures Increasing(pairs) && Lists(pairs, vc)
  {
    LessIsLinear();
    var values := Sort(LESS, vc.Keys);
    pairs := [];
    for i := 0 to |values|
      invariant |pairs| == i && forall k :: 0 <= k < i ==> pairs[k] == Pair(values[k], vc[values[k]])
    {
      pairs := pairs + [Pair(values[i], vc[values[i]])];
    }
    SortedPairs(vc, values, pairs);
  }

  lemma SortedPairs(vc: Counts, values: seq<int>, pairs: seq<Pair>)
    requires Ascending(LESS, values) && |pairs| == |values| && forall v :: v in values <==> v in vc
    requires forall k :: 0 <= k < |values| ==> values[k] in vc && pairs[k] == Pair(values[k], vc[values[k]])
    ensures Increasing(pairs) && Lists(pairs, vc)
  {
    forall i, j | 0 <= i < j < |pairs| ensures pairs[i].value < pairs[j].value {
      assert LESS(values[i], values[j]);
    }
    forall v | v in vc ensures Pair(v, vc[v]) in pairs {
      assert v in values;
      var k :| 0 <= k < |values| && values[k] == v;
      assert pairs[k] == Pair(v, vc[v]);
    }
  }

  /** Fails at the first value that occurred before. */
  method FromPairs(pairs: seq<Pair>) returns (vc: Option<Counts>)
    ensures vc.Some? <==> NoRepeats(pairs)
    ensures vc.Some? ==> Lists(pairs, vc.value)
  {
    var data: Counts := map[];
    for i := 0 to |pairs|
      invariant NoRepeats(pairs[..i]) && Lists(pairs[..i], data)
    {
      var item := pairs[i];
      if item.value in data {
        var p := Pair(item.value, data[item.value]);
        assert p in pairs[..i];
        return None;
      }
      assert pairs[..i + 1] == pairs[..i] + [item];
      data := data[item.value := item.count];
    }
    assert pairs[..|pairs|] == pairs;
    return Some(data);
  }

  class ValueCounts {
    var data: Counts

    constructor ()
      ensures data == map[]
    {
      data := map[];
    }

    /** Deserialisation of a list of pairs: existing counts are replaced, or kept when it fails. */
    method UnmarshalPairs(pairs: seq<Pair>) returns (ok: bool)
      modifies this
      ensures ok <==> NoRepeats(pairs)
      ensures if ok then Lists(pairs, data) else data == old(data)
    {
      var vc := FromPairs(pairs);
      if vc.None? {
        return false;
      }
      data := vc.value;
      return true;
    }
  }

  // ---------------------------------------------------------------- round trips

  function Values(pairs: seq<Pair>): seq<int> {
    seq(|pairs|, i requires 0 <= i < |pairs| => pairs[i].value)
  }

  lemma ValuesAreSorted(pairs: seq<Pair>, vc: Counts)
    requires Lists(pairs, vc) && Increasing(pairs)
    ensures Linear(LESS) && Values(pairs) == Sort(LESS, vc.Keys)
  {
    LessIsLinear();
    var values := Values(pairs);
    forall v ensures v in values <==> v in vc.Keys {
      if v in values {
        var i :| 0 <= i < |values| && values[i] == v;
        assert pairs[i] in pairs;
      }
      if v in vc {
        var i :| 0 <= i < |pairs| && pairs[i] == Pair(v, vc[v]);
        assert values[i] == v;
      }
    }
    SortUnique(LESS, vc.Keys, values);
  }

  lemma SamePairs(p: seq<Pair>, q: seq<Pair>, vc: Counts)
    requires Lists(p, vc) && Lists(q, vc) && Values(p) == Values(q)
    ensures p == q
  {
    assert |Values(p)| == |p| && |Values(q)| == |q|;
    forall i | 0 <= i < |p| ensures p[i] == q[i] {
      assert Values(p)[i] == p[i].value && Values(q)[i] == q[i].value;
      assert p[i] in p && q[i] in q;
    }
  }

  /** What `ToPairs` returns is determined by the counts. */
  lemma ListedInOneOrder(p: seq<Pair>, q: seq<Pair>, vc: Counts)
    requires Lists(p, vc) && Lists(q, vc) && Increasing(p) && Increasing(q)
    ensures p == q
  {
    ValuesAreSorted(p, vc);
    ValuesAreSorted(q, vc);
    SamePairs(p, q, vc);
  }

  lemma ListsOneMap(pairs: seq<Pair>, a: Counts, b: Counts)
    requires Lists(pairs, a) && Lists(pairs, b)
    ensures a == b
  {
    forall v | v in a ensures v in b && b[v] == a[v] {
      assert Pair(v, a[v]) in pairs;
    }
    forall v | v in b ensures v in a {
      assert Pair(v, b[v]) in pairs;
    }
  }

  /** `FromPairs` undoes `ToPairs`, whatever the counts are. */
  lemma PairsRoundTrip(vc: Counts, pairs: seq<Pair>, back: Option<Counts>)
    requires Increasing(pairs) && Lists(pairs, vc)
    requires if NoRepeats(pairs) then back.Some? && Lists(pairs, back.value) else back.None?
    ensures back == Some(vc)
  {
    ListsOneMap(pairs, vc, back.value);
  }

  /** `ToPairs` undoes `FromPairs` exactly when the pairs were increasing. */
  lemma CountsRoundTripIff(pairs: seq<Pair>, vc: Counts, again: seq<Pair>)
    requires NoRepeats(pairs) && Lists(pairs, vc)
    requires Increasing(again) && Lists(again, vc)
    ensures again == pairs <==> Increasing(pairs)
  {
    if Increasing(pairs) {
      ListedInOneOrder(pairs, again, vc);
    }
  }
}
