/** The probe grid: the integer offsets `(latDiff, lngDiff)` visited by the
    two nested `range(-hop_count, hop_count)` loops, latitude outermost. */
module Grid {
  import opened Places

  /** The grid half-width the crawler uses. */
  const HopCount: nat := 5

  /** Python's `range(lo, hi)`. */
  function Range(lo: int, hi: int): (r: seq<int>)
    ensures |r| == if lo < hi then hi - lo else 0
    ensures forall i :: 0 <= i < |r| ==> r[i] == lo + i
  {
    if lo < hi then seq(hi - lo, i => lo + i) else []
  }

  /** One pass of the inner loop: the offsets of latitude row `lat`. */
  function Row(lat: int, lngs: seq<int>): (r: seq<Offset>)
    ensures |r| == |lngs|
    ensures forall j :: 0 <= j < |lngs| ==> r[j] == Offset(lat, lngs[j])
  {
    if lngs == [] then [] else [Offset(lat, lngs[0])] + Row(lat, lngs[1..])
  }

  /** The nested loops: every latitude row in turn. */
  function Product(lats: seq<int>, lngs: seq<int>): seq<Offset>
    decreases |lats|
  {
    if lats == [] then [] else Product(lats[..|lats| - 1], lngs) + Row(lats[|lats| - 1], lngs)
  }

  /** The probe offsets in the order the crawler visits them. */
  function GridOffsets(hopCount: int): seq<Offset>
  {
    Product(Range(-hopCount, hopCount), Range(-hopCount, hopCount))
  }

  predicate NoDuplicates<T(==)>(s: seq<T>)
  {
    forall i, j :: 0 <= i < j < |s| ==> s[i] != s[j]
  }

  lemma {:induction false} ProductLength(lats: seq<int>, lngs: seq<int>)
    ensures |Product(lats, lngs)| == |lats| * |lngs|
    decreases |lats|
  {
    if lats != [] {
      ProductLength(lats[..|lats| - 1], lngs);
      RowEnd(|lats| - 1, |lngs|);
    }
  }

  /** Row-major order: entry `i * |lngs| + j` pairs the i-th latitude with
      the j-th longitude. */
  lemma {:induction false} ProductAt(lats: seq<int>, lngs: seq<int>, i: nat, j: nat)
    requires i < |lats| && j < |lngs|
    ensures |Product(lats, lngs)| == |lats| * |lngs|
    ensures i * |lngs| + j < |lats| * |lngs|
    ensures Product(lats, lngs)[i * |lngs| + j] == Offset(lats[i], lngs[j])
    decreases |lats|
  {
    var n := |lngs|;
    var prefix := lats[..|lats| - 1];
    ProductLength(lats, lngs);
    ProductLength(prefix, lngs);
    IndexBound(i, j, |lats|, n);
    if i < |prefix| {
      ProductAt(prefix, lngs, i, j);
      assert prefix[i] == lats[i];
    }
  }

  lemma IndexBound(i: nat, j: nat, m: nat, n: nat)
    requires i < m && j < n
    ensures i * n + j < m * n
  {
    assert i * n <= (m - 1) * n;
  }

  lemma RowEnd(i: int, n: int)
    ensures i * n + n == (i + 1) * n
  {
  }

  lemma {:induction false} ProductMembers(lats: seq<int>, lngs: seq<int>, o: Offset)
    ensures o in Product(lats, lngs) <==> o.latDiff in lats && o.lngDiff in lngs
    decreases |lats|
  {
    if lats != [] {
      var prefix := lats[..|lats| - 1];
      var last := lats[|lats| - 1];
      ProductMembers(prefix, lngs, o);
      assert lats == prefix + [last];
      if o in Row(last, lngs) {
        var j :| 0 <= j < |lngs| && Row(last, lngs)[j] == o;
      }
    }
  }

  lemma ConcatNoDuplicates<T>(a: seq<T>, b: seq<T>)
    requires NoDuplicates(a) && NoDuplicates(b)
    requires forall x :: x in a ==> x !in b
    ensures NoDuplicates(a + b)
  {
    forall i, j | 0 <= i < j < |a + b| ensures (a + b)[i] != (a + b)[j] {
      if i < |a| && j >= |a| {
        assert (a + b)[i] in a && (a + b)[j] in b;
      }
    }
  }

  lemma {:induction false} ProductNoDuplicates(lats: seq<int>, lngs: seq<int>)
    requires NoDuplicates(lats) && NoDuplicates(lngs)
    ensures NoDuplicates(Product(lats, lngs))
    decreases |lats|
  {
    if lats != [] {
      var prefix := lats[..|lats| - 1];
      var last := lats[|lats| - 1];
      var row := Row(last, lngs);
      assert NoDuplicates(prefix);
      ProductNoDuplicates(prefix, lngs);
      forall x | x in Product(prefix, lngs) ensures x !in row {
        ProductMembers(prefix, lngs, x);
      }
      ConcatNoDuplicates(Product(prefix, lngs), row);
    }
  }

  /** `range(lo, hi + 1)` is `range(lo, hi)` followed by `hi`. */
  lemma RangeSnoc(lo: int, hi: int)
    requires lo <= hi
    ensures Range(lo, hi + 1) == Range(lo, hi) + [hi]
  {
    assert |Range(lo, hi + 1)| == |Range(lo, hi) + [hi]|;
  }

  /** Extending the inner loop by one longitude appends one offset. */
  lemma RowSnoc(lat: int, lngs: seq<int>, j: nat)
    requires j < |lngs|
    ensures Row(lat, lngs[..j + 1]) == Row(lat, lngs[..j]) + [Offset(lat, lngs[j])]
  {
    var a := Row(lat, lngs[..j + 1]);
    var b := Row(lat, lngs[..j]) + [Offset(lat, lngs[j])];
    assert |a| == |b|;
    forall k | 0 <= k < |a| ensures a[k] == b[k] {
      assert lngs[..j + 1][k] == lngs[k];
    }
  }

  // ----- The grid -----

  /** The grid with its lower bound named. */
  lemma GridRange(hopCount: int, lo: int)
    requires lo == -hopCount
    ensures GridOffsets(hopCount) == Product(Range(lo, hopCount), Range(lo, hopCount))
  {
  }

  /** The grid has `(2 * hopCount)^2` offsets. */
  lemma GridLength(hopCount: nat)
    ensures |GridOffsets(hopCount)| == (2 * hopCount) * (2 * hopCount)
  {
    var h: int := hopCount;
    var r := Range(-h, h);
    ProductLength(r, r);
  }

  /** The crawler's grid has 100 offsets. */
  lemma CrawlerGridLength()
    ensures |GridOffsets(HopCount)| == 100
  {
    GridLength(HopCount);
  }

  /** The offset at index `i * 2 * hopCount + j` is `(-hopCount + i, -hopCount + j)`, so
      latitude is the outer loop and both run in ascending order. */
  lemma GridOrder(hopCount: int, i: nat, j: nat)
    requires i < 2 * hopCount && j < 2 * hopCount
    ensures i * (2 * hopCount) + j < |GridOffsets(hopCount)| &&
            GridOffsets(hopCount)[i * (2 * hopCount) + j] == Offset(-hopCount + i, -hopCount + j)
  {
    var r := Range(-hopCount, hopCount);
    ProductAt(r, r, i, j);
  }

  /** The grid holds exactly the offsets in `[-hopCount, hopCount)^2`. */
  lemma GridMembers(hopCount: int, o: Offset)
    ensures o in GridOffsets(hopCount) <==>
            -hopCount <= o.latDiff < hopCount && -hopCount <= o.lngDiff < hopCount
  {
    var r := Range(-hopCount, hopCount);
    ProductMembers(r, r, o);
    if -hopCount <= o.latDiff < hopCount {
      assert r[o.latDiff + hopCount] == o.latDiff;
    }
    if -hopCount <= o.lngDiff < hopCount {
      assert r[o.lngDiff + hopCount] == o.lngDiff;
    }
  }

  /** No offset is visited twice. */
  lemma GridNoDuplicates(hopCount: int)
    ensures NoDuplicates(GridOffsets(hopCount))
  {
    var r := Range(-hopCount, hopCount);
    ProductNoDuplicates(r, r);
  }
}
