/** Minute buckets: which minute boundary a timestamp is counted under. */
module LogBuckets {
  const BUCKET_NS: int := 60_000_000_000
  const I64_MIN: int := -0x8000_0000_0000_0000
  const I64_MAX: int := 0x7FFF_FFFF_FFFF_FFFF
  const TWO_64: int := 0x1_0000_0000_0000_0000

  type I64 = x: int | I64_MIN <= x <= I64_MAX

  /** Two's complement wrap-around. */
  function Wrap(x: int): I64 {
    (x - I64_MIN) % TWO_64 + I64_MIN
  }

  /** `bucket_end`, in 64-bit arithmetic: a saturating decrement, then wrapping operations. */
  function BucketEnd(ts: I64): I64 {
    var before := if ts == I64_MIN then ts else ts - 1;
    Wrap(Wrap(before / BUCKET_NS * BUCKET_NS) + BUCKET_NS)
  }

  /** The smallest minute boundary that is not before `ts`. */
  function Boundary(ts: int): int {
    (ts - 1) / BUCKET_NS * BUCKET_NS + BUCKET_NS
  }

  lemma BoundaryIs(ts: int, b: int)
    ensures b == Boundary(ts) <==> b % BUCKET_NS == 0 && b - BUCKET_NS < ts <= b
  {
    var q := (ts - 1) / BUCKET_NS;
    assert Boundary(ts) == (q + 1) * BUCKET_NS;
    if b % BUCKET_NS == 0 && b - BUCKET_NS < ts <= b {
      assert b == b / BUCKET_NS * BUCKET_NS;
    }
  }

  /** The largest boundary a 64-bit integer can hold. */
  const LAST_BOUNDARY: int := 9_223_372_020_000_000_000

  lemma WrapFits(x: int, y: I64)
    requires x == y || x == y + TWO_64 || x == y - TWO_64
    ensures Wrap(x) == y
  {
  }

  /** `bucket_end` answers the boundary exactly when it can be represented. */
  lemma BucketEndExact(ts: I64)
    ensures BucketEnd(ts) == Boundary(ts) <==> ts <= LAST_BOUNDARY
  {
    BoundaryIs(ts, Boundary(ts));
    BoundaryIs(LAST_BOUNDARY, LAST_BOUNDARY);
    var before := if ts == I64_MIN then ts else ts - 1;
    var start := before / BUCKET_NS * BUCKET_NS;
    assert I64_MIN / BUCKET_NS == (I64_MIN - 1) / BUCKET_NS;
    assert start + BUCKET_NS == Boundary(ts);
    if start < I64_MIN {
      WrapFits(start, start + TWO_64);
      WrapFits(start + TWO_64 + BUCKET_NS, start + BUCKET_NS);
    } else {
      WrapFits(start, start);
      if ts <= LAST_BOUNDARY {
        assert Boundary(ts) <= LAST_BOUNDARY;
        WrapFits(start + BUCKET_NS, start + BUCKET_NS);
      } else {
        assert Boundary(ts) > I64_MAX;
      }
    }
  }

  /** The last 16.8 seconds of the representable range wrap to the distant past. */
  lemma BucketEndWraps()
    ensures BucketEnd(I64_MAX) < I64_MAX < Boundary(I64_MAX)
  {
  }

  /** `minute`, the bucket number summaries count lines under, computed in 128 bits. */
  function Minute(ts: int): I64 {
    var bucket := (ts - 1) / BUCKET_NS + 1;
    if I64_MIN <= bucket <= I64_MAX then bucket else I64_MAX
  }

  /** Segment summaries and rollups number the same buckets. */
  lemma MinuteIsBoundary(ts: I64)
    ensures Minute(ts) * BUCKET_NS == Boundary(ts)
    ensures ts <= LAST_BOUNDARY <==> Minute(ts) * BUCKET_NS == BucketEnd(ts)
  {
    BucketEndExact(ts);
  }

  /** A window between two boundaries holds exactly the lines of the buckets between them. */
  lemma WindowIsBuckets(first: int, last: int, ts: I64)
    requires first % BUCKET_NS == 0 && last % BUCKET_NS == 0 && last <= LAST_BOUNDARY
    ensures first - BUCKET_NS + 1 <= ts <= last <==> ts <= LAST_BOUNDARY && first <= BucketEnd(ts) <= last
  {
    BucketEndExact(ts);
    BoundaryIs(ts, Boundary(ts));
    if last < Boundary(ts) {
      Apart(last, Boundary(ts));
    }
    if Boundary(ts) < first {
      Apart(Boundary(ts), first);
    }
  }

  lemma Apart(a: int, b: int)
    requires a % BUCKET_NS == 0 && b % BUCKET_NS == 0 && a < b
    ensures b - a >= BUCKET_NS
  {
    assert a == a / BUCKET_NS * BUCKET_NS && b == b / BUCKET_NS * BUCKET_NS;
  }

  /** The bucket of `ts` lies wholly in the window. */
  predicate Whole(start: int, end: int, ts: int) {
    start <= Boundary(ts) - BUCKET_NS + 1 && Boundary(ts) <= end
  }

  predicate Aligned(start: int, end: int) {
    start % BUCKET_NS == 1 && end % BUCKET_NS == 0
  }

  /** A window holds whole buckets only, exactly when it is empty or starts and ends on boundaries. */
  lemma WholeIffAligned(start: int, end: int)
    ensures (forall ts :: start <= ts <= end ==> Whole(start, end, ts)) <==> start > end || Aligned(start, end)
    ensures forall ts :: Whole(start, end, ts) ==> start <= ts <= end
  {
    forall ts ensures Whole(start, end, ts) ==> start <= ts <= end {
      BoundaryIs(ts, Boundary(ts));
    }
    if Aligned(start, end) {
      forall ts | start <= ts <= end ensures Whole(start, end, ts) {
        AlignedWhole(start, end, ts);
      }
    } else if start <= end {
      BoundaryIs(start, Boundary(start));
      BoundaryIs(end, Boundary(end));
      assert !Whole(start, end, start) || !Whole(start, end, end);
    }
  }

  lemma AlignedWhole(start: int, end: int, ts: int)
    requires Aligned(start, end) && start <= ts <= end
    ensures Whole(start, end, ts)
  {
    BoundaryIs(ts, Boundary(ts));
    if Boundary(ts) > end {
      Apart(end, Boundary(ts));
    }
    var first := start - 1;
    assert first % BUCKET_NS == 0;
    if Boundary(ts) - BUCKET_NS < first {
      assert Boundary(ts) <= first by {
        if Boundary(ts) > first {
          Apart(first, Boundary(ts));
        }
      }
    }
  }

  /** A timestamp past the last boundary gets a bucket that is no boundary at all. */
  lemma PastLast(ts: I64)
    ensures BucketEnd(ts) % BUCKET_NS == 0 <==> ts <= LAST_BOUNDARY
  {
    BucketEndExact(ts);
    BoundaryIs(ts, Boundary(ts));
    if ts > LAST_BOUNDARY {
      BoundaryIs(ts, LAST_BOUNDARY + BUCKET_NS);
      WrapFits(LAST_BOUNDARY, LAST_BOUNDARY);
      WrapFits(LAST_BOUNDARY + BUCKET_NS, LAST_BOUNDARY + BUCKET_NS - TWO_64);
    }
  }
}
