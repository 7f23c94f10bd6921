/**
 * How the variant caller splits one contig's range among its worker threads: the range
 * [start, end] is cut into numThreads consecutive segments of `stride` positions each, the last
 * segment running to the end of the range.
 */
module VariantCallers {
  import opened Wrappers

  /** The closed position range [start, end] one worker scans. */
  datatype Segment = Segment(start: int, end: int)

  /** Java's `/` on `long`: the quotient rounded toward zero. */
  function TruncDiv(a: int, b: int): (q: int)
    requires b != 0
    ensures a >= 0 && b > 0 ==> q == a / b
    ensures b > 0 ==> (if a >= 0 then q * b <= a < q * b + b else q * b - b < a <= q * b)
  {
    var abs := (if a < 0 then -a else a) / (if b < 0 then -b else b);
    if (a < 0) != (b < 0) then -abs else abs
  }

  /** The start position: the configured one, or 1 when none is set. */
  function StartContigPos(startPosition: Option<int>): (pos: int)
    ensures startPosition.None? ==> pos == 1
    ensures startPosition.Some? ==> pos == startPosition.value
  {
    if startPosition.None? then 1 else startPosition.value
  }

  /** The end position: the configured one, or the contig's upper bound when none is set. */
  function EndContigPos(endPosition: Option<int>, upperBound: int): (pos: int)
    ensures endPosition.None? ==> pos == upperBound
    ensures endPosition.Some? ==> pos == endPosition.value
  {
    if endPosition.None? then upperBound else endPosition.value
  }

  function Stride(startPos: int, endPos: int, numThreads: int): int
    requires numThreads >= 1
  {
    TruncDiv(endPos - startPos, numThreads)
  }

  /** Segment `i`: it starts `i` strides in; the last ends at endPos, the others one before the next. */
  function SegmentOf(startPos: int, endPos: int, numThreads: int, i: int): Segment
    requires numThreads >= 1
  {
    var stride := Stride(startPos, endPos, numThreads);
    var start := startPos + i * stride;
    Segment(start, if i == numThreads - 1 then endPos else start + stride - 1)
  }

  /** The segments of all threads, in thread order. */
  function Plan(startPos: int, endPos: int, numThreads: int): (plan: seq<Segment>)
    requires numThreads >= 1
    ensures |plan| == numThreads
    ensures forall i :: 0 <= i < numThreads ==> plan[i] == SegmentOf(startPos, endPos, numThreads, i)
  {
    seq(numThreads, i requires 0 <= i < numThreads => SegmentOf(startPos, endPos, numThreads, i))
  }

  /**
   * The segment computation of execute for one contig: the default range, the stride, and
   * one segment per thread index. A thread count below one makes newFixedThreadPool throw
   * IllegalArgumentException before any segment is formed.
   */
  method PartitionContig(startPosition: Option<int>, endPosition: Option<int>, upperBound: int, numThreads: int)
    returns (r: Result<seq<Segment>, string>)
    ensures r.Err? <==> numThreads <= 0
    ensures r.Ok? ==> r.value == Plan(StartContigPos(startPosition), EndContigPos(endPosition, upperBound), numThreads)
  {
    if numThreads <= 0 {
      return Err("IllegalArgumentException");
    }
    var startContigPos := if startPosition.None? then 1 else startPosition.value;
    var endContigPos := if endPosition.None? then upperBound else endPosition.value;
    var strideLength := TruncDiv(endContigPos - startContigPos, numThreads);
    var segments: seq<Segment> := [];
    for threadIdx := 0 to numThreads
      invariant |segments| == threadIdx
      invariant forall k :: 0 <= k < threadIdx ==> segments[k] == SegmentOf(startContigPos, endContigPos, numThreads, k)
    {
      var start := startContigPos + threadIdx * strideLength;
      var end := if threadIdx == numThreads - 1 then endContigPos else start + strideLength - 1;
      segments := segments + [Segment(start, end)];
    }
    return Ok(segments);
  }

  /** The first segment starts at the range start and the last ends at the range end. */
  lemma PlanEnds(startPos: int, endPos: int, numThreads: int)
    requires numThreads >= 1
    ensures Plan(startPos, endPos, numThreads)[0].start == startPos
    ensures Plan(startPos, endPos, numThreads)[numThreads - 1].end == endPos
  {
  }

  /** Each segment begins right after the previous one ends. */
  lemma PlanAbuts(startPos: int, endPos: int, numThreads: int, i: int)
    requires numThreads >= 1 && 0 <= i < numThreads - 1
    ensures Plan(startPos, endPos, numThreads)[i + 1].start == Plan(startPos, endPos, numThreads)[i].end + 1
  {
    var stride := Stride(startPos, endPos, numThreads);
    assert (i + 1) * stride == i * stride + stride;
  }

  /** In a non-empty range the stride is non-negative and the threads' strides fit in it. */
  lemma StrideFits(startPos: int, endPos: int, numThreads: int)
    requires numThreads >= 1 && startPos <= endPos
    ensures 0 <= Stride(startPos, endPos, numThreads)
    ensures (numThreads - 1) * Stride(startPos, endPos, numThreads) <= endPos - startPos
  {
    var stride := Stride(startPos, endPos, numThreads);
    assert stride * numThreads <= endPos - startPos;
    assert (numThreads - 1) * stride == stride * numThreads - stride;
  }

  /** Segments of lower thread index lie wholly before those of higher index. */
  lemma {:induction false} PlanOrdered(startPos: int, endPos: int, numThreads: int, i: int, j: int)
    requires numThreads >= 1 && startPos <= endPos && 0 <= i < j < numThreads
    ensures Plan(startPos, endPos, numThreads)[i].end < Plan(startPos, endPos, numThreads)[j].start
  {
    var plan := Plan(startPos, endPos, numThreads);
    var stride := Stride(startPos, endPos, numThreads);
    StrideFits(startPos, endPos, numThreads);
    PlanAbuts(startPos, endPos, numThreads, i);
    assert plan[i + 1].start == startPos + (i + 1) * stride;
    assert plan[j].start == startPos + j * stride;
    MulMonotone(i + 1, j, stride);
  }

  lemma MulMonotone(a: int, b: int, stride: int)
    requires a <= b && 0 <= stride
    ensures a * stride <= b * stride
  {
    assert b * stride == a * stride + (b - a) * stride;
  }

  /** The thread index whose stride window holds offset `d`. */
  lemma CoveringIndex(d: int, stride: int, numThreads: int) returns (i: int)
    requires numThreads >= 1 && 0 <= d && 0 <= stride
    ensures 0 <= i < numThreads && i * stride <= d
    ensures i == numThreads - 1 || d <= i * stride + stride - 1
  {
    if stride == 0 {
      i := numThreads - 1;
    } else {
      var q := d / stride;
      assert q * stride <= d < q * stride + stride;
      if q < numThreads - 1 {
        i := q;
      } else {
        i := numThreads - 1;
        MulMonotone(i, q, stride);
      }
    }
  }

  /** Every position of a non-empty range falls in some segment. */
  lemma PlanCovers(startPos: int, endPos: int, numThreads: int, x: int)
    requires numThreads >= 1 && startPos <= x <= endPos
    ensures exists i :: 0 <= i < numThreads && Plan(startPos, endPos, numThreads)[i].start <= x <= Plan(startPos, endPos, numThreads)[i].end
  {
    var plan := Plan(startPos, endPos, numThreads);
    StrideFits(startPos, endPos, numThreads);
    var i := CoveringIndex(x - startPos, Stride(startPos, endPos, numThreads), numThreads);
    assert plan[i].start <= x <= plan[i].end;
  }

  /** No position lies in two segments. */
  lemma PlanDisjoint(startPos: int, endPos: int, numThreads: int, x: int, i: int, j: int)
    requires numThreads >= 1 && startPos <= endPos
    requires 0 <= i < numThreads && 0 <= j < numThreads
    requires Plan(startPos, endPos, numThreads)[i].start <= x <= Plan(startPos, endPos, numThreads)[i].end
    requires Plan(startPos, endPos, numThreads)[j].start <= x <= Plan(startPos, endPos, numThreads)[j].end
    ensures i == j
  {
    if i < j {
      PlanOrdered(startPos, endPos, numThreads, i, j);
    } else if j < i {
      PlanOrdered(startPos, endPos, numThreads, j, i);
    }
  }

  /**
   * A range shorter than the thread count has stride 0: every segment but the last is empty
   * (it ends one before it starts) and the last covers the whole range.
   */
  lemma ShortRangeStrideZero(startPos: int, endPos: int, numThreads: int)
    requires numThreads >= 1 && 0 <= endPos - startPos < numThreads
    ensures Stride(startPos, endPos, numThreads) == 0
    ensures forall i :: 0 <= i < numThreads - 1 ==>
      Plan(startPos, endPos, numThreads)[i] == Segment(startPos, startPos - 1)
    ensures Plan(startPos, endPos, numThreads)[numThreads - 1] == Segment(startPos, endPos)
  {
  }
}
