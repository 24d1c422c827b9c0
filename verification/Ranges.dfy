/** Half-open byte ranges and canonical range lists (pdf-rs/bytes/src/range.rs). */
module Ranges {
  import opened Basics

  datatype ByteRange = ByteRange(start: nat, len: nat) {
    function End(): nat { start + len }

    predicate Contains(k: nat) { start <= k < End() }
  }

  /** The values ByteRange::new can produce: non-empty, with a u64 exclusive end. */
  type Range = r: ByteRange | 0 < r.len && r.End() <= U64_MAX witness ByteRange(0, 1)

  function NewRange(start: nat, len: nat): (r: Result<Range>)
    ensures r.Ok? <==> 0 < len && start + len <= U64_MAX
    ensures r.Ok? ==> forall k: nat :: r.value.Contains(k) <==> start <= k < start + len
    ensures r.Err? ==> r.error == InvalidRange
  {
    if len == 0 || start + len > U64_MAX then Err(InvalidRange) else Ok(ByteRange(start, len))
  }

  /** Offset k lies in some range of the list. */
  ghost predicate Hit(rs: seq<Range>, k: nat) {
    exists i :: 0 <= i < |rs| && rs[i].Contains(k)
  }

  /** Sorted, disjoint and non-adjacent. */
  ghost predicate Canonical(rs: seq<Range>) {
    forall i, j :: 0 <= i < j < |rs| ==> rs[i].End() < rs[j].start
  }

  /** SmallRanges::try_from_canonical. The byte total cannot overflow, because it is
      bounded by the end of the last range seen. */
  method TryFromCanonical(ranges: seq<Range>, maxRanges: nat) returns (r: Result<seq<Range>>)
    ensures r.Ok? <==> 0 < |ranges| <= maxRanges && Canonical(ranges)
    ensures r.Ok? ==> r.value == ranges
    ensures r.Err? && r.error == RangeCountLimit <==> |ranges| > maxRanges && |ranges| > 0
    ensures r.Err? ==> r.error == RangeCountLimit || r.error == InternalState
  {
    if |ranges| == 0 {
      return Err(InternalState);
    }
    if |ranges| > maxRanges {
      return Err(RangeCountLimit);
    }
    var totalBytes: nat := 0;
    var previousEnd: Option<nat> := None;
    for i := 0 to |ranges|
      invariant i == 0 <==> previousEnd == None
      invariant i > 0 ==> previousEnd == Some(ranges[i - 1].End())
      invariant i > 0 ==> totalBytes <= ranges[i - 1].End()
      invariant i == 0 ==> totalBytes == 0
      invariant Canonical(ranges[..i])
    {
      var range := ranges[i];
      if previousEnd.Some? && previousEnd.value >= range.start {
        assert !Canonical(ranges) by { assert 0 <= i - 1 < i < |ranges|; }
        return Err(InternalState);
      }
      forall a, b | 0 <= a < b < i + 1 ensures ranges[a].End() < ranges[b].start {
        if b == i && a < i - 1 {
          assert ranges[..i][a].End() < ranges[..i][i - 1].start;
        } else if b < i {
          assert ranges[..i][a].End() < ranges[..i][b].start;
        }
      }
      if totalBytes + range.len > U64_MAX {
        return Err(RangeCountLimit);
      }
      totalBytes := totalBytes + range.len;
      previousEnd := Some(range.End());
    }
    assert ranges[..|ranges|] == ranges;
    return Ok(ranges);
  }

  /** A canonical list is determined by the offsets it covers, so comparing lists (as
      poll does with `record.missing == missing`) is comparing sets of offsets. */
  lemma {:induction false} CanonicalUnique(a: seq<Range>, b: seq<Range>)
    requires Canonical(a) && Canonical(b)
    requires forall k :: Hit(a, k) <==> Hit(b, k)
    ensures a == b
    decreases |a|
  {
    if |a| == 0 {
      if |b| > 0 { FirstAgrees(b, a); }
    } else {
      assert a[0].Contains(a[0].start);
      assert Hit(a, a[0].start);
      FirstAgrees(a, b);
      FirstAgrees(b, a);
      assert a[0] == b[0];
      forall k ensures Hit(a[1..], k) <==> Hit(b[1..], k) {
        TailHit(a, k);
        TailHit(b, k);
      }
      CanonicalUnique(a[1..], b[1..]);
      assert a == [a[0]] + a[1..] == b;
    }
  }

  lemma TailHit(a: seq<Range>, k: nat)
    requires Canonical(a) && |a| > 0
    ensures Hit(a[1..], k) <==> Hit(a, k) && !a[0].Contains(k)
  {
    if Hit(a, k) {
      var i :| 0 <= i < |a| && a[i].Contains(k);
      if i > 0 { assert a[1..][i - 1].Contains(k); }
    }
    if Hit(a[1..], k) {
      var i :| 0 <= i < |a[1..]| && a[1..][i].Contains(k);
      assert a[i + 1].Contains(k);
    }
  }

  lemma FirstAgrees(a: seq<Range>, b: seq<Range>)
    requires Canonical(a) && Canonical(b) && |a| > 0
    requires forall k :: Hit(a, k) <==> Hit(b, k)
    ensures |b| > 0 && b[0].start <= a[0].start && b[0].End() >= a[0].End()
  {
    assert a[0].Contains(a[0].start);
    assert Hit(a, a[0].start);
    var i :| 0 <= i < |b| && b[i].Contains(a[0].start);
    assert b[0].Contains(b[0].start);
    assert Hit(b, b[0].start);
    var j :| 0 <= j < |a| && a[j].Contains(b[0].start);
    assert b[0].start == a[0].start;
    if b[0].End() < a[0].End() {
      NotHitAfterFirst(b);
      assert a[0].Contains(b[0].End());
    }
  }

  lemma NotHitAfterFirst(b: seq<Range>)
    requires Canonical(b) && |b| > 0
    ensures !Hit(b, b[0].End())
  {
  }
}
