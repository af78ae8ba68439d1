/**
 The block-status cache of a node (`bdrv_bsc_*`): one range of bytes that are known to be data.  The
 overlap test works on unsigned 64-bit numbers and looks at last bytes, so it wraps around for an empty
 range at offset 0.
 */
module BlockStatusCache {
  const UINT64: int := 0x1_0000_0000_0000_0000
  const INT64_MAX: int := 0x7fff_ffff_ffff_ffff

  /** `range_get_last` */
  function Last(offset: int, len: int): int {
    (offset + len - 1) % UINT64
  }

  /** `ranges_overlap` */
  predicate RangesOverlap(first1: int, len1: int, first2: int, len2: int) {
    !(Last(first2, len2) < first1 || Last(first1, len1) < first2)
  }

  predicate IsRange(offset: int, bytes: int) {
    0 <= offset && 0 <= bytes && offset + bytes <= INT64_MAX
  }

  predicate InRange(b: int, offset: int, bytes: int) {
    offset <= b < offset + bytes
  }

  /** The two ranges have a byte in common. */
  ghost predicate Meet(o: int, n: int, p: int, m: int) {
    exists b :: InRange(b, o, n) && InRange(b, p, m)
  }

  lemma {:induction false} LastIs(offset: int, len: int)
    requires IsRange(offset, len)
    ensures Last(offset, len) == if offset + len == 0 then UINT64 - 1 else offset + len - 1
  {
  }

  /** A non-empty range overlaps another one if they share a byte, or the other is empty at 0 or strictly inside. */
  lemma {:induction false} OverlapIs(o: int, n: int, p: int, m: int)
    requires IsRange(o, n) && IsRange(p, m) && n > 0
    ensures RangesOverlap(o, n, p, m) <==> Meet(o, n, p, m) || (m == 0 && (p == 0 || o < p < o + n))
  {
    LastIs(o, n);
    LastIs(p, m);
    if Meet(o, n, p, m) {
      var b :| InRange(b, o, n) && InRange(b, p, m);
    } else if m > 0 {
      var b := if o < p then p else o;
      assert !(InRange(b, o, n) && InRange(b, p, m));
    }
  }

  /** One byte: the test is exact except for the empty range at offset 0, which seems to hold every byte. */
  lemma {:induction false} ByteOverlapIs(o: int, start: int, end: int)
    requires IsRange(o, 1) && 0 <= start <= end <= INT64_MAX
    ensures RangesOverlap(o, 1, start, end - start) <==> start <= o < end || (start == 0 && end == 0)
  {
    OverlapIs(o, 1, start, end - start);
    if start <= o < end {
      assert InRange(o, o, 1) && InRange(o, start, end - start);
    }
  }

  ghost predicate AllData(data: iset<int>, offset: int, bytes: int) {
    forall b :: InRange(b, offset, bytes) ==> b in data
  }

  class Cache {
    var valid: bool
    var start: int
    var end: int
    ghost var data: iset<int>   // the bytes that are data now

    /** What is cached is still data. */
    ghost predicate Valid()
      reads this
    {
      0 <= start <= end <= INT64_MAX && (valid ==> AllData(data, start, end - start))
    }

    /** The empty range at offset 0 was cached. */
    predicate Degenerate()
      reads this
    {
      valid && start == 0 && end == 0
    }

    /** As long as only non-empty ranges are cached. */
    ghost predicate Proper()
      reads this
    {
      Valid() && (valid ==> start < end)
    }

    constructor (data: iset<int>)
      ensures Proper() && !valid && this.data == data
    {
      valid, start, end := false, 0, 0;
      this.data := data;
    }

    /** `bdrv_bsc_range_overlaps_locked` */
    method RangeOverlaps(offset: int, bytes: int) returns (overlaps: bool, pnum: int)
      requires IsRange(offset, bytes)
      ensures overlaps <==> valid && RangesOverlap(offset, bytes, start, end - start)
      ensures pnum == end - offset
    {
      overlaps := valid && RangesOverlap(offset, bytes, start, end - start);
      pnum := end - offset;
    }

    /**
     `bdrv_bsc_is_data`: a positive answer means at least one byte, and all of them data, if and only if
     the cached range is not the empty one at offset 0.
     */
    method IsData(offset: int) returns (isData: bool, pnum: int)
      requires Valid() && IsRange(offset, 1)
      ensures isData <==> valid && (start <= offset < end || Degenerate())
      ensures isData ==> (pnum >= 1 && AllData(data, offset, pnum) <==> !Degenerate())
      ensures isData && !Degenerate() ==> pnum == end - offset
    {
      isData, pnum := RangeOverlaps(offset, 1);
      ByteOverlapIs(offset, start, end);
    }

    /** `bdrv_bsc_fill` with a range that is data. */
    method Fill(offset: int, bytes: int)
      requires Valid() && IsRange(offset, bytes) && AllData(data, offset, bytes)
      modifies this
      ensures Valid() && valid && start == offset && end == offset + bytes && data == old(data)
      ensures (Degenerate() <==> offset == 0 && bytes == 0) && (Proper() <==> bytes > 0)
    {
      valid, start, end := true, offset, offset + bytes;
    }

    /** `bdrv_bsc_invalidate_range`, after these bytes stopped being data. */
    method InvalidateRange(offset: int, bytes: int)
      requires Valid() && IsRange(offset, bytes)
      modifies this
      ensures data == old(data) - iset b | InRange(b, offset, bytes)
      ensures Valid() && start == old(start) && end == old(end) && (valid ==> old(valid))
        && (old(Proper()) ==> Proper())
      ensures bytes > 0 && old(valid) && old(start) < old(end) ==>
                (valid <==> !Meet(offset, bytes, old(start), old(end) - old(start)))
    {
      var overlaps, _ := RangeOverlaps(offset, bytes);
      if bytes > 0 {
        OverlapIs(offset, bytes, start, end - start);
      }
      data := data - iset b | InRange(b, offset, bytes);
      if overlaps {
        valid := false;
      } else if valid {
        forall b | InRange(b, start, end - start)
          ensures b in data
        {
          assert InRange(b, offset, bytes) ==> Meet(offset, bytes, start, end - start);
        }
      }
    }

    /**
     The part of `bdrv_co_do_block_status` that uses the cache: a range that starts at `offset` is asked for,
     and unless the cache knows, the driver answers that `bytes` bytes are data, or that they are not.  The
     code asserts that the driver's range is not empty, so the cache never gives a wrong answer.
     */
    method BlockStatus(offset: int, driverData: bool, bytes: int) returns (isData: bool, pnum: int)
      requires Proper() && IsRange(offset, 1)
      requires IsRange(offset, bytes) && bytes > 0 && (driverData ==> AllData(data, offset, bytes))
      modifies this
      ensures Proper() && data == old(data)
      ensures pnum > 0 && (isData ==> AllData(data, offset, pnum))
      ensures !isData ==> !driverData && pnum == bytes
    {
      isData, pnum := IsData(offset);
      if !isData {
        isData, pnum := driverData, bytes;
        if isData {
          Fill(offset, bytes);
        }
      }
    }
  }
}
