/**
 subsystems/ldstoreimpl/big_segment_store_wrapper.go: the status of a Big Segment store as polled, and
 its test for stale data in 64-bit arithmetic.
 */
module BigSegments {
  import opened DataModel

  const TWO_TO_63: int := 0x8000_0000_0000_0000
  const TWO_TO_64: int := 0x1_0000_0000_0000_0000
  const MILLISECOND: int := 1_000_000

  type uint64 = x: int | 0 <= x < 0x1_0000_0000_0000_0000
  type int64 = x: int | -0x8000_0000_0000_0000 <= x < 0x8000_0000_0000_0000

  // The signed 64-bit number with the same low 64 bits.
  function Wrapped(x: int): (w: int64)
    ensures exists k: int :: x == w + k * TWO_TO_64
  {
    var m := x % TWO_TO_64;
    assert x == m + (x / TWO_TO_64) * TWO_TO_64;
    if m < TWO_TO_63 then m
    else
      assert x == (m - TWO_TO_64) + (x / TWO_TO_64 + 1) * TWO_TO_64;
      m - TWO_TO_64
  }

  lemma WrappedUnique(x: int, w: int64, k: int)
    requires x == w + k * TWO_TO_64
    ensures Wrapped(x) == w
  {
  }

  // now - updateTime as unsigned numbers, taken as a signed number of milliseconds, in nanoseconds.
  function Age(now: uint64, updateTime: uint64): int64 {
    Wrapped(Wrapped(now - updateTime) * MILLISECOND)
  }

  predicate IsStale(now: uint64, updateTime: uint64, staleTime: int64) {
    Age(now, updateTime) >= staleTime
  }

  function TrueAge(now: uint64, updateTime: uint64): int {
    (now - updateTime) * MILLISECOND
  }

  lemma {:induction false} AgeIsWrappedTrueAge(now: uint64, updateTime: uint64)
    ensures Age(now, updateTime) == Wrapped(TrueAge(now, updateTime))
  {
    var d := now - updateTime;
    var k :| d == Wrapped(d) + k * TWO_TO_64;
    var j :| Wrapped(d) * MILLISECOND == Age(now, updateTime) + j * TWO_TO_64;
    assert d * MILLISECOND == Age(now, updateTime) + (j + k * MILLISECOND) * TWO_TO_64;
    WrappedUnique(d * MILLISECOND, Age(now, updateTime), j + k * MILLISECOND);
  }

  // The true age is even, so a wrapped one is not the largest number there is.
  lemma {:induction false} WrappedEven(d: int, w: int64, k: int)
    requires d * MILLISECOND == w + k * TWO_TO_64
    ensures w + 1 < TWO_TO_63
  {
    assert w == 2 * (d * 500_000 - k * TWO_TO_63);
  }

  // The test says what it should for every stale time.
  ghost predicate TestIsExact(now: uint64, updateTime: uint64) {
    forall staleTime: int64 :: IsStale(now, updateTime, staleTime) <==> (now - updateTime) * 1_000_000 >= staleTime
  }

  lemma {:induction false} UnfittingAgeMisleads(now: uint64, updateTime: uint64)
    requires !(-TWO_TO_63 <= TrueAge(now, updateTime) < TWO_TO_63)
    ensures !TestIsExact(now, updateTime)
  {
    var e, w := TrueAge(now, updateTime), Age(now, updateTime);
    if e < -TWO_TO_63 {
      assert IsStale(now, updateTime, w) && e < w;
    } else {
      AgeIsWrappedTrueAge(now, updateTime);
      var k :| e == w + k * TWO_TO_64;
      WrappedEven(now - updateTime, w, k);
      var staleTime: int64 := w + 1;
      assert !IsStale(now, updateTime, staleTime) && e >= staleTime;
    }
  }

  // It does, updates stamped in the future included, exactly while the true age in nanoseconds fits
  // 64 bits.
  lemma {:induction false} StaleTestExactlyWhen(now: uint64, updateTime: uint64)
    ensures TestIsExact(now, updateTime) <==>
              -0x8000_0000_0000_0000 <= (now - updateTime) * 1_000_000 < 0x8000_0000_0000_0000
  {
    if -TWO_TO_63 <= TrueAge(now, updateTime) < TWO_TO_63 {
      AgeIsWrappedTrueAge(now, updateTime);
      WrappedUnique(TrueAge(now, updateTime), TrueAge(now, updateTime), 0);
    } else {
      UnfittingAgeMisleads(now, updateTime);
    }
  }

  // ---------- Polling ----------

  datatype BigSegmentStatus = BigSegmentStatus(available: bool, stale: bool)

  // What one poll finds; metadata is None when the store's query fails.
  function StatusOf(metadata: Option<uint64>, now: uint64, staleTime: int64): BigSegmentStatus {
    match metadata
    case None => BigSegmentStatus(false, false)
    case Some(lastUpToDate) => BigSegmentStatus(true, IsStale(now, lastUpToDate, staleTime))
  }

  // The changes among the statuses found: the first one, and each that differs from the one before.
  function Changes(found: seq<BigSegmentStatus>): seq<BigSegmentStatus> {
    if found == [] then []
    else
      var n := |found| - 1;
      Changes(found[..n]) + if n == 0 || found[n] != found[n - 1] then [found[n]] else []
  }

  class BigSegmentStoreWrapper {
    const staleTime: int64
    var haveStatus: bool
    var lastStatus: BigSegmentStatus
    var statusesSent: seq<BigSegmentStatus>
    // Everything the polls have found.
    ghost var found: seq<BigSegmentStatus>

    constructor (staleTime: int64)
      ensures this.staleTime == staleTime && Valid() && found == []
    {
      this.staleTime := staleTime;
      haveStatus, lastStatus, statusesSent, found := false, BigSegmentStatus(false, false), [], [];
    }

    ghost predicate Valid()
      reads this
    {
      && haveStatus == (found != [])
      && (haveStatus ==> lastStatus == found[|found| - 1])
      && statusesSent == Changes(found)
    }

    method PollStoreAndUpdateStatus(metadata: Option<uint64>, now: uint64) returns (newStatus: BigSegmentStatus)
      requires Valid()
      modifies this
      ensures Valid() && newStatus == StatusOf(metadata, now, staleTime)
      ensures newStatus.available == metadata.Some?
      ensures newStatus.stale == (metadata.Some? && IsStale(now, metadata.value, staleTime))
      ensures haveStatus && lastStatus == newStatus
      ensures statusesSent ==
              if old(haveStatus) && old(lastStatus) == newStatus then old(statusesSent) else old(statusesSent) + [newStatus]
      ensures found == old(found) + [newStatus]
    {
      newStatus := BigSegmentStatus(false, false);
      if metadata.Some? {
        newStatus := BigSegmentStatus(true, IsStale(now, metadata.value, staleTime));
      }
      var oldStatus := lastStatus;
      lastStatus := newStatus;
      var hadStatus := haveStatus;
      haveStatus := true;
      if !hadStatus || newStatus != oldStatus {
        statusesSent := statusesSent + [newStatus];
      }
      found := found + [newStatus];
      assert found[..|found| - 1] == old(found);
      assert Changes(old(found)) + [] == Changes(old(found));
    }

    // The last status known; without one the store is polled at once.
    method GetStatus(metadata: Option<uint64>, now: uint64) returns (status: BigSegmentStatus)
      requires Valid()
      modifies this
      ensures Valid() && found != [] && status == found[|found| - 1]
      ensures statusesSent != [] && status == statusesSent[|statusesSent| - 1]
      ensures found == if old(found) == [] then [StatusOf(metadata, now, staleTime)] else old(found)
    {
      if haveStatus {
        status := lastStatus;
      } else {
        status := PollStoreAndUpdateStatus(metadata, now);
      }
      ChangesAlternate(found);
    }
  }

  // Consecutive statuses sent differ, and the last one sent is the last one found.
  lemma {:induction false} ChangesAlternate(found: seq<BigSegmentStatus>)
    ensures var sent := Changes(found);
            && (sent == [] <==> found == [])
            && (found != [] ==> sent[|sent| - 1] == found[|found| - 1])
            && forall i :: 0 < i < |sent| ==> sent[i] != sent[i - 1]
  {
    if found != [] {
      var n := |found| - 1;
      ChangesAlternate(found[..n]);
      if n > 0 && found[n] == found[n - 1] {
        assert Changes(found) == Changes(found[..n]);
      }
    }
  }
}
