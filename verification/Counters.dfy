/** Cumulative RADIUS counters: 64-bit totals and the deltas charged for them
    (internal/radius/accounting.go). */
module Counters {
  import opened Domain

  /** The counter attributes of one accounting packet; each may be missing. */
  datatype Report = Report(
    inOctets: Option<uint32>,
    outOctets: Option<uint32>,
    seconds: Option<uint32>,
    inGigawords: Option<uint32>,
    outGigawords: Option<uint32>)

  function OrZero(a: Option<uint32>): int {
    if a.Some? then a.value else 0
  }

  /** A 64-bit octet total as the uint64 arithmetic computes it, clamped to int64. */
  function Combined(low: Option<uint32>, gigawords: Option<uint32>): int {
    if gigawords.None? then OrZero(low)
    else
      var total := (gigawords.value * TWO_32 % TWO_64 + OrZero(low)) % TWO_64;
      if total > INT64_MAX then INT64_MAX else total
  }

  function TotalIn(r: Report): int { Combined(r.inOctets, r.inGigawords) }

  function TotalOut(r: Report): int { Combined(r.outOctets, r.outGigawords) }

  /** The cumulative usage a packet reports for its session. */
  function Reported(r: Report): Usage {
    Usage(OrZero(r.seconds), Wrap64(TotalIn(r) + TotalOut(r)))
  }

  /** The cumulative usage a session record holds. */
  function Stored(s: Session): Usage {
    Usage(s.time, Wrap64(s.inOctets + s.outOctets))
  }

  /** What is charged when a counter moves from `stored` to `reported`: the difference,
      or the whole new value when the counter went backwards. */
  function Delta(reported: int, stored: int): int {
    var d := Wrap64(reported - stored);
    if d < 0 then reported else d
  }

  function DeltaUsage(reported: Usage, stored: Usage): Usage {
    Usage(Delta(reported.seconds, stored.seconds), Delta(reported.octets, stored.octets))
  }

  // ----- 64-bit totals -----

  /** Section 5.1 of RFC 2869: gigawords count the wraps of the 32-bit counter. The
      uint64 sum never wraps, so the result is the exact total, clamped. */
  lemma CombinedIsExact(low: uint32, gigawords: uint32)
    ensures Combined(Some(low), Some(gigawords))
         == if gigawords * TWO_32 + low <= INT64_MAX then gigawords * TWO_32 + low else INT64_MAX
    ensures 0 <= Combined(Some(low), Some(gigawords)) <= INT64_MAX
  {
  }

  lemma CombinedRange(low: Option<uint32>, gigawords: Option<uint32>)
    ensures 0 <= Combined(low, gigawords) <= INT64_MAX
  {
  }

  /** The sum of both directions fits an int64. */
  predicate Sane(r: Report) { TotalIn(r) + TotalOut(r) <= INT64_MAX }

  predicate SaneUsage(u: Usage) { 0 <= u.seconds < TWO_32 && 0 <= u.octets <= INT64_MAX }

  lemma SaneReport(r: Report)
    requires Sane(r)
    ensures SaneUsage(Reported(r))
    ensures Reported(r).octets == TotalIn(r) + TotalOut(r)
  {
  }

  lemma DeltaExact(reported: int, stored: int)
    requires 0 <= reported <= INT64_MAX && 0 <= stored <= INT64_MAX
    ensures Delta(reported, stored) == if reported >= stored then reported - stored else reported
    ensures 0 <= Delta(reported, stored) <= reported
  {
  }

  const TWO_62: int := 0x4000_0000_0000_0000

  /** While every total stays below 2^62, neither the sums nor the deltas wrap: what is
      charged is the exact growth of both directions together, or the exact new total. */
  lemma NothingWrapsBelowTwo62(r: Report, s: Session)
    requires TotalIn(r) < TWO_62 && TotalOut(r) < TWO_62 && 0 <= s.inOctets < TWO_62 && 0 <= s.outOctets < TWO_62
    ensures var total, was := TotalIn(r) + TotalOut(r), s.inOctets + s.outOctets;
            && Reported(r).octets == total && Stored(s).octets == was
            && DeltaUsage(Reported(r), Stored(s)).octets == (if total >= was then total - was else total)
            && 0 <= DeltaUsage(Reported(r), Stored(s)).octets <= total
  {
    SaneReport(r);
    CombinedRange(r.inOctets, r.inGigawords);
    CombinedRange(r.outOctets, r.outGigawords);
    DeltaExact(TotalIn(r) + TotalOut(r), s.inOctets + s.outOctets);
  }

  /** Exactly when a packet can never be charged as a negative amount: its two totals
      together fit an int64. Otherwise the sum wraps and, on a fresh session, the
      negative sum itself is charged. */
  lemma NeverNegativeIffSane(r: Report)
    ensures Sane(r) <==> forall stored: int :: 0 <= stored <= INT64_MAX ==> Delta(Reported(r).octets, stored) >= 0
  {
    CombinedRange(r.inOctets, r.inGigawords);
    CombinedRange(r.outOctets, r.outGigawords);
    if Sane(r) {
      SaneReport(r);
      forall stored: int | 0 <= stored <= INT64_MAX ensures Delta(Reported(r).octets, stored) >= 0 {
        DeltaExact(Reported(r).octets, stored);
      }
    } else {
      var sum := TotalIn(r) + TotalOut(r);
      assert Wrap64(sum) == sum - TWO_64;
      assert Delta(Reported(r).octets, 0) < 0;
    }
  }

  // ----- what a whole session is charged -----

  /** The sum charged to a counter that stands at `stored` when `reports` arrive in turn. */
  function Charged(stored: int, reports: seq<int>): int
    decreases |reports|
  {
    if reports == [] then 0
    else Delta(reports[0], stored) + Charged(reports[0], reports[1..])
  }

  /** A report is a peak when it is the last one or the next one is smaller. */
  predicate IsPeak(rs: seq<int>, i: nat)
    requires i < |rs|
  {
    i + 1 == |rs| || rs[i + 1] < rs[i]
  }

  /** The simple specification: the sum of the peaks among the first `n` reports. */
  function PeaksUpTo(rs: seq<int>, n: nat): int
    requires n <= |rs|
  {
    if n == 0 then 0 else PeaksUpTo(rs, n - 1) + if IsPeak(rs, n - 1) then rs[n - 1] else 0
  }

  function Peaks(rs: seq<int>): int { PeaksUpTo(rs, |rs|) }

  predicate InRange(rs: seq<int>) { forall i :: 0 <= i < |rs| ==> 0 <= rs[i] <= INT64_MAX }

  predicate NonDecreasing(rs: seq<int>) { forall i :: 0 < i < |rs| ==> rs[i - 1] <= rs[i] }

  lemma {:induction false} PeaksPrefix(rs: seq<int>, r: int, n: nat)
    requires n < |rs|
    ensures PeaksUpTo(rs + [r], n) == PeaksUpTo(rs, n)
  {
    if n > 0 {
      PeaksPrefix(rs, r, n - 1);
      assert IsPeak(rs + [r], n - 1) == IsPeak(rs, n - 1);
    }
  }

  /** One more report adds exactly what the code charges for it. */
  lemma PeaksSnoc(rs: seq<int>, r: int)
    requires rs != [] && InRange(rs) && 0 <= r <= INT64_MAX
    ensures Peaks(rs + [r]) == Peaks(rs) + Delta(r, rs[|rs| - 1])
  {
    var n := |rs|;
    PeaksPrefix(rs, r, n - 1);
    DeltaExact(r, rs[n - 1]);
    assert PeaksUpTo(rs + [r], n + 1) == PeaksUpTo(rs + [r], n) + r;
    assert IsPeak(rs + [r], n - 1) <==> r < rs[n - 1];
  }

  lemma {:induction false} ChargedSnoc(stored: int, rs: seq<int>, r: int)
    ensures Charged(stored, rs + [r]) == Charged(stored, rs) + Delta(r, ([stored] + rs)[|rs|])
    decreases |rs|
  {
    if rs == [] {
      assert Charged(r, ([] + [r])[1..]) == 0;
    } else {
      assert (rs + [r])[1..] == rs[1..] + [r];
      ChargedSnoc(rs[0], rs[1..], r);
    }
  }

  /** Refinement: the incremental deltas add up to the peaks, less the starting value. */
  lemma {:induction false} ChargedIsPeaks(stored: int, rs: seq<int>)
    requires InRange([stored] + rs)
    ensures Charged(stored, rs) == Peaks([stored] + rs) - stored
    decreases |rs|
  {
    if rs == [] {
      assert [stored] + rs == [stored];
      assert PeaksUpTo([stored], 1) == PeaksUpTo([stored], 0) + stored;
    } else {
      var front, last := rs[..|rs| - 1], rs[|rs| - 1];
      assert rs == front + [last] && [stored] + rs == ([stored] + front) + [last];
      assert InRange([stored] + front) by {
        forall i | 0 <= i < |[stored] + front| ensures 0 <= ([stored] + front)[i] <= INT64_MAX {
          assert ([stored] + front)[i] == ([stored] + rs)[i];
        }
      }
      assert 0 <= last <= INT64_MAX by { assert last == ([stored] + rs)[|rs|]; }
      ChargedIsPeaks(stored, front);
      ChargedSnoc(stored, front, last);
      PeaksSnoc([stored] + front, last);
    }
  }

  function SumOf(rs: seq<int>): int { if rs == [] then 0 else SumOf(rs[..|rs| - 1]) + rs[|rs| - 1] }

  /** The peaks lie between every single report and the sum of all of them, and equal
      the last report when no counter ever went backwards. */
  lemma {:induction false} PeaksBounds(rs: seq<int>)
    requires rs != [] && InRange(rs)
    ensures forall i :: 0 <= i < |rs| ==> rs[i] <= Peaks(rs)
    ensures Peaks(rs) <= SumOf(rs)
    ensures NonDecreasing(rs) ==> Peaks(rs) == rs[|rs| - 1]
    decreases |rs|
  {
    var front, last := rs[..|rs| - 1], rs[|rs| - 1];
    assert rs == front + [last];
    if front == [] {
      assert Peaks(rs) == PeaksUpTo(rs, 0) + last;
      assert SumOf(front) == 0;
    } else {
      PeaksBounds(front);
      PeaksSnoc(front, last);
      DeltaExact(last, front[|front| - 1]);
      assert forall i :: 0 <= i < |front| ==> rs[i] == front[i];
    }
  }

  /** What a whole session that started at zero is charged: at least its largest report,
      at most the sum of them, exactly the last one when the counter is monotone. */
  lemma SessionChargeBounds(rs: seq<int>)
    requires rs != [] && InRange(rs)
    ensures forall i :: 0 <= i < |rs| ==> rs[i] <= Charged(0, rs)
    ensures Charged(0, rs) <= SumOf(rs)
    ensures NonDecreasing(rs) ==> Charged(0, rs) == rs[|rs| - 1]
  {
    var all := [0] + rs;
    ZeroFirst(rs);
    ChargedIsPeaks(0, rs);
    PeaksBounds(all);
    SumOfZeroFirst(rs);
    forall i | 0 <= i < |rs| ensures rs[i] <= Charged(0, rs) {
      assert all[i + 1] == rs[i];
    }
    assert all[|rs|] == rs[|rs| - 1];
  }

  lemma ZeroFirst(rs: seq<int>)
    requires InRange(rs)
    ensures InRange([0] + rs)
    ensures NonDecreasing(rs) ==> NonDecreasing([0] + rs)
  {
  }

  lemma {:induction false} SumOfZeroFirst(rs: seq<int>)
    ensures SumOf([0] + rs) == SumOf(rs)
    decreases |rs|
  {
    if rs != [] {
      assert ([0] + rs)[..|rs|] == [0] + rs[..|rs| - 1];
      SumOfZeroFirst(rs[..|rs| - 1]);
    }
  }

  /** A retransmission of the latest report is free, whatever came before. */
  lemma RetransmissionIsFree(stored: int, rs: seq<int>)
    requires rs != [] && InRange(rs)
    ensures Charged(stored, rs + [rs[|rs| - 1]]) == Charged(stored, rs)
  {
    var last := rs[|rs| - 1];
    ChargedSnoc(stored, rs, last);
    assert ([stored] + rs)[|rs|] == last;
    DeltaExact(last, last);
  }

  /** One session metered by two servers: the first from zero, the second from the
      counter `c` it copied from the database. When no counter goes backwards, both
      together charge the true total plus everything both of them counted above `c`. */
  lemma SplitSessionOvercharge(first: seq<int>, c: int, second: seq<int>)
    requires first != [] && second != []
    requires InRange([0] + first) && InRange([c] + second)
    requires NonDecreasing([0] + first) && NonDecreasing([c] + second)
    ensures var a, b := first[|first| - 1], second[|second| - 1];
            var truth := if a >= b then a else b;
            && Charged(0, first) + Charged(c, second) == truth + ((if a >= b then b else a) - c)
            && (Charged(0, first) + Charged(c, second) == truth <==> c == if a >= b then b else a)
  {
    ChargedIsPeaks(0, first);
    PeaksBounds([0] + first);
    ChargedIsPeaks(c, second);
    PeaksBounds([c] + second);
  }
}
