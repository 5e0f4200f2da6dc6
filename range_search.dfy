/**
 * Precursor-mass range search over one index part: the peptide entries of a
 * part are sorted by precursor mass, and a query mass p with tolerance dM
 * selects the index range [minlimit, maxlimit] of entries whose mass lies in
 * [p - dM, p + dM] (DSLIM_BinarySearch, DSLIM_BinFindMin, DSLIM_BinFindMax).
 *
 * Masses are modelled as reals. BinFindMin and BinFindMax halve the range
 * recursively and switch to a linear scan once the range spans fewer than 20
 * entries; on an exact hit they walk through the run of equal masses so that
 * ties at either bound are included.
 */
module RangeSearch {

  import opened Common

  /** The entries of an index part are sorted by ascending mass. */
  ghost predicate Sorted(s: seq<real>)
  {
    forall i, j :: 0 <= i <= j < |s| ==> s[i] <= s[j]
  }

  /** Mass m lies in the precursor window of query mass p with tolerance dM. */
  predicate InWindow(m: real, p: real, dM: real)
  {
    p - dM <= m <= p + dM
  }

  // ---------------------------------------------------------------------
  // Reference definitions: plain linear searches.
  // ---------------------------------------------------------------------

  /** The first index at or after `from` whose mass is at least p (|s| if none). */
  function FirstAtLeast(s: seq<real>, p: real, from: nat): (r: nat)
    requires from <= |s|
    ensures from <= r <= |s|
    ensures r < |s| ==> s[r] >= p
    ensures forall j :: from <= j < r ==> s[j] < p
    decreases |s| - from
  {
    if from == |s| then |s|
    else if s[from] >= p then from
    else FirstAtLeast(s, p, from + 1)
  }

  /** The last index at or before `upto` whose mass is at most p (-1 if none). */
  function LastAtMost(s: seq<real>, p: real, upto: int): (r: int)
    requires -1 <= upto < |s|
    ensures -1 <= r <= upto
    ensures r >= 0 ==> s[r] <= p
    ensures forall j :: r < j <= upto ==> s[j] > p
    decreases upto + 1
  {
    if upto < 0 then -1
    else if s[upto] <= p then upto
    else LastAtMost(s, p, upto - 1)
  }

  /** An index k is FirstAtLeast as soon as it is the first qualifying index after `from`. */
  lemma {:induction false} FirstAtLeastIs(s: seq<real>, p: real, from: nat, k: nat)
    requires from <= k < |s|
    requires s[k] >= p
    requires forall j :: from <= j < k ==> s[j] < p
    ensures FirstAtLeast(s, p, from) == k
    decreases k - from
  {
    if from < k {
      FirstAtLeastIs(s, p, from + 1, k);
    }
  }

  /** An index k is LastAtMost as soon as it is the last qualifying index before `upto`. */
  lemma {:induction false} LastAtMostIs(s: seq<real>, p: real, upto: int, k: nat)
    requires k <= upto < |s|
    requires s[k] <= p
    requires forall j :: k < j <= upto ==> s[j] > p
    ensures LastAtMost(s, p, upto) == k
    decreases upto - k
  {
    if k < upto {
      LastAtMostIs(s, p, upto - 1, k);
    }
  }

  /**
   * The non-empty index range of the entries inside the window [p - dM, p + dM],
   * or None when no entry lies in the window: the specification of the search.
   */
  function WindowOf(s: seq<real>, p: real, dM: real): (r: Option<(nat, nat)>)
    requires Sorted(s)
    ensures r.Some? ==> r.value.0 <= r.value.1 < |s|
    ensures r.Some? ==> forall i :: 0 <= i < |s| ==> (r.value.0 <= i <= r.value.1 <==> InWindow(s[i], p, dM))
    ensures r.None? <==> forall i :: 0 <= i < |s| ==> !InWindow(s[i], p, dM)
  {
    if |s| == 0 then None
    else
      var lo := FirstAtLeast(s, p - dM, 0);
      var hi := LastAtMost(s, p + dM, |s| - 1);
      assert forall i :: 0 <= i < |s| && InWindow(s[i], p, dM) ==> lo <= i <= hi;
      if 0 <= hi && lo <= hi then
        assert InWindow(s[lo], p, dM);
        Some((lo, hi))
      else
        None
  }

  // ---------------------------------------------------------------------
  // The search itself (source/core/dslim_query.cpp:944-1027), with the two
  // tie walks bounded by the searched range.
  // ---------------------------------------------------------------------

  /**
   * DSLIM_BinFindMin: the smallest index of [min, max] whose mass is at least
   * pmass1. The range halves while it spans 20 or more entries.
   */
  method BinFindMin(entries: seq<real>, pmass1: real, min: nat, max: nat) returns (r: nat)
    requires Sorted(entries)
    requires min <= max < |entries|
    requires entries[min] <= pmass1 <= entries[max]
    ensures min <= r <= max
    ensures r == FirstAtLeast(entries, pmass1, min)
    decreases max - min
  {
    var half := (min + max) / 2;

    if max - min < 20 {
      var current := min;
      while entries[current] < pmass1
        invariant min <= current <= max
        invariant forall j :: min <= j < current ==> entries[j] < pmass1
        decreases max - current
      {
        current := current + 1;
      }
      FirstAtLeastIs(entries, pmass1, min, current);
      return current;
    }

    if pmass1 > entries[half] {
      r := BinFindMin(entries, pmass1, half, max);
      FirstAtLeastIs(entries, pmass1, min, r);
      return;
    } else if pmass1 < entries[half] {
      r := BinFindMin(entries, pmass1, min, half);
      return;
    }

    // entries[half] == pmass1: walk down through the run of equal masses
    ghost var top := half;
    var h: int := half;
    while h >= min && pmass1 == entries[h]
      invariant min - 1 <= h <= top
      invariant forall j :: h < j <= top ==> entries[j] == pmass1
      decreases h
    {
      h := h - 1;
    }
    r := h + 1;
    FirstAtLeastIs(entries, pmass1, min, r);
  }

  /**
   * DSLIM_BinFindMax: the largest index of [min, max] whose mass is at most
   * pmass2. The range halves while it spans 20 or more entries.
   */
  method BinFindMax(entries: seq<real>, pmass2: real, min: nat, max: nat) returns (r: nat)
    requires Sorted(entries)
    requires min <= max < |entries|
    requires entries[min] <= pmass2 <= entries[max]
    ensures min <= r <= max
    ensures r == LastAtMost(entries, pmass2, max)
    decreases max - min
  {
    var half := (min + max) / 2;

    if max - min < 20 {
      var current := max;
      while entries[current] > pmass2
        invariant min <= current <= max
        invariant forall j :: current < j <= max ==> entries[j] > pmass2
        decreases current - min
      {
        current := current - 1;
      }
      LastAtMostIs(entries, pmass2, max, current);
      return current;
    }

    if pmass2 > entries[half] {
      r := BinFindMax(entries, pmass2, half, max);
      return;
    } else if pmass2 < entries[half] {
      r := BinFindMax(entries, pmass2, min, half);
      LastAtMostIs(entries, pmass2, max, r);
      return;
    }

    // entries[half] == pmass2: walk up through the run of equal masses
    ghost var bottom := half;
    var h := half + 1;
    while h <= max && pmass2 == entries[h]
      invariant bottom < h <= max + 1
      invariant forall j :: bottom <= j < h ==> entries[j] == pmass2
      decreases max + 1 - h
    {
      h := h + 1;
    }
    r := h - 1;
    LastAtMostIs(entries, pmass2, max, r);
  }

  /**
   * The lower-limit step of DSLIM_BinarySearch: index 0 when p - dM lies below
   * the first mass, the last index (and a miss) when it lies above the last,
   * otherwise BinFindMin over the whole part.
   */
  method LowerLimit(entries: seq<real>, pmass1: real) returns (minlimit: nat, above: bool)
    requires Sorted(entries) && |entries| > 0
    ensures above <==> pmass1 > entries[|entries| - 1]
    ensures above ==> minlimit == |entries| - 1
    ensures !above ==> minlimit == FirstAtLeast(entries, pmass1, 0) < |entries|
  {
    var min: nat := 0;
    var max: nat := |entries| - 1;
    above := false;
    if pmass1 < entries[min] {
      minlimit := min;
      FirstAtLeastIs(entries, pmass1, 0, 0);
    } else if pmass1 > entries[max] {
      minlimit := max;
      above := true;
    } else {
      minlimit := BinFindMin(entries, pmass1, min, max);
    }
  }

  /**
   * The upper-limit step: the last index when p + dM lies above the last
   * mass, index 0 (and a miss) when it lies below the first, otherwise
   * BinFindMax over the whole part.
   */
  method UpperLimit(entries: seq<real>, pmass2: real) returns (maxlimit: nat, below: bool)
    requires Sorted(entries) && |entries| > 0
    ensures below <==> pmass2 < entries[0]
    ensures below ==> maxlimit == 0
    ensures !below ==> maxlimit == LastAtMost(entries, pmass2, |entries| - 1) && maxlimit < |entries|
  {
    var min: nat := 0;
    var max: nat := |entries| - 1;
    below := false;
    if pmass2 > entries[max] {
      maxlimit := max;
      LastAtMostIs(entries, pmass2, max, max);
    } else if pmass2 < entries[min] {
      maxlimit := min;
      below := true;
    } else {
      maxlimit := BinFindMax(entries, pmass2, min, max);
    }
  }

  /**
   * DSLIM_BinarySearch: the limits [minlimit, maxlimit] of the entries whose
   * mass lies in [precmass - dM, precmass + dM], and a found flag. The caller
   * skips the part when the flag is false or maxlimit < minlimit.
   */
  method BinarySearch(entries: seq<real>, dM: real, precmass: real)
    returns (rv: bool, minlimit: int, maxlimit: int)
    requires Sorted(entries)
    ensures |entries| == 0 ==> !rv && maxlimit < minlimit
    // a negative tolerance: the whole part, reported as not found
    ensures dM < 0.0 ==> !rv && minlimit == 0 && maxlimit == |entries| - 1
    // the window lies wholly above the last mass
    ensures dM >= 0.0 && |entries| > 0 && precmass - dM > entries[|entries| - 1]
      ==> !rv && minlimit == |entries| - 1 && maxlimit == |entries| - 1
    // the window lies wholly below the first mass
    ensures dM >= 0.0 && |entries| > 0 && precmass + dM < entries[0]
      ==> !rv && minlimit == 0 && maxlimit == 0
    // the limits are indices of the part and the flag is the source's final test
    ensures |entries| > 0 ==> 0 <= minlimit < |entries| && 0 <= maxlimit < |entries|
    ensures |entries| > 0 ==> (rv <==> entries[maxlimit] <= precmass + dM && entries[minlimit] >= precmass - dM)
    ensures rv <==> dM >= 0.0 && |entries| > 0 && entries[0] <= precmass + dM && precmass - dM <= entries[|entries| - 1]
    // when found, the limits are the first index >= p - dM and the last index <= p + dM
    ensures rv ==> minlimit == FirstAtLeast(entries, precmass - dM, 0)
    ensures rv ==> maxlimit == LastAtMost(entries, precmass + dM, |entries| - 1)
    // the range the caller scans is exactly the window
    ensures (rv && minlimit <= maxlimit) <==> WindowOf(entries, precmass, dM).Some?
    ensures rv && minlimit <= maxlimit ==> WindowOf(entries, precmass, dM) == Some((minlimit as nat, maxlimit as nat))
  {
    var pmass1 := precmass - dM;
    var pmass2 := precmass + dM;

    rv := false;
    if |entries| == 0 {
      return false, 0, -1;
    }

    var min: nat := 0;
    var max: nat := |entries| - 1;

    if dM < 0.0 {
      minlimit := min;
      maxlimit := max;
      assert WindowOf(entries, precmass, dM).None? by {
        assert forall i :: 0 <= i < |entries| ==> !InWindow(entries[i], precmass, dM);
      }
      return;
    }

    var above;
    minlimit, above := LowerLimit(entries, pmass1);
    if above {
      maxlimit := minlimit;
      return;
    }
    var below;
    maxlimit, below := UpperLimit(entries, pmass2);
    if below {
      minlimit := 0;
      return;
    }

    if entries[maxlimit] <= pmass2 && entries[minlimit] >= pmass1 {
      rv := true;
    }
  }

  // ---------------------------------------------------------------------
  // The code as written, every array read checked.
  // ---------------------------------------------------------------------

  /** The result of running a fragment of the source: an index, or the out-of-range index it reads. */
  datatype Probe = Index(at: int) | OutOfBounds(at: int)

  /** `while (entries[current].Mass < pmass1) current++;` */
  function ScanUpAsWritten(entries: seq<real>, pmass1: real, current: nat): (r: Probe)
    requires current <= |entries|
    ensures r.Index? ==> current <= r.at < |entries| && entries[r.at] >= pmass1
    ensures r.OutOfBounds? ==> r.at == |entries|
    decreases |entries| - current
  {
    if current == |entries| then OutOfBounds(current)
    else if entries[current] < pmass1 then ScanUpAsWritten(entries, pmass1, current + 1)
    else Index(current)
  }

  /** `while (entries[current].Mass > pmass2) current--;` */
  function ScanDownAsWritten(entries: seq<real>, pmass2: real, current: int): (r: Probe)
    requires -1 <= current < |entries|
    ensures r.Index? ==> 0 <= r.at <= current && entries[r.at] <= pmass2
    ensures r.OutOfBounds? ==> r.at == -1
    decreases current + 1
  {
    if current == -1 then OutOfBounds(current)
    else if entries[current] > pmass2 then ScanDownAsWritten(entries, pmass2, current - 1)
    else Index(current)
  }

  /** `while (pmass1 == entries[half].Mass) half--; half++;` started at index i. */
  function WalkDownAsWritten(entries: seq<real>, pmass1: real, i: int): (r: Probe)
    requires 0 <= i < |entries|
    ensures r.Index? ==> 0 < r.at <= i + 1 && entries[r.at - 1] != pmass1
    ensures r.OutOfBounds? <==> forall j :: 0 <= j <= i ==> entries[j] == pmass1
    ensures r.OutOfBounds? ==> r.at == -1
    decreases i
  {
    if entries[i] != pmass1 then Index(i + 1)
    else if i == 0 then OutOfBounds(-1)
    else WalkDownAsWritten(entries, pmass1, i - 1)
  }

  /** `half++; while (pmass2 == entries[half].Mass) half++; half--;` started at index i = half + 1. */
  function WalkUpAsWritten(entries: seq<real>, pmass2: real, i: nat): (r: Probe)
    requires 1 <= i <= |entries|
    ensures r.Index? ==> i - 1 <= r.at < |entries| - 1 && entries[r.at + 1] != pmass2
    ensures r.OutOfBounds? <==> forall j :: i <= j < |entries| ==> entries[j] == pmass2
    ensures r.OutOfBounds? ==> r.at == |entries|
    decreases |entries| - i
  {
    if i == |entries| then OutOfBounds(i)
    else if entries[i] != pmass2 then Index(i - 1)
    else WalkUpAsWritten(entries, pmass2, i + 1)
  }

  /** DSLIM_BinFindMin exactly as written (source/core/dslim_query.cpp:944-984). */
  function BinFindMinAsWritten(entries: seq<real>, pmass1: real, min: nat, max: nat): (r: Probe)
    requires min <= max < |entries|
    ensures r.OutOfBounds? ==> r.at == -1 || r.at == |entries|
    decreases max - min
  {
    var half := (min + max) / 2;
    if max - min < 20 then ScanUpAsWritten(entries, pmass1, min)
    else if pmass1 > entries[half] then BinFindMinAsWritten(entries, pmass1, half, max)
    else if pmass1 < entries[half] then BinFindMinAsWritten(entries, pmass1, min, half)
    else WalkDownAsWritten(entries, pmass1, half)
  }

  /** DSLIM_BinFindMax exactly as written (source/core/dslim_query.cpp:986-1027). */
  function BinFindMaxAsWritten(entries: seq<real>, pmass2: real, min: nat, max: nat): (r: Probe)
    requires min <= max < |entries|
    ensures r.OutOfBounds? ==> r.at == -1 || r.at == |entries|
    decreases max - min
  {
    var half := (min + max) / 2;
    if max - min < 20 then ScanDownAsWritten(entries, pmass2, max)
    else if pmass2 > entries[half] then BinFindMaxAsWritten(entries, pmass2, half, max)
    else if pmass2 < entries[half] then BinFindMaxAsWritten(entries, pmass2, min, half)
    else WalkUpAsWritten(entries, pmass2, half + 1)
  }

  /** `UINT max = index->lcltotCnt - 1;` with 32-bit unsigned wrap-around. */
  function LastIndexAsWritten(count: nat): (r: nat)
    requires count < 0x1_0000_0000
    ensures count > 0 ==> r == count - 1
    ensures count == 0 ==> r == 0xFFFF_FFFF
  {
    (count + 0xFFFF_FFFF) % 0x1_0000_0000
  }

  /** Twenty-one entries of equal mass: the smallest array the recursion halves at once. */
  function EqualRun(m: real): (s: seq<real>)
    ensures |s| == 21 && Sorted(s)
  {
    seq(21, _ => m)
  }

  /**
   * With 21 equal masses and pmass1 equal to them, BinFindMin as written
   * reaches the tie walk at index 10 and walks down to entries[-1].
   */
  lemma TieWalkDownReadsBeforeFirstEntry(m: real)
    ensures BinFindMinAsWritten(EqualRun(m), m, 0, 20) == OutOfBounds(-1)
  {
    var s := EqualRun(m);
    assert s[10] == m;
    assert forall j :: 0 <= j <= 10 ==> s[j] == m;
  }

  /**
   * With 21 equal masses and pmass2 equal to them, BinFindMax as written
   * reaches the tie walk at index 10 and walks up to entries[21], past max.
   */
  lemma TieWalkUpReadsPastLastEntry(m: real)
    ensures BinFindMaxAsWritten(EqualRun(m), m, 0, 20) == OutOfBounds(21)
  {
    var s := EqualRun(m);
    assert s[10] == m;
    assert forall j :: 11 <= j < 21 ==> s[j] == m;
  }

  /** An empty part makes the source's last index wrap to 2^32 - 1, past the entries. */
  lemma EmptyPartLastIndexWraps()
    ensures LastIndexAsWritten(0) == 0xFFFF_FFFF
  {
  }

  /**
   * Where the as-written minimum search stays inside the array, it agrees with
   * the corrected one: the only discrepancy is the read before index 0.
   */
  lemma {:induction false} BinFindMinAsWrittenAgrees(entries: seq<real>, pmass1: real, min: nat, max: nat)
    requires Sorted(entries)
    requires min <= max < |entries|
    requires entries[min] <= pmass1 <= entries[max]
    requires min > 0 ==> entries[min] < pmass1
    ensures var r := BinFindMinAsWritten(entries, pmass1, min, max);
      r == Index(FirstAtLeast(entries, pmass1, min)) || (r == OutOfBounds(-1) && min == 0 && entries[0] == pmass1)
    decreases max - min
  {
    var half := (min + max) / 2;
    if max - min < 20 {
      ScanUpAgrees(entries, pmass1, min, max, min);
    } else if pmass1 > entries[half] {
      BinFindMinAsWrittenAgrees(entries, pmass1, half, max);
      var r := FirstAtLeast(entries, pmass1, half);
      FirstAtLeastIs(entries, pmass1, min, r);
    } else if pmass1 < entries[half] {
      BinFindMinAsWrittenAgrees(entries, pmass1, min, half);
    } else {
      WalkDownAgrees(entries, pmass1, min, half);
    }
  }

  /** The as-written linear scan from `current` finds FirstAtLeast when entries[max] bounds it. */
  lemma {:induction false} ScanUpAgrees(entries: seq<real>, pmass1: real, min: nat, max: nat, current: nat)
    requires min <= current <= max < |entries|
    requires entries[max] >= pmass1
    requires forall j :: min <= j < current ==> entries[j] < pmass1
    ensures ScanUpAsWritten(entries, pmass1, current) == Index(FirstAtLeast(entries, pmass1, min))
    decreases max - current
  {
    if entries[current] < pmass1 {
      ScanUpAgrees(entries, pmass1, min, max, current + 1);
    } else {
      FirstAtLeastIs(entries, pmass1, min, current);
    }
  }

  /** The as-written tie walk from an exact hit at i finds FirstAtLeast, unless it runs off index 0. */
  lemma {:induction false} WalkDownAgrees(entries: seq<real>, pmass1: real, min: nat, i: nat)
    requires Sorted(entries)
    requires min <= i < |entries|
    requires entries[i] == pmass1
    requires min > 0 ==> entries[min] < pmass1
    ensures var r := WalkDownAsWritten(entries, pmass1, i);
      r == Index(FirstAtLeast(entries, pmass1, min)) || (r == OutOfBounds(-1) && min == 0)
    decreases i - min
  {
    if i > min {
      if entries[i - 1] != pmass1 {
        assert WalkDownAsWritten(entries, pmass1, i - 1) == Index(i);
        FirstAtLeastIs(entries, pmass1, min, i);
      } else {
        WalkDownAgrees(entries, pmass1, min, i - 1);
      }
    }
  }

  /**
   * Where the as-written maximum search stays inside the array, it agrees with
   * the corrected one: the only discrepancy is the read past the last entry.
   */
  lemma {:induction false} BinFindMaxAsWrittenAgrees(entries: seq<real>, pmass2: real, min: nat, max: nat)
    requires Sorted(entries)
    requires min <= max < |entries|
    requires entries[min] <= pmass2 <= entries[max]
    requires max < |entries| - 1 ==> entries[max] > pmass2
    ensures var r := BinFindMaxAsWritten(entries, pmass2, min, max);
      r == Index(LastAtMost(entries, pmass2, max)) || (r == OutOfBounds(|entries|) && max == |entries| - 1)
    decreases max - min
  {
    var half := (min + max) / 2;
    if max - min < 20 {
      ScanDownAgrees(entries, pmass2, min, max, max);
    } else if pmass2 > entries[half] {
      BinFindMaxAsWrittenAgrees(entries, pmass2, half, max);
    } else if pmass2 < entries[half] {
      BinFindMaxAsWrittenAgrees(entries, pmass2, min, half);
      var r := LastAtMost(entries, pmass2, half);
      LastAtMostIs(entries, pmass2, max, r);
    } else {
      WalkUpAgrees(entries, pmass2, max, half);
    }
  }

  /** The as-written linear scan down from `current` finds LastAtMost when entries[min] bounds it. */
  lemma {:induction false} ScanDownAgrees(entries: seq<real>, pmass2: real, min: nat, max: nat, current: nat)
    requires min <= current <= max < |entries|
    requires entries[min] <= pmass2
    requires forall j :: current < j <= max ==> entries[j] > pmass2
    ensures ScanDownAsWritten(entries, pmass2, current) == Index(LastAtMost(entries, pmass2, max))
    decreases current - min
  {
    if entries[current] > pmass2 {
      ScanDownAgrees(entries, pmass2, min, max, current - 1);
    } else {
      LastAtMostIs(entries, pmass2, max, current);
    }
  }

  /** The as-written tie walk up from an exact hit at i finds LastAtMost, unless it runs past the last entry. */
  lemma {:induction false} WalkUpAgrees(entries: seq<real>, pmass2: real, max: nat, i: nat)
    requires Sorted(entries)
    requires i <= max < |entries|
    requires entries[i] == pmass2
    requires max < |entries| - 1 ==> entries[max] > pmass2
    ensures var r := WalkUpAsWritten(entries, pmass2, i + 1);
      r == Index(LastAtMost(entries, pmass2, max)) || (r == OutOfBounds(|entries|) && max == |entries| - 1)
    decreases max - i
  {
    if i < max {
      if entries[i + 1] != pmass2 {
        assert WalkUpAsWritten(entries, pmass2, i + 1) == Index(i);
        LastAtMostIs(entries, pmass2, max, i);
      } else {
        WalkUpAgrees(entries, pmass2, max, i + 1);
      }
    }
  }
}
