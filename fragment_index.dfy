/**
 * The inverted fragment-ion index of one chunk (ionIndex[chno]) and the
 * selection of occurrences by peptide window.
 *
 * bA maps each scaled fragment-mass bin b to the start of its occurrence list
 * in iA; the list of bin b is iA[bA[b] .. bA[b+1]]. An occurrence is the
 * encoded value peptide * speclen + ion offset, and each bin's list is sorted,
 * so the occurrences of the peptides in [minlimit, maxlimit] form one
 * contiguous block of the list, found with lower_bound and upper_bound.
 */
module FragmentIndex {

  datatype IonChunk = IonChunk(bA: seq<nat>, iA: seq<nat>)

  /** a[lo..hi] is sorted. */
  ghost predicate SortedRange(a: seq<nat>, lo: nat, hi: nat)
    requires lo <= hi <= |a|
  {
    forall i, j :: lo <= i <= j < hi ==> a[i] <= a[j]
  }

  /**
   * A well-formed chunk: bin starts ascend and stay inside iA, and each bin's
   * occurrence list is sorted.
   */
  ghost predicate ChunkShape(c: IonChunk)
  {
    && |c.bA| > 0
    && (forall b :: 0 <= b < |c.bA| ==> c.bA[b] <= |c.iA|)
    && (forall a, b :: 0 <= a <= b < |c.bA| ==> c.bA[a] <= c.bA[b])
    && (forall b :: 0 <= b < |c.bA| - 1 ==> SortedRange(c.iA, c.bA[b], c.bA[b + 1]))
  }

  /**
   * A well-formed chunk whose bA has an entry for every bin below maxBins,
   * the number of scaled fragment-mass bins (maxmass * scale rounded up).
   */
  ghost predicate ChunkOk(c: IonChunk, maxBins: nat)
  {
    ChunkShape(c) && maxBins <= |c.bA|
  }

  /** The occurrence list of bin b: iA[bA[b] .. bA[b + 1]]. */
  function BinList(c: IonChunk, b: nat): seq<nat>
    requires ChunkShape(c) && b + 1 < |c.bA|
  {
    c.iA[c.bA[b]..c.bA[b + 1]]
  }

  /**
   * A peak q is matched only when dF < q < maxmass * scale - 1 - dF; peaks
   * outside this band (zeros among them) are trivial and skipped. With
   * maxBins = maxmass * scale rounded up, the upper test on whole numbers
   * reads q < maxBins - 1 - dF (see UsableAgreesWithScaledMass).
   */
  predicate Usable(q: nat, dF: nat, maxBins: nat)
  {
    q > dF && q < maxBins - 1 - dF
  }

  /** The least whole number not below m. */
  function Ceil(m: real): (r: int)
    ensures (r - 1) as real < m <= r as real
  {
    if m.Floor as real == m then m.Floor else m.Floor + 1
  }

  /** The whole-number test agrees with the source's comparison against the floating bound. */
  lemma UsableAgreesWithScaledMass(q: nat, dF: nat, maxMassScaled: real)
    requires maxMassScaled >= 0.0
    ensures Usable(q, dF, Ceil(maxMassScaled) as nat)
        <==> q > dF && (q as real) < maxMassScaled - 1.0 - (dF as real)
  {
    var k := q + 1 + dF;
    var m := Ceil(maxMassScaled);
    if k < m {
      assert (k as real) <= (m - 1) as real;
    } else {
      assert (k as real) >= m as real;
    }
  }

  /** Every bin q - dF .. q + dF of a usable peak, and the bin after them, has an entry in bA. */
  lemma UsableBinsInIndex(c: IonChunk, q: nat, dF: nat, maxBins: nat)
    requires ChunkOk(c, maxBins)
    requires Usable(q, dF, maxBins)
    ensures q + dF + 1 < |c.bA|
  {
  }

  /**
   * Ions per peptide in the encoding, (peplen - 1) * maxz * iSERIES; a
   * zero-length peptide has none.
   */
  function IonsPerPeptide(peplen: nat, maxz: nat, iSeries: nat): nat
  {
    if peplen == 0 then 0 else (peplen - 1) * maxz * iSeries
  }

  /** The peptide an occurrence belongs to. */
  function PeptideOf(raw: nat, speclen: nat): nat
    requires speclen > 0
  {
    raw / speclen
  }

  /** An occurrence is a b-ion when its ion offset lies in the lower half of speclen, else a y-ion. */
  predicate IsBIon(raw: nat, speclen: nat)
    requires speclen > 0
  {
    raw % speclen < speclen / 2
  }

  /** The occurrences of occ whose peptide lies in [minlimit, maxlimit], in order. */
  function Selected(occ: seq<nat>, speclen: nat, minlimit: nat, maxlimit: nat): seq<nat>
    requires speclen > 0
  {
    if occ == [] then []
    else
      var last := occ[|occ| - 1];
      var front := Selected(occ[..|occ| - 1], speclen, minlimit, maxlimit);
      if minlimit <= PeptideOf(last, speclen) <= maxlimit then front + [last] else front
  }

  /**
   * The selected occurrences are exactly the occurrences of occ whose
   * peptide lies in the window, and there are no more of them than of occ.
   */
  lemma {:induction false} SelectedMembers(occ: seq<nat>, speclen: nat, minlimit: nat, maxlimit: nat)
    requires speclen > 0
    ensures |Selected(occ, speclen, minlimit, maxlimit)| <= |occ|
    ensures forall x :: x in Selected(occ, speclen, minlimit, maxlimit) <==> x in occ && minlimit <= PeptideOf(x, speclen) <= maxlimit
    decreases |occ|
  {
    if occ != [] {
      var n := |occ| - 1;
      SelectedMembers(occ[..n], speclen, minlimit, maxlimit);
      assert occ == occ[..n] + [occ[n]];
    }
  }

  /** Selection distributes over concatenation. */
  lemma {:induction false} SelectedConcat(a: seq<nat>, b: seq<nat>, speclen: nat, minlimit: nat, maxlimit: nat)
    requires speclen > 0
    ensures Selected(a + b, speclen, minlimit, maxlimit)
         == Selected(a, speclen, minlimit, maxlimit) + Selected(b, speclen, minlimit, maxlimit)
    decreases |b|
  {
    if b == [] {
      assert a + b == a;
    } else {
      var b' := b[..|b| - 1];
      assert (a + b)[..|a + b| - 1] == a + b';
      assert (a + b)[|a + b| - 1] == b[|b| - 1];
      SelectedConcat(a, b', speclen, minlimit, maxlimit);
    }
  }

  lemma MulMono(a: nat, b: nat, c: nat)
    requires a <= b
    ensures a * c <= b * c
  {
    var d := b - a;
    assert b * c == a * c + d * c;
  }

  /**
   * The key window [minlimit * speclen, (maxlimit + 1) * speclen - 1] holds
   * exactly the occurrences whose peptide lies in [minlimit, maxlimit].
   */
  lemma DecodeRange(raw: nat, speclen: nat, minlimit: nat, maxlimit: nat)
    requires speclen > 0
    ensures (minlimit * speclen <= raw <= (maxlimit + 1) * speclen - 1)
        <==> (minlimit <= PeptideOf(raw, speclen) <= maxlimit)
  {
    var q := raw / speclen;
    var r := raw % speclen;
    assert raw == q * speclen + r && 0 <= r < speclen;
    if minlimit <= q { MulMono(minlimit, q, speclen); } else { MulMono(q + 1, minlimit, speclen); }
    if q <= maxlimit { MulMono(q + 1, maxlimit + 1, speclen); } else { MulMono(maxlimit + 1, q, speclen); }
  }

  /** A list none of whose occurrences lies in the window selects nothing. */
  lemma {:induction false} SelectedNone(u: seq<nat>, speclen: nat, minlimit: nat, maxlimit: nat)
    requires speclen > 0
    requires forall j :: 0 <= j < |u| ==> !(minlimit <= PeptideOf(u[j], speclen) <= maxlimit)
    ensures Selected(u, speclen, minlimit, maxlimit) == []
    decreases |u|
  {
    if u != [] {
      var n := |u| - 1;
      var front := u[..n];
      assert forall j :: 0 <= j < |front| ==> front[j] == u[j];
      SelectedNone(front, speclen, minlimit, maxlimit);
    }
  }

  /** A list all of whose occurrences lie in the window selects all of it. */
  lemma {:induction false} SelectedAll(u: seq<nat>, speclen: nat, minlimit: nat, maxlimit: nat)
    requires speclen > 0
    requires forall j :: 0 <= j < |u| ==> minlimit <= PeptideOf(u[j], speclen) <= maxlimit
    ensures Selected(u, speclen, minlimit, maxlimit) == u
    decreases |u|
  {
    if u != [] {
      var n := |u| - 1;
      var front := u[..n];
      assert forall j :: 0 <= j < |front| ==> front[j] == u[j];
      SelectedAll(front, speclen, minlimit, maxlimit);
      assert u == front + [u[n]];
    }
  }

  /** Outside, inside, outside: only the middle part is selected. */
  lemma SelectedThree(a: seq<nat>, b: seq<nat>, d: seq<nat>, speclen: nat, minlimit: nat, maxlimit: nat)
    requires speclen > 0
    requires forall j :: 0 <= j < |a| ==> !(minlimit <= PeptideOf(a[j], speclen) <= maxlimit)
    requires forall j :: 0 <= j < |b| ==> minlimit <= PeptideOf(b[j], speclen) <= maxlimit
    requires forall j :: 0 <= j < |d| ==> !(minlimit <= PeptideOf(d[j], speclen) <= maxlimit)
    ensures Selected(a + b + d, speclen, minlimit, maxlimit) == b
  {
    SelectedNone(a, speclen, minlimit, maxlimit);
    SelectedAll(b, speclen, minlimit, maxlimit);
    SelectedNone(d, speclen, minlimit, maxlimit);
    SelectedConcat(a, b, speclen, minlimit, maxlimit);
    SelectedConcat(a + b, d, speclen, minlimit, maxlimit);
  }

  lemma SplitThree(t: seq<nat>, i: nat, k: nat)
    requires i <= k <= |t|
    ensures t == t[..i] + t[i..k] + t[k..]
  {
    assert t[..k] == t[..i] + t[i..k];
    assert t == t[..k] + t[k..];
  }

  /**
   * A list split into a part below the key window, a part inside it and a
   * part above it selects exactly its middle part.
   */
  lemma BlockIsSelected(t: seq<nat>, i: nat, k: nat, speclen: nat, minlimit: nat, maxlimit: nat)
    requires speclen > 0
    requires i <= k <= |t|
    requires forall j :: 0 <= j < i ==> t[j] < minlimit * speclen
    requires forall j :: i <= j < k ==> minlimit * speclen <= t[j] <= (maxlimit + 1) * speclen - 1
    requires forall j :: k <= j < |t| ==> t[j] > (maxlimit + 1) * speclen - 1
    ensures Selected(t, speclen, minlimit, maxlimit) == t[i..k]
  {
    forall j | 0 <= j < |t|
      ensures (minlimit * speclen <= t[j] <= (maxlimit + 1) * speclen - 1)
          <==> (minlimit <= PeptideOf(t[j], speclen) <= maxlimit)
    {
      DecodeRange(t[j], speclen, minlimit, maxlimit);
    }
    SplitThree(t, i, k);
    SelectedThree(t[..i], t[i..k], t[k..], speclen, minlimit, maxlimit);
  }

  /** std::lower_bound on a[lo..hi]: the first position whose value is not below key. */
  method LowerBound(a: seq<nat>, lo: nat, hi: nat, key: int) returns (r: nat)
    requires lo <= hi <= |a|
    requires SortedRange(a, lo, hi)
    ensures lo <= r <= hi
    ensures forall j :: lo <= j < r ==> a[j] < key
    ensures forall j :: r <= j < hi ==> a[j] >= key
  {
    var first := lo;
    var count := hi - lo;
    while count > 0
      invariant 0 <= count && lo <= first && first + count <= hi
      invariant forall j :: lo <= j < first ==> a[j] < key
      invariant forall j :: first + count <= j < hi ==> a[j] >= key
      decreases count
    {
      var step := count / 2;
      var it := first + step;
      if a[it] < key {
        first := it + 1;
        count := count - step - 1;
      } else {
        count := step;
      }
    }
    r := first;
  }

  /** std::upper_bound on a[lo..hi]: the first position whose value is above key. */
  method UpperBound(a: seq<nat>, lo: nat, hi: nat, key: int) returns (r: nat)
    requires lo <= hi <= |a|
    requires SortedRange(a, lo, hi)
    ensures lo <= r <= hi
    ensures forall j :: lo <= j < r ==> a[j] <= key
    ensures forall j :: r <= j < hi ==> a[j] > key
  {
    var first := lo;
    var count := hi - lo;
    while count > 0
      invariant 0 <= count && lo <= first && first + count <= hi
      invariant forall j :: lo <= j < first ==> a[j] <= key
      invariant forall j :: first + count <= j < hi ==> a[j] > key
      decreases count
    {
      var step := count / 2;
      var it := first + step;
      if !(key < a[it]) {
        first := it + 1;
        count := count - step - 1;
      } else {
        count := step;
      }
    }
    r := first;
  }

  /**
   * The occurrence sub-range of one sorted bin list iA[start..end] for the
   * peptide window [minlimit, maxlimit]: stt from lower_bound of
   * minlimit * speclen, ends one before upper_bound of
   * (maxlimit + 1) * speclen - 1. It is exactly the selected occurrences.
   */
  method OccurrenceRange(iA: seq<nat>, start: nat, end: nat, speclen: nat, minlimit: nat, maxlimit: nat)
    returns (stt: nat, ends: int)
    requires start <= end <= |iA|
    requires SortedRange(iA, start, end)
    requires speclen > 0
    ensures start <= stt <= ends + 1 <= end
    ensures iA[stt..ends + 1] == Selected(iA[start..end], speclen, minlimit, maxlimit)
  {
    stt := LowerBound(iA, start, end, minlimit * speclen);
    var ub := UpperBound(iA, stt, end, (maxlimit + 1) * speclen - 1);
    ends := ub - 1;
    ghost var t := iA[start..end];
    ghost var i := stt - start;
    ghost var k := ub - start;
    assert forall j :: 0 <= j < |t| ==> t[j] == iA[start + j];
    assert forall j :: 0 <= j < i ==> t[j] < minlimit * speclen;
    assert forall j :: i <= j < k ==> minlimit * speclen <= t[j] <= (maxlimit + 1) * speclen - 1;
    assert forall j :: k <= j < |t| ==> t[j] > (maxlimit + 1) * speclen - 1;
    BlockIsSelected(t, i, k, speclen, minlimit, maxlimit);
    assert t[i..k] == iA[stt..ub];
  }
}
