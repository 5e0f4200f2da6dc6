/**
 * The legacy matcher: every usable peak of a query spectrum scans the whole
 * occurrence slice of the bins q - dF .. q + dF, with no precursor-mass
 * gating; each occurrence bumps a one-byte shared-ion counter and a floating
 * intensity sum of its peptide; each chunk then reports its single
 * best-scoring entry and clears the scorecard as it reads it.
 *
 * The scorecard is a class with the four arrays bc, yc, ibc and iyc, updated
 * in place. What a run adds to them is specified by a fold (Apply) over the
 * list of occurrences it matches; intensities are modelled as reals.
 */
module LegacyQuery {
  import opened FragmentIndex
  import Common
  import RangedQuery

  /**
   * One index part: the length of its peptides, its fragment-ion chunks, and
   * the number of peptides of a full chunk and of the last chunk.
   */
  datatype LegacyPart = LegacyPart(peplen: nat, ionIndex: seq<IonChunk>, chunksize: nat, lastchunksize: nat)

  /** One query spectrum: scaled peak m/z bins and their intensities. */
  datatype LegacySpectrum = LegacySpectrum(moz: seq<nat>, intensity: seq<real>)

  /**
   * Search parameters: fragment tolerance dF in bins, the number of
   * fragment-mass bins (maxmass * scale rounded up), the shared-peak
   * threshold, the maximum fragment charge, the ion-series count, the
   * hyperscore of an entry (bc, yc, ibc, iyc) and the global index
   * DSLIM_GenerateIndex gives entry it of part ixx.
   */
  datatype LegacyParams = LegacyParams(
    dF: nat, maxBins: nat, minShp: nat, maxz: nat, iSeries: nat,
    hyperscore: (nat, nat, real, real) -> real,
    generateIndex: (nat, nat) -> int)

  /** A matched occurrence with the intensity of the peak that matched it. */
  datatype Occurrence = Occurrence(raw: nat, intn: real)

  /** The contents of the four scorecard arrays. */
  datatype Cards = Cards(bc: seq<nat>, yc: seq<nat>, ibc: seq<real>, iyc: seq<real>)

  /** The best entry of a scan: its position (or -1) and its hyperscore. */
  datatype Pick = Pick(win: int, maxhv: real)

  /** What a chunk hands to HYPERSCORE_Calculate: query number, idaa and maxhv. */
  datatype ChunkReport = ChunkReport(query: nat, idaa: int, maxhv: real)

  function LegacySpecLen(part: LegacyPart, prm: LegacyParams): nat
  {
    IonsPerPeptide(part.peplen, prm.maxz, prm.iSeries)
  }

  /**
   * The number of scorecard entries chunk chno reads: lastchunksize for the
   * last of several chunks, chunksize otherwise (a part with a single chunk
   * reads chunksize).
   */
  function ChunkSize(part: LegacyPart, chno: nat): nat
  {
    if chno == |part.ionIndex| - 1 && |part.ionIndex| > 1 then part.lastchunksize else part.chunksize
  }

  /** The entries read by chunks 0 .. k - 1 together. */
  function ChunkSizeSum(part: LegacyPart, k: nat): nat
  {
    if k == 0 then 0 else ChunkSizeSum(part, k - 1) + ChunkSize(part, k - 1)
  }

  /**
   * The chunks of a part read (nChunks - 1) * chunksize + lastchunksize
   * entries when there are several of them, and nChunks * chunksize
   * otherwise; every proper prefix of the chunks reads k * chunksize.
   */
  lemma {:induction false} ChunkSizesTotal(part: LegacyPart, k: nat)
    requires k <= |part.ionIndex|
    ensures ChunkSizeSum(part, k)
         == if k == |part.ionIndex| && k > 1 then (k - 1) * part.chunksize + part.lastchunksize
            else k * part.chunksize
  {
    if k > 0 {
      ChunkSizesTotal(part, k - 1);
      assert ChunkSizeSum(part, k - 1) == (k - 1) * part.chunksize;
      assert k * part.chunksize == (k - 1) * part.chunksize + part.chunksize;
    }
  }

  /** Every occurrence of chunk c names a peptide below n. */
  ghost predicate ChunkLocal(c: IonChunk, speclen: nat, n: nat)
    requires speclen > 0
  {
    forall x :: x in c.iA ==> PeptideOf(x, speclen) < n
  }

  /**
   * A well-formed part: peptides have ions, every chunk is well formed and
   * names only peptides of its own chunk, below the entries the chunk reads.
   */
  ghost predicate LegacyPartOk(part: LegacyPart, prm: LegacyParams)
  {
    && LegacySpecLen(part, prm) > 0
    && forall chno :: 0 <= chno < |part.ionIndex| ==>
         ChunkOk(part.ionIndex[chno], prm.maxBins)
         && ChunkLocal(part.ionIndex[chno], LegacySpecLen(part, prm), ChunkSize(part, chno))
  }

  predicate SpectrumOk(s: LegacySpectrum)
  {
    |s.moz| == |s.intensity|
  }

  /**
   * The occurrences peak q scans: the whole slice iA[bA[q - dF] .. bA[q + 1 + dF]]
   * when q is usable, none otherwise.
   */
  function PeakSlice(c: IonChunk, q: nat, dF: nat, maxBins: nat): seq<nat>
    requires ChunkOk(c, maxBins)
  {
    if Usable(q, dF, maxBins) then
      UsableBinsInIndex(c, q, dF, maxBins);
      c.iA[c.bA[q - dF]..c.bA[q + 1 + dF]]
    else []
  }

  /** The occurrences of a slice, each carrying the peak's intensity. */
  function Tagged(occ: seq<nat>, intn: real): seq<Occurrence>
  {
    seq(|occ|, i requires 0 <= i < |occ| => Occurrence(occ[i], intn))
  }

  /** The occurrences matched by peaks 0 .. k - 1 of spectrum s, in peak order. */
  function SpectrumOccurrences(c: IonChunk, s: LegacySpectrum, k: nat, prm: LegacyParams): seq<Occurrence>
    requires ChunkOk(c, prm.maxBins) && SpectrumOk(s) && k <= |s.moz|
  {
    if k == 0 then []
    else SpectrumOccurrences(c, s, k - 1, prm) + Tagged(PeakSlice(c, s.moz[k - 1], prm.dF, prm.maxBins), s.intensity[k - 1])
  }

  lemma SpectrumOccurrencesStep(c: IonChunk, s: LegacySpectrum, k: nat, next: nat, prm: LegacyParams)
    requires ChunkOk(c, prm.maxBins) && SpectrumOk(s) && next == k + 1 && next <= |s.moz|
    ensures SpectrumOccurrences(c, s, next, prm)
         == SpectrumOccurrences(c, s, k, prm) + Tagged(PeakSlice(c, s.moz[k], prm.dF, prm.maxBins), s.intensity[k])
  {
  }

  /** Every occurrence matched in a chunk that names only peptides below n names a peptide below n. */
  lemma {:induction false} OccurrencesLocal(c: IonChunk, s: LegacySpectrum, k: nat, prm: LegacyParams, speclen: nat, n: nat)
    requires ChunkOk(c, prm.maxBins) && SpectrumOk(s) && k <= |s.moz| && speclen > 0
    requires ChunkLocal(c, speclen, n)
    ensures forall i :: 0 <= i < |SpectrumOccurrences(c, s, k, prm)| ==>
      PeptideOf(SpectrumOccurrences(c, s, k, prm)[i].raw, speclen) < n
  {
    if k > 0 {
      OccurrencesLocal(c, s, k - 1, prm, speclen, n);
      var front := SpectrumOccurrences(c, s, k - 1, prm);
      var peak := Tagged(PeakSlice(c, s.moz[k - 1], prm.dF, prm.maxBins), s.intensity[k - 1]);
      assert SpectrumOccurrences(c, s, k, prm) == front + peak;
      forall i | 0 <= i < |peak|
        ensures PeptideOf(peak[i].raw, speclen) < n
      {
        assert peak[i].raw in c.iA;
      }
    }
  }

  /** Occurrence o is a b-ion (bSeries) or a y-ion (!bSeries) of peptide p. */
  predicate Names(o: Occurrence, p: nat, speclen: nat, bSeries: bool)
    requires speclen > 0
  {
    PeptideOf(o.raw, speclen) == p && IsBIon(o.raw, speclen) == bSeries
  }

  /** How many occurrences are b-ions (or y-ions) of peptide p. */
  function Count(occs: seq<Occurrence>, p: nat, speclen: nat, bSeries: bool): nat
    requires speclen > 0
  {
    if occs == [] then 0
    else Count(occs[..|occs| - 1], p, speclen, bSeries) + if Names(occs[|occs| - 1], p, speclen, bSeries) then 1 else 0
  }

  /** The summed intensity of the occurrences that are b-ions (or y-ions) of peptide p. */
  function Sum(occs: seq<Occurrence>, p: nat, speclen: nat, bSeries: bool): real
    requires speclen > 0
  {
    if occs == [] then 0.0
    else Sum(occs[..|occs| - 1], p, speclen, bSeries) + if Names(occs[|occs| - 1], p, speclen, bSeries) then occs[|occs| - 1].intn else 0.0
  }

  /** A list none of whose occurrences names peptide p adds nothing to p. */
  lemma {:induction false} CountAbsent(occs: seq<Occurrence>, p: nat, speclen: nat)
    requires speclen > 0
    requires forall i :: 0 <= i < |occs| ==> PeptideOf(occs[i].raw, speclen) != p
    ensures Count(occs, p, speclen, true) == 0 && Count(occs, p, speclen, false) == 0
    ensures Sum(occs, p, speclen, true) == 0.0 && Sum(occs, p, speclen, false) == 0.0
    decreases |occs|
  {
    if occs != [] {
      var front := occs[..|occs| - 1];
      assert forall i :: 0 <= i < |front| ==> front[i] == occs[i];
      CountAbsent(front, p, speclen);
    }
  }

  /** The one-byte counter of o's peptide gains one when o is of the card's series, wrapping at 256 like a UCHAR. */
  function BumpCount(card: seq<nat>, o: Occurrence, speclen: nat, bSeries: bool): (r: seq<nat>)
    requires speclen > 0
    ensures |r| == |card|
  {
    var p := PeptideOf(o.raw, speclen);
    if p < |card| && IsBIon(o.raw, speclen) == bSeries then card[p := (card[p] + 1) % 256] else card
  }

  /** The intensity sum of o's peptide gains o's intensity when o is of the card's series. */
  function BumpSum(card: seq<real>, o: Occurrence, speclen: nat, bSeries: bool): (r: seq<real>)
    requires speclen > 0
    ensures |r| == |card|
  {
    var p := PeptideOf(o.raw, speclen);
    if p < |card| && IsBIon(o.raw, speclen) == bSeries then card[p := card[p] + o.intn] else card
  }

  /** One occurrence applied to the scorecard: a b-ion bumps bc and ibc, a y-ion yc and iyc. */
  function Bump(k: Cards, o: Occurrence, speclen: nat): (r: Cards)
    requires speclen > 0
    ensures |r.bc| == |k.bc| && |r.yc| == |k.yc| && |r.ibc| == |k.ibc| && |r.iyc| == |k.iyc|
  {
    Cards(BumpCount(k.bc, o, speclen, true), BumpCount(k.yc, o, speclen, false),
          BumpSum(k.ibc, o, speclen, true), BumpSum(k.iyc, o, speclen, false))
  }

  /** The scorecard after the occurrences have been applied in order. */
  function Apply(k: Cards, occs: seq<Occurrence>, speclen: nat): (r: Cards)
    requires speclen > 0
    ensures |r.bc| == |k.bc| && |r.yc| == |k.yc| && |r.ibc| == |k.ibc| && |r.iyc| == |k.iyc|
  {
    if occs == [] then k else Bump(Apply(k, occs[..|occs| - 1], speclen), occs[|occs| - 1], speclen)
  }

  lemma ApplyStep(k: Cards, occs: seq<Occurrence>, i: nat, next: nat, speclen: nat)
    requires speclen > 0 && next == i + 1 && next <= |occs|
    ensures Apply(k, occs[..next], speclen) == Bump(Apply(k, occs[..i], speclen), occs[i], speclen)
  {
    assert occs[..next][..i] == occs[..i];
  }

  /** Applying a + b is applying a, then b. */
  lemma {:induction false} ApplyConcat(k: Cards, a: seq<Occurrence>, b: seq<Occurrence>, speclen: nat)
    requires speclen > 0
    ensures Apply(k, a + b, speclen) == Apply(Apply(k, a, speclen), b, speclen)
    decreases |b|
  {
    if b == [] {
      assert a + b == a;
    } else {
      var b' := b[..|b| - 1];
      assert (a + b)[..|a + b| - 1] == a + b';
      assert (a + b)[|a + b| - 1] == b[|b| - 1];
      ApplyConcat(k, a, b', speclen);
    }
  }

  lemma ModSucc(a: nat)
    ensures (a % 256 + 1) % 256 == (a + 1) % 256
  {
  }

  /**
   * Entry p of the scorecard after the occurrences: each one-byte counter is
   * its old value plus the number of matching occurrences, modulo 256, and
   * each intensity sum is its old value plus their intensities.
   */
  lemma {:induction false} ApplyIs(k: Cards, occs: seq<Occurrence>, speclen: nat, p: nat)
    requires speclen > 0
    requires p < |k.bc| && p < |k.yc| && p < |k.ibc| && p < |k.iyc|
    requires k.bc[p] < 256 && k.yc[p] < 256
    ensures Apply(k, occs, speclen).bc[p] == (k.bc[p] + Count(occs, p, speclen, true)) % 256
    ensures Apply(k, occs, speclen).yc[p] == (k.yc[p] + Count(occs, p, speclen, false)) % 256
    ensures Apply(k, occs, speclen).ibc[p] == k.ibc[p] + Sum(occs, p, speclen, true)
    ensures Apply(k, occs, speclen).iyc[p] == k.iyc[p] + Sum(occs, p, speclen, false)
    decreases |occs|
  {
    if occs != [] {
      var front := occs[..|occs| - 1];
      ApplyIs(k, front, speclen, p);
      ModSucc(k.bc[p] + Count(front, p, speclen, true));
      ModSucc(k.yc[p] + Count(front, p, speclen, false));
    }
  }

  predicate CardsOk(k: Cards)
  {
    |k.yc| == |k.bc| && |k.ibc| == |k.bc| && |k.iyc| == |k.bc|
  }

  /** Entry p is zero in all four cards. */
  predicate ZeroAt(k: Cards, p: nat)
    requires CardsOk(k) && p < |k.bc|
  {
    k.bc[p] == 0 && k.yc[p] == 0 && k.ibc[p] == 0.0 && k.iyc[p] == 0.0
  }

  /** Entry p is the same in both scorecards. */
  predicate AgreesAt(k1: Cards, k2: Cards, p: nat)
    requires CardsOk(k1) && CardsOk(k2) && p < |k1.bc| && p < |k2.bc|
  {
    k1.bc[p] == k2.bc[p] && k1.yc[p] == k2.yc[p] && k1.ibc[p] == k2.ibc[p] && k1.iyc[p] == k2.iyc[p]
  }

  /** Every entry below n is zero. */
  predicate ZeroBelow(k: Cards, n: nat)
    requires CardsOk(k) && n <= |k.bc|
  {
    forall p :: 0 <= p < n ==> ZeroAt(k, p)
  }

  /** The scorecard of a chunk's n entries after the occurrences, started from zero. */
  function Tallied(occs: seq<Occurrence>, n: nat, speclen: nat): (r: Cards)
    requires speclen > 0
    ensures CardsOk(r) && |r.bc| == n
  {
    Cards(seq(n, p requires 0 <= p < n => Count(occs, p, speclen, true) % 256),
          seq(n, p requires 0 <= p < n => Count(occs, p, speclen, false) % 256),
          seq(n, p requires 0 <= p < n => Sum(occs, p, speclen, true)),
          seq(n, p requires 0 <= p < n => Sum(occs, p, speclen, false)))
  }

  /** Entry p of a scorecard zero at p after occurrences naming only peptides below n. */
  lemma FreshCardAt(z: Cards, occs: seq<Occurrence>, speclen: nat, n: nat, p: nat)
    requires speclen > 0 && CardsOk(z) && n <= |z.bc| && p < |z.bc| && ZeroAt(z, p)
    requires forall i :: 0 <= i < |occs| ==> PeptideOf(occs[i].raw, speclen) < n
    ensures p < n ==> AgreesAt(Apply(z, occs, speclen), Tallied(occs, n, speclen), p)
    ensures n <= p ==> ZeroAt(Apply(z, occs, speclen), p)
  {
    ApplyIs(z, occs, speclen, p);
    if n <= p {
      CountAbsent(occs, p, speclen);
    }
  }

  /**
   * A zero scorecard after occurrences that name only peptides below n holds
   * the tallies below n and zero from n on.
   */
  lemma FreshCards(z: Cards, occs: seq<Occurrence>, speclen: nat, n: nat)
    requires speclen > 0 && CardsOk(z) && n <= |z.bc| && ZeroBelow(z, |z.bc|)
    requires forall i :: 0 <= i < |occs| ==> PeptideOf(occs[i].raw, speclen) < n
    ensures CardsOk(Apply(z, occs, speclen))
    ensures forall p :: 0 <= p < n ==> AgreesAt(Apply(z, occs, speclen), Tallied(occs, n, speclen), p)
    ensures forall p :: n <= p < |z.bc| ==> ZeroAt(Apply(z, occs, speclen), p)
  {
    forall p | 0 <= p < |z.bc|
      ensures p < n ==> AgreesAt(Apply(z, occs, speclen), Tallied(occs, n, speclen), p)
      ensures n <= p ==> ZeroAt(Apply(z, occs, speclen), p)
    {
      assert ZeroAt(z, p);
      FreshCardAt(z, occs, speclen, n, p);
    }
  }

  /** The scorecard with every entry below n zeroed. */
  function Cleared(k: Cards, n: nat): (r: Cards)
    requires CardsOk(k)
    ensures CardsOk(r) && |r.bc| == |k.bc|
  {
    Cards(seq(|k.bc|, p requires 0 <= p < |k.bc| => if p < n then 0 else k.bc[p]),
          seq(|k.bc|, p requires 0 <= p < |k.bc| => if p < n then 0 else k.yc[p]),
          seq(|k.bc|, p requires 0 <= p < |k.bc| => if p < n then 0.0 else k.ibc[p]),
          seq(|k.bc|, p requires 0 <= p < |k.bc| => if p < n then 0.0 else k.iyc[p]))
  }

  lemma ClearedIs(k0: Cards, k1: Cards, n: nat)
    requires CardsOk(k0) && CardsOk(k1) && |k1.bc| == |k0.bc|
    requires forall p :: 0 <= p < |k1.bc| ==> if p < n then ZeroAt(k1, p) else AgreesAt(k1, k0, p)
    ensures k1 == Cleared(k0, n)
  {
    var c := Cleared(k0, n);
    forall p | 0 <= p < |k1.bc|
      ensures k1.bc[p] == c.bc[p] && k1.yc[p] == c.yc[p] && k1.ibc[p] == c.ibc[p] && k1.iyc[p] == c.iyc[p]
    {
      if p < n {
        assert ZeroAt(k1, p);
      } else {
        assert AgreesAt(k1, k0, p);
      }
    }
    assert k1.bc == c.bc && k1.yc == c.yc && k1.ibc == c.ibc && k1.iyc == c.iyc;
  }

  /** Clearing the entries below n of a scorecard that is zero from n on leaves it all zero. */
  lemma ClearedAllZero(k: Cards, n: nat)
    requires CardsOk(k)
    requires forall p :: n <= p < |k.bc| ==> ZeroAt(k, p)
    ensures ZeroBelow(Cleared(k, n), |k.bc|)
  {
    forall p | 0 <= p < |k.bc|
      ensures ZeroAt(Cleared(k, n), p)
    {
      if n <= p {
        assert ZeroAt(k, p);
      }
    }
  }

  /** Entry it takes part in the argmax: bc + yc strictly above the shared-peak threshold. */
  predicate Admitted(k: Cards, it: nat, prm: LegacyParams)
    requires CardsOk(k) && it < |k.bc|
  {
    k.bc[it] + k.yc[it] > prm.minShp
  }

  function ScoreAt(k: Cards, it: nat, prm: LegacyParams): real
    requires CardsOk(k) && it < |k.bc|
  {
    prm.hyperscore(k.bc[it], k.yc[it], k.ibc[it], k.iyc[it])
  }

  /** Reading entry it: an admitted entry scoring strictly above the best so far becomes the best. */
  function StepPick(prev: Pick, k: Cards, it: nat, prm: LegacyParams): Pick
    requires CardsOk(k) && it < |k.bc|
  {
    if Admitted(k, it, prm) && ScoreAt(k, it, prm) > prev.maxhv then Pick(it, ScoreAt(k, it, prm)) else prev
  }

  /** The scan of entries 0 .. n - 1, starting from (-1, 0.0). */
  function BestOf(k: Cards, n: nat, prm: LegacyParams): Pick
    requires CardsOk(k) && n <= |k.bc|
  {
    if n == 0 then Pick(-1, 0.0) else StepPick(BestOf(k, n - 1, prm), k, n - 1, prm)
  }

  lemma BestStep(k: Cards, it: nat, next: nat, prm: LegacyParams)
    requires CardsOk(k) && next == it + 1 && next <= |k.bc|
    ensures BestOf(k, next, prm) == StepPick(BestOf(k, it, prm), k, it, prm)
  {
    assert BestOf(k, it + 1, prm) == StepPick(BestOf(k, it, prm), k, it, prm);
  }

  /**
   * The scan picks the first admitted entry of greatest score, if that score
   * is positive: maxhv bounds every admitted score, the winner is admitted and
   * scores maxhv, every admitted entry before it scores strictly less, and
   * when no admitted entry scores above 0 the result stays (-1, 0.0).
   */
  lemma {:induction false} BestOfSpec(k: Cards, n: nat, prm: LegacyParams)
    requires CardsOk(k) && n <= |k.bc|
    ensures BestOf(k, n, prm).maxhv >= 0.0
    ensures forall it :: 0 <= it < n && Admitted(k, it, prm) ==> ScoreAt(k, it, prm) <= BestOf(k, n, prm).maxhv
    ensures BestOf(k, n, prm).win == -1 || 0 <= BestOf(k, n, prm).win < n
    ensures BestOf(k, n, prm).win == -1 <==> forall it :: 0 <= it < n && Admitted(k, it, prm) ==> ScoreAt(k, it, prm) <= 0.0
    ensures BestOf(k, n, prm).win == -1 ==> BestOf(k, n, prm).maxhv == 0.0
    ensures 0 <= BestOf(k, n, prm).win ==>
      var w := BestOf(k, n, prm).win;
      && Admitted(k, w, prm) && ScoreAt(k, w, prm) == BestOf(k, n, prm).maxhv > 0.0
      && forall it :: 0 <= it < w && Admitted(k, it, prm) ==> ScoreAt(k, it, prm) < ScoreAt(k, w, prm)
  {
    if n > 0 {
      BestOfSpec(k, n - 1, prm);
    }
  }

  /** The scan reads only entries below n. */
  lemma {:induction false} BestAgree(k1: Cards, k2: Cards, n: nat, prm: LegacyParams)
    requires CardsOk(k1) && CardsOk(k2) && n <= |k1.bc| && n <= |k2.bc|
    requires forall p :: 0 <= p < n ==> AgreesAt(k1, k2, p)
    ensures BestOf(k1, n, prm) == BestOf(k2, n, prm)
  {
    if n > 0 {
      BestAgree(k1, k2, n - 1, prm);
      assert AgreesAt(k1, k2, n - 1);
    }
  }

  /** The idaa a pick prints: -1, or the global index of the winning entry of part ixx. */
  function IdaaOf(pick: Pick, ixx: nat, prm: LegacyParams): int
  {
    if pick.win < 0 then -1 else prm.generateIndex(ixx, pick.win)
  }

  /** The best entry of chunk chno of a part for spectrum s. */
  function ChunkPick(part: LegacyPart, chno: nat, s: LegacySpectrum, prm: LegacyParams): Pick
    requires LegacyPartOk(part, prm) && chno < |part.ionIndex| && SpectrumOk(s)
  {
    var c := part.ionIndex[chno];
    var n := ChunkSize(part, chno);
    var occs := SpectrumOccurrences(c, s, |s.moz|, prm);
    var k := Tallied(occs, n, LegacySpecLen(part, prm));
    BestOf(k, n, prm)
  }

  /**
   * Matching chunk chno on an all-zero scorecard leaves the chunk's pick in
   * entries below ChunkSize and zero from there on.
   */
  lemma ChunkPickFresh(part: LegacyPart, chno: nat, s: LegacySpectrum, prm: LegacyParams, z: Cards)
    requires LegacyPartOk(part, prm) && chno < |part.ionIndex| && SpectrumOk(s)
    requires CardsOk(z) && ChunkSize(part, chno) <= |z.bc| && ZeroBelow(z, |z.bc|)
    ensures ChunkOk(part.ionIndex[chno], prm.maxBins)
    ensures var occs := SpectrumOccurrences(part.ionIndex[chno], s, |s.moz|, prm);
      var k := Apply(z, occs, LegacySpecLen(part, prm));
      && CardsOk(k)
      && ChunkPick(part, chno, s, prm) == BestOf(k, ChunkSize(part, chno), prm)
      && forall p :: ChunkSize(part, chno) <= p < |z.bc| ==> ZeroAt(k, p)
  {
    var c := part.ionIndex[chno];
    var speclen := LegacySpecLen(part, prm);
    var n := ChunkSize(part, chno);
    var occs := SpectrumOccurrences(c, s, |s.moz|, prm);
    OccurrencesLocal(c, s, |s.moz|, prm, speclen, n);
    FreshCards(z, occs, speclen, n);
    BestAgree(Apply(z, occs, speclen), Tallied(occs, n, speclen), n, prm);
  }

  /** What chunk chno of part ixx reports for query number query. */
  function ChunkReportOf(part: LegacyPart, chno: nat, ixx: nat, query: nat, s: LegacySpectrum, prm: LegacyParams): ChunkReport
    requires LegacyPartOk(part, prm) && chno < |part.ionIndex| && SpectrumOk(s)
  {
    var pick := ChunkPick(part, chno, s, prm);
    ChunkReport(query, IdaaOf(pick, ixx, prm), pick.maxhv)
  }

  /** The reports of the chunks of part ixx, in chunk order. */
  function PartReports(part: LegacyPart, ixx: nat, query: nat, s: LegacySpectrum, prm: LegacyParams): (r: seq<ChunkReport>)
    requires LegacyPartOk(part, prm) && SpectrumOk(s)
    ensures |r| == |part.ionIndex|
  {
    seq(|part.ionIndex|, chno requires 0 <= chno < |part.ionIndex| => ChunkReportOf(part, chno, ixx, query, s, prm))
  }

  ghost predicate LegacyIndexOk(index: seq<LegacyPart>, prm: LegacyParams)
  {
    forall i :: 0 <= i < |index| ==> LegacyPartOk(index[i], prm)
  }

  /** The scorecard has an entry for every peptide of a chunk of every part. */
  predicate FitsScorecard(index: seq<LegacyPart>, size: nat)
  {
    forall i :: 0 <= i < |index| ==> index[i].chunksize <= size && index[i].lastchunksize <= size
  }

  /** The report lists of each part, in part order. */
  function PartReportLists(index: seq<LegacyPart>, query: nat, s: LegacySpectrum, prm: LegacyParams): (r: seq<seq<ChunkReport>>)
    requires LegacyIndexOk(index, prm) && SpectrumOk(s)
    ensures |r| == |index|
  {
    seq(|index|, i requires 0 <= i < |index| => PartReports(index[i], i, query, s, prm))
  }

  /** Everything printed for one query spectrum: one report per chunk of every part. */
  function SpectrumReports(index: seq<LegacyPart>, query: nat, s: LegacySpectrum, prm: LegacyParams): seq<ChunkReport>
    requires LegacyIndexOk(index, prm) && SpectrumOk(s)
  {
    RangedQuery.Flatten(PartReportLists(index, query, s, prm))
  }

  /** The number of chunks of parts 0 .. k - 1. */
  function ChunkCount(index: seq<LegacyPart>, k: nat): nat
    requires k <= |index|
  {
    if k == 0 then 0 else ChunkCount(index, k - 1) + |index[k - 1].ionIndex|
  }

  /**
   * A spectrum gets exactly one report per chunk of the index, each carrying
   * its query number, and the report of chunk chno of part ixx is that
   * chunk's pick.
   */
  lemma {:induction false} SpectrumReportsShape(index: seq<LegacyPart>, query: nat, s: LegacySpectrum, prm: LegacyParams, k: nat)
    requires LegacyIndexOk(index, prm) && SpectrumOk(s) && k <= |index|
    ensures |RangedQuery.Flatten(PartReportLists(index, query, s, prm)[..k])| == ChunkCount(index, k)
    ensures forall r :: r in RangedQuery.Flatten(PartReportLists(index, query, s, prm)[..k]) ==> r.query == query
  {
    var lists := PartReportLists(index, query, s, prm);
    if k > 0 {
      var prev := k - 1;
      SpectrumReportsShape(index, query, s, prm, prev);
      RangedQuery.FlattenStep(lists, prev, k);
      assert lists[prev] == PartReports(index[prev], prev, query, s, prm);
    }
  }

  /** The report of chunk chno of part ixx sits after the reports of every earlier chunk. */
  lemma ChunkReportPosition(index: seq<LegacyPart>, query: nat, s: LegacySpectrum, prm: LegacyParams, ixx: nat, chno: nat)
    requires LegacyIndexOk(index, prm) && SpectrumOk(s) && ixx < |index| && chno < |index[ixx].ionIndex|
    ensures ChunkCount(index, ixx) + chno < |SpectrumReports(index, query, s, prm)|
    ensures SpectrumReports(index, query, s, prm)[ChunkCount(index, ixx) + chno]
         == ChunkReportOf(index[ixx], chno, ixx, query, s, prm)
  {
    var lists := PartReportLists(index, query, s, prm);
    var next := ixx + 1;
    SpectrumReportsShape(index, query, s, prm, ixx);
    RangedQuery.FlattenStep(lists, ixx, next);
    FlattenPrefix(lists, next);
  }

  /** The flattening of a prefix is a prefix of the flattening. */
  lemma {:induction false} FlattenPrefix<T>(xs: seq<seq<T>>, k: nat)
    requires k <= |xs|
    ensures RangedQuery.Flatten(xs[..k]) <= RangedQuery.Flatten(xs)
    decreases |xs| - k
  {
    if k < |xs| {
      var next := k + 1;
      FlattenPrefix(xs, next);
      RangedQuery.FlattenStep(xs, k, next);
    } else {
      assert xs[..k] == xs;
    }
  }

  /**
   * A batch of query spectra: peaks and intensities of all spectra back to
   * back, idx[q] .. idx[q + 1] delimiting spectrum q.
   */
  datatype LegacyQueries = LegacyQueries(moz: seq<nat>, intensity: seq<real>, idx: seq<nat>, numSpecs: nat)

  ghost predicate LegacyQueriesOk(ss: LegacyQueries)
  {
    && |ss.idx| == ss.numSpecs + 1
    && |ss.moz| == |ss.intensity|
    && (forall q :: 0 <= q < ss.numSpecs ==> ss.idx[q] <= ss.idx[q + 1])
    && ss.idx[ss.numSpecs] <= |ss.moz|
  }

  lemma LegacyIdxAscending(ss: LegacyQueries, a: nat, b: nat)
    requires LegacyQueriesOk(ss) && a <= b <= ss.numSpecs
    ensures ss.idx[a] <= ss.idx[b]
    decreases b - a
  {
    if a < b {
      LegacyIdxAscending(ss, a + 1, b);
    }
  }

  /** Spectrum q of the batch: moz + idx[q], intensity + idx[q], idx[q + 1] - idx[q] peaks. */
  function LegacySpectrumAt(ss: LegacyQueries, q: nat): (r: LegacySpectrum)
    requires LegacyQueriesOk(ss) && q < ss.numSpecs
    ensures SpectrumOk(r) && |r.moz| == ss.idx[q + 1] - ss.idx[q]
  {
    LegacyIdxAscending(ss, q + 1, ss.numSpecs);
    var lo, hi := ss.idx[q], ss.idx[q + 1];
    LegacySpectrum(ss.moz[lo..hi], ss.intensity[lo..hi])
  }

  /** The report lists of each spectrum of the batch, in batch order. */
  function SpectrumReportLists(ss: LegacyQueries, index: seq<LegacyPart>, prm: LegacyParams): (r: seq<seq<ChunkReport>>)
    requires LegacyQueriesOk(ss) && LegacyIndexOk(index, prm)
    ensures |r| == ss.numSpecs
  {
    seq(ss.numSpecs, q requires 0 <= q < ss.numSpecs => SpectrumReports(index, q, LegacySpectrumAt(ss, q), prm))
  }

  /** Everything printed for a batch: the reports of each spectrum, in order. */
  function BatchReports(ss: LegacyQueries, index: seq<LegacyPart>, prm: LegacyParams): seq<ChunkReport>
    requires LegacyQueriesOk(ss) && LegacyIndexOk(index, prm)
  {
    RangedQuery.Flatten(SpectrumReportLists(ss, index, prm))
  }

  /** The spectra 0 .. k - 1 of a batch print ChunkCount reports each. */
  lemma {:induction false} BatchPrefixLength(ss: LegacyQueries, index: seq<LegacyPart>, prm: LegacyParams, k: nat)
    requires LegacyQueriesOk(ss) && LegacyIndexOk(index, prm) && k <= ss.numSpecs
    ensures |RangedQuery.Flatten(SpectrumReportLists(ss, index, prm)[..k])| == k * ChunkCount(index, |index|)
  {
    if k > 0 {
      var lists := SpectrumReportLists(ss, index, prm);
      var prev := k - 1;
      BatchPrefixLength(ss, index, prm, prev);
      RangedQuery.FlattenStep(lists, prev, k);
      SpectrumReportsShape(index, prev, LegacySpectrumAt(ss, prev), prm, |index|);
      assert PartReportLists(index, prev, LegacySpectrumAt(ss, prev), prm)[..|index|]
          == PartReportLists(index, prev, LegacySpectrumAt(ss, prev), prm);
      MulSucc(prev, k, ChunkCount(index, |index|));
    }
  }

  lemma MulSucc(a: nat, b: nat, m: nat)
    requires b == a + 1
    ensures b * m == a * m + m
  {
  }

  /**
   * A batch prints spectrum by spectrum: report q * ChunkCount + i of the
   * batch is report i of query q.
   */
  lemma BatchReportAt(ss: LegacyQueries, index: seq<LegacyPart>, prm: LegacyParams, q: nat, i: nat)
    requires LegacyQueriesOk(ss) && LegacyIndexOk(index, prm) && q < ss.numSpecs && i < ChunkCount(index, |index|)
    ensures |SpectrumReports(index, q, LegacySpectrumAt(ss, q), prm)| == ChunkCount(index, |index|)
    ensures q * ChunkCount(index, |index|) + i < |BatchReports(ss, index, prm)|
    ensures BatchReports(ss, index, prm)[q * ChunkCount(index, |index|) + i]
         == SpectrumReports(index, q, LegacySpectrumAt(ss, q), prm)[i]
  {
    var lists := SpectrumReportLists(ss, index, prm);
    var next := q + 1;
    BatchPrefixLength(ss, index, prm, q);
    RangedQuery.FlattenStep(lists, q, next);
    FlattenPrefix(lists, next);
    SpectrumReportsShape(index, q, LegacySpectrumAt(ss, q), prm, |index|);
    assert PartReportLists(index, q, LegacySpectrumAt(ss, q), prm)[..|index|]
        == PartReportLists(index, q, LegacySpectrumAt(ss, q), prm);
  }

  /**
   * The ranged matcher's hits of bins lo .. hi - 1 are the hits of the
   * legacy slice iA[bA[lo] .. bA[hi]] after the precursor-window selection:
   * the ranged scan is the legacy scan gated by the window.
   */
  lemma {:induction false} RangedIsGatedSlice(c: IonChunk, lo: nat, hi: nat, speclen: nat, minlimit: nat, maxlimit: nat, intn: nat)
    requires ChunkShape(c) && lo <= hi < |c.bA| && speclen > 0
    ensures c.bA[lo] <= c.bA[hi]
    ensures RangedQuery.BinsHits(c, lo, hi, speclen, minlimit, maxlimit, intn)
         == RangedQuery.HitsOf(Selected(c.iA[c.bA[lo]..c.bA[hi]], speclen, minlimit, maxlimit), speclen, intn)
    decreases hi - lo
  {
    if lo == hi {
      assert c.iA[c.bA[lo]..c.bA[hi]] == [];
    } else {
      var bin := hi - 1;
      RangedIsGatedSlice(c, lo, bin, speclen, minlimit, maxlimit, intn);
      RangedQuery.BinsHitsStep(c, lo, bin, hi, speclen, minlimit, maxlimit, intn);
      var front := c.iA[c.bA[lo]..c.bA[bin]];
      var last := BinList(c, bin);
      SliceSplit(c.iA, c.bA[lo], c.bA[bin], c.bA[hi]);
      SelectedConcat(front, last, speclen, minlimit, maxlimit);
      HitsOfConcat(Selected(front, speclen, minlimit, maxlimit), Selected(last, speclen, minlimit, maxlimit), speclen, intn);
    }
  }

  lemma SliceSplit(t: seq<nat>, i: nat, j: nat, k: nat)
    requires i <= j <= k <= |t|
    ensures t[i..k] == t[i..j] + t[j..k]
  {
  }

  lemma HitsOfConcat(a: seq<nat>, b: seq<nat>, speclen: nat, intn: nat)
    requires speclen > 0
    ensures RangedQuery.HitsOf(a + b, speclen, intn) == RangedQuery.HitsOf(a, speclen, intn) + RangedQuery.HitsOf(b, speclen, intn)
  {
    var l := RangedQuery.HitsOf(a + b, speclen, intn);
    var r := RangedQuery.HitsOf(a, speclen, intn) + RangedQuery.HitsOf(b, speclen, intn);
    assert |l| == |r|;
    forall i | 0 <= i < |l|
      ensures l[i] == r[i]
    {
      if i < |a| {
        assert (a + b)[i] == a[i];
      } else {
        assert (a + b)[i] == b[i - |a|];
      }
    }
  }

  /**
   * For a usable peak the ranged matcher's hits are the decoded legacy
   * slice after the window selection; an unusable peak has none in either.
   */
  lemma RangedPeakIsGatedLegacy(c: IonChunk, q: nat, intn: nat, prm: RangedQuery.QueryParams, speclen: nat, minlimit: nat, maxlimit: nat)
    requires ChunkOk(c, prm.maxBins) && speclen > 0
    ensures RangedQuery.PeakHits(c, q, intn, prm, speclen, minlimit, maxlimit)
         == RangedQuery.HitsOf(Selected(PeakSlice(c, q, prm.dF, prm.maxBins), speclen, minlimit, maxlimit), speclen, intn)
  {
    if Usable(q, prm.dF, prm.maxBins) {
      var lo, hi := q - prm.dF, q + prm.dF + 1;
      RangedQuery.PeakHitsUsable(c, q, intn, prm, speclen, minlimit, maxlimit, lo, hi);
      RangedIsGatedSlice(c, lo, hi, speclen, minlimit, maxlimit, intn);
      assert PeakSlice(c, q, prm.dF, prm.maxBins) == c.iA[c.bA[lo]..c.bA[hi]];
    } else {
      assert PeakSlice(c, q, prm.dF, prm.maxBins) == [];
    }
  }

  /**
   * With a precursor window that holds every peptide of the legacy slice,
   * the ranged matcher's hits of a peak are the whole decoded legacy slice.
   */
  lemma RangedPeakIsWholeSlice(c: IonChunk, q: nat, intn: nat, prm: RangedQuery.QueryParams, speclen: nat, minlimit: nat, maxlimit: nat)
    requires ChunkOk(c, prm.maxBins) && speclen > 0
    requires forall x :: x in PeakSlice(c, q, prm.dF, prm.maxBins) ==> minlimit <= PeptideOf(x, speclen) <= maxlimit
    ensures RangedQuery.PeakHits(c, q, intn, prm, speclen, minlimit, maxlimit)
         == RangedQuery.HitsOf(PeakSlice(c, q, prm.dF, prm.maxBins), speclen, intn)
  {
    var sl := PeakSlice(c, q, prm.dF, prm.maxBins);
    RangedPeakIsGatedLegacy(c, q, intn, prm, speclen, minlimit, maxlimit);
    assert forall j :: 0 <= j < |sl| ==> sl[j] in sl;
    SelectedAll(sl, speclen, minlimit, maxlimit);
  }

  /**
   * The scorecard of one thread: one-byte b- and y-ion counters, floating
   * intensity sums, and the query it last scored (especid).
   */
  class LegacyScorecard {
    const bc: array<nat>
    const yc: array<nat>
    const ibc: array<real>
    const iyc: array<real>
    var especid: nat

    ghost predicate Valid()
      reads this
    {
      bc != yc && ibc != iyc && yc.Length == bc.Length && ibc.Length == bc.Length && iyc.Length == bc.Length
    }

    ghost function Contents(): (r: Cards)
      requires Valid()
      reads this, bc, yc, ibc, iyc
      ensures CardsOk(r) && |r.bc| == bc.Length
    {
      Cards(bc[..], yc[..], ibc[..], iyc[..])
    }

    /** Every entry is zero: the state between chunks. */
    ghost predicate AllZero()
      reads this, bc, yc, ibc, iyc
    {
      Valid() && ZeroBelow(Contents(), bc.Length)
    }

    constructor (size: nat)
      ensures Valid() && AllZero() && bc.Length == size && especid == 0
      ensures fresh(bc) && fresh(yc) && fresh(ibc) && fresh(iyc)
    {
      bc := new nat[size](_ => 0);
      yc := new nat[size](_ => 0);
      ibc := new real[size](_ => 0.0);
      iyc := new real[size](_ => 0.0);
      especid := 0;
    }

    /** One occurrence: bc and ibc of its peptide for a b-ion, yc and iyc for a y-ion. */
    method AddOccurrence(raw: nat, intn: real, speclen: nat)
      requires Valid() && speclen > 0 && PeptideOf(raw, speclen) < bc.Length
      modifies bc, yc, ibc, iyc
      ensures Valid() && Contents() == Bump(old(Contents()), Occurrence(raw, intn), speclen)
    {
      var ppid := raw / speclen;
      if raw % speclen < speclen / 2 {
        bc[ppid] := (bc[ppid] + 1) % 256;
        ibc[ppid] := ibc[ppid] + intn;
      } else {
        yc[ppid] := (yc[ppid] + 1) % 256;
        iyc[ppid] := iyc[ppid] + intn;
      }
    }

    /** A usable peak adds every occurrence of its slice, with the peak's intensity. */
    method MatchPeak(c: IonChunk, q: nat, intn: real, speclen: nat, prm: LegacyParams)
      requires Valid() && ChunkOk(c, prm.maxBins) && speclen > 0 && ChunkLocal(c, speclen, bc.Length)
      modifies bc, yc, ibc, iyc
      ensures Valid()
      ensures Contents() == Apply(old(Contents()), Tagged(PeakSlice(c, q, prm.dF, prm.maxBins), intn), speclen)
    {
      if q > prm.dF && q < prm.maxBins - 1 - prm.dF {
        UsableBinsInIndex(c, q, prm.dF, prm.maxBins);
        var start := c.bA[q - prm.dF];
        var end := c.bA[q + 1 + prm.dF];
        ghost var k0 := Contents();
        ghost var occs := Tagged(c.iA[start..end], intn);
        var ion := start;
        while ion < end
          invariant start <= ion <= end && Valid()
          invariant Contents() == Apply(k0, occs[..ion - start], speclen)
        {
          var raw := c.iA[ion];
          assert raw in c.iA;
          ghost var i := ion - start;
          ghost var next := i + 1;
          assert occs[i] == Occurrence(raw, intn);
          ApplyStep(k0, occs, i, next, speclen);
          AddOccurrence(raw, intn, speclen);
          ion := ion + 1;
        }
        assert occs[..end - start] == occs;
      } else {
        assert Tagged(PeakSlice(c, q, prm.dF, prm.maxBins), intn) == [];
      }
    }

    /** Every peak of the spectrum, in order. */
    method MatchSpectrum(c: IonChunk, s: LegacySpectrum, speclen: nat, prm: LegacyParams)
      requires Valid() && ChunkOk(c, prm.maxBins) && speclen > 0 && ChunkLocal(c, speclen, bc.Length) && SpectrumOk(s)
      modifies bc, yc, ibc, iyc
      ensures Valid()
      ensures Contents() == Apply(old(Contents()), SpectrumOccurrences(c, s, |s.moz|, prm), speclen)
    {
      ghost var k0 := Contents();
      var k := 0;
      while k < |s.moz|
        invariant k <= |s.moz| && Valid()
        invariant Contents() == Apply(k0, SpectrumOccurrences(c, s, k, prm), speclen)
      {
        var next := k + 1;
        SpectrumOccurrencesStep(c, s, k, next, prm);
        ApplyConcat(k0, SpectrumOccurrences(c, s, k, prm),
                    Tagged(PeakSlice(c, s.moz[k], prm.dF, prm.maxBins), s.intensity[k]), speclen);
        MatchPeak(c, s.moz[k], s.intensity[k], speclen, prm);
        k := next;
      }
    }

    /**
     * Reads entries 0 .. csize - 1 in order, keeping the first admitted entry
     * of strictly greatest score, and zeroes each entry as it reads it.
     */
    method ScanChunk(csize: nat, ixx: nat, prm: LegacyParams) returns (idaa: int, maxhv: real)
      requires Valid() && csize <= bc.Length
      modifies bc, yc, ibc, iyc
      ensures Valid()
      ensures idaa == IdaaOf(BestOf(old(Contents()), csize, prm), ixx, prm)
      ensures maxhv == BestOf(old(Contents()), csize, prm).maxhv
      ensures Contents() == Cleared(old(Contents()), csize)
    {
      ghost var k0 := Contents();
      idaa, maxhv := -1, 0.0;
      var it := 0;
      while it < csize
        invariant it <= csize && Valid()
        invariant idaa == IdaaOf(BestOf(k0, it, prm), ixx, prm) && maxhv == BestOf(k0, it, prm).maxhv
        invariant forall p :: 0 <= p < bc.Length ==>
          if p < it then bc[p] == 0 && yc[p] == 0 && ibc[p] == 0.0 && iyc[p] == 0.0
          else bc[p] == k0.bc[p] && yc[p] == k0.yc[p] && ibc[p] == k0.ibc[p] && iyc[p] == k0.iyc[p]
      {
        var next := it + 1;
        BestStep(k0, it, next, prm);
        if bc[it] + yc[it] > prm.minShp {
          var hyperscore := prm.hyperscore(bc[it], yc[it], ibc[it], iyc[it]);
          if hyperscore > maxhv {
            idaa := prm.generateIndex(ixx, it);
            maxhv := hyperscore;
          }
        }
        bc[it] := 0;
        yc[it] := 0;
        ibc[it] := 0.0;
        iyc[it] := 0.0;
        it := next;
      }
      ClearedIs(k0, Contents(), csize);
    }

    /**
     * One chunk for one spectrum: match every peak, then report the chunk's
     * best entry; a scorecard that started all-zero ends all-zero.
     */
    method QueryChunk(part: LegacyPart, chno: nat, ixx: nat, query: nat, s: LegacySpectrum, speclen: nat, prm: LegacyParams)
      returns (report: ChunkReport)
      requires AllZero() && LegacyPartOk(part, prm) && chno < |part.ionIndex| && SpectrumOk(s)
      requires speclen == LegacySpecLen(part, prm) && ChunkSize(part, chno) <= bc.Length
      modifies this, bc, yc, ibc, iyc
      ensures AllZero() && especid == query
      ensures report == ChunkReportOf(part, chno, ixx, query, s, prm)
    {
      var c := part.ionIndex[chno];
      var csize := if chno == |part.ionIndex| - 1 && |part.ionIndex| > 1 then part.lastchunksize else part.chunksize;
      ghost var z := Contents();
      ChunkPickFresh(part, chno, s, prm, z);
      assert ChunkLocal(c, speclen, bc.Length);
      MatchSpectrum(c, s, speclen, prm);
      ghost var k1 := Contents();
      ClearedAllZero(k1, csize);
      especid := query;
      var idaa, maxhv := ScanChunk(csize, ixx, prm);
      report := ChunkReport(query, idaa, maxhv);
    }

    /** One query spectrum against every chunk of every part, in order. */
    method QuerySpectrum(index: seq<LegacyPart>, query: nat, s: LegacySpectrum, prm: LegacyParams)
      returns (reports: seq<ChunkReport>)
      requires AllZero() && LegacyIndexOk(index, prm) && SpectrumOk(s) && FitsScorecard(index, bc.Length)
      modifies this, bc, yc, ibc, iyc
      ensures AllZero() && reports == SpectrumReports(index, query, s, prm)
      ensures especid == if reports == [] then old(especid) else query
    {
      ghost var lists := PartReportLists(index, query, s, prm);
      ghost var e0 := especid;
      reports := [];
      var ixx := 0;
      while ixx < |index|
        invariant ixx <= |index| && AllZero()
        invariant reports == RangedQuery.Flatten(lists[..ixx])
        invariant especid == if reports == [] then e0 else query
      {
        var part := index[ixx];
        var speclen := LegacySpecLen(part, prm);
        ghost var here := reports;
        ghost var row := lists[ixx];
        assert row == PartReports(part, ixx, query, s, prm);
        var chno := 0;
        while chno < |part.ionIndex|
          invariant chno <= |part.ionIndex| && AllZero()
          invariant reports == here + row[..chno]
          invariant especid == if reports == [] then e0 else query
        {
          var next := chno + 1;
          var report := QueryChunk(part, chno, ixx, query, s, speclen, prm);
          assert row[..next] == row[..chno] + [row[chno]];
          Common.AppendAssoc(here, row[..chno], [report]);
          reports := reports + [report];
          chno := next;
        }
        var nextI := ixx + 1;
        RangedQuery.FlattenStep(lists, ixx, nextI);
        assert row[..chno] == row;
        ixx := nextI;
      }
      assert lists[..ixx] == lists;
    }

    /** Every query spectrum of the batch in order, each against the whole index. */
    method QueryBatch(ss: LegacyQueries, index: seq<LegacyPart>, prm: LegacyParams) returns (reports: seq<ChunkReport>)
      requires AllZero() && LegacyQueriesOk(ss) && LegacyIndexOk(index, prm) && FitsScorecard(index, bc.Length)
      modifies this, bc, yc, ibc, iyc
      ensures AllZero() && reports == BatchReports(ss, index, prm)
    {
      ghost var lists := SpectrumReportLists(ss, index, prm);
      reports := [];
      var queries := 0;
      while queries < ss.numSpecs
        invariant queries <= ss.numSpecs && AllZero()
        invariant reports == RangedQuery.Flatten(lists[..queries])
      {
        var s := LegacySpectrumAt(ss, queries);
        var these := QuerySpectrum(index, queries, s, prm);
        var next := queries + 1;
        RangedQuery.FlattenStep(lists, queries, next);
        reports := reports + these;
        queries := next;
      }
      assert lists[..queries] == lists;
    }
  }
}
