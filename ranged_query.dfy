/**
 * Ranged fragment matching for one query spectrum against one index chunk:
 * the precursor window [minlimit, maxlimit] gates which peptides may score,
 * every usable peak scans the bins q - dF .. q + dF, each selected occurrence
 * bumps one scorecard entry, the window's entries are turned into candidate
 * PSMs and the window is cleared again.
 *
 * The scorecard (one BYC and one iBYC record per peptide) is a class with two
 * arrays that the methods update in place; what a run adds to it is specified
 * by Tally over the list of hits it decodes.
 */
module RangedQuery {
  import opened Common
  import opened RangeSearch
  import opened FragmentIndex

  /** Matched b- and y-ion counts of one peptide. */
  datatype BYC = BYC(bc: nat, yc: nat)
  /** Summed b- and y-ion intensities of one peptide. */
  datatype IBYC = IBYC(ibc: nat, iyc: nat)

  function PlusB(a: BYC, b: BYC): BYC { BYC(a.bc + b.bc, a.yc + b.yc) }
  function PlusI(a: IBYC, b: IBYC): IBYC { IBYC(a.ibc + b.ibc, a.iyc + b.iyc) }

  /**
   * One index part (index[ixx]): the length of its peptides, their ascending
   * precursor masses (pepEntries) and its fragment-ion chunks.
   */
  datatype IndexPart = IndexPart(peplen: nat, pepMasses: seq<real>, ionIndex: seq<IonChunk>)

  /** One query spectrum: scaled peak m/z bins, intensities and precursor mass. */
  datatype Spectrum = Spectrum(moz: seq<nat>, intensity: seq<nat>, precursor: real)

  /**
   * Search parameters: fragment tolerance dF in bins, precursor tolerance dM,
   * the number of fragment-mass bins (maxmass * scale rounded up), the shared-peak threshold, the maximum fragment charge,
   * the ion-series count, and the hyperscore as a function of a scorecard
   * entry.
   */
  datatype QueryParams = QueryParams(
    dF: nat, dM: real, maxBins: nat, minShp: nat, maxz: nat, iSeries: nat,
    hyperscore: (BYC, IBYC) -> real)

  /** A candidate PSM as inserted into the top-K heap. */
  datatype HCell = HCell(hyperscore: real, idxoffset: nat, psid: nat, sharedions: nat, totalions: nat, pmass: real)

  /** One matched occurrence: the peptide, whether it is a b-ion, and the peak's intensity. */
  datatype Hit = Hit(ppid: nat, isB: bool, intn: nat)

  /** Ions per peptide in the encoding: (peplen - 1) * maxz * iSERIES. */
  function SpecLen(part: IndexPart, prm: QueryParams): nat
  {
    IonsPerPeptide(part.peplen, prm.maxz, prm.iSeries)
  }

  ghost predicate PartOk(part: IndexPart, prm: QueryParams)
  {
    && SpecLen(part, prm) > 0
    && Sorted(part.pepMasses)
    && forall c :: c in part.ionIndex ==> ChunkOk(c, prm.maxBins)
  }

  predicate SpectrumOk(s: Spectrum)
  {
    |s.moz| == |s.intensity|
  }

  /** An occurrence decodes to peptide raw / speclen; it is a b-ion in the lower half of the offsets. */
  function Decode(raw: nat, speclen: nat, intn: nat): Hit
    requires speclen > 0
  {
    Hit(PeptideOf(raw, speclen), IsBIon(raw, speclen), intn)
  }

  function HitsOf(occ: seq<nat>, speclen: nat, intn: nat): (r: seq<Hit>)
    requires speclen > 0
    ensures |r| == |occ|
    ensures forall i :: 0 <= i < |occ| ==> r[i] == Decode(occ[i], speclen, intn)
  {
    if occ == [] then [] else HitsOf(occ[..|occ| - 1], speclen, intn) + [Decode(occ[|occ| - 1], speclen, intn)]
  }

  /** What one hit adds to the entry of peptide p. */
  function HitB(h: Hit, p: nat): BYC
  {
    if h.ppid != p then BYC(0, 0) else if h.isB then BYC(1, 0) else BYC(0, 1)
  }

  function HitI(h: Hit, p: nat): IBYC
  {
    if h.ppid != p then IBYC(0, 0) else if h.isB then IBYC(h.intn, 0) else IBYC(0, h.intn)
  }

  /** What a list of hits adds to the counts of peptide p. */
  function TallyB(hits: seq<Hit>, p: nat): BYC
  {
    if hits == [] then BYC(0, 0) else PlusB(TallyB(hits[..|hits| - 1], p), HitB(hits[|hits| - 1], p))
  }

  /** What a list of hits adds to the intensities of peptide p. */
  function TallyI(hits: seq<Hit>, p: nat): IBYC
  {
    if hits == [] then IBYC(0, 0) else PlusI(TallyI(hits[..|hits| - 1], p), HitI(hits[|hits| - 1], p))
  }

  /**
   * Each hit adds one to the shared-peak count of its peptide and nothing to
   * any other peptide: a peptide no hit names keeps a zero tally.
   */
  lemma {:induction false} TallyAbsent(hits: seq<Hit>, p: nat)
    requires forall i :: 0 <= i < |hits| ==> hits[i].ppid != p
    ensures TallyB(hits, p) == BYC(0, 0) && TallyI(hits, p) == IBYC(0, 0)
    decreases |hits|
  {
    if hits != [] {
      TallyAbsent(hits[..|hits| - 1], p);
    }
  }

  /** Adds one hit to a scorecard: the entry it names gains the hit's contribution. */
  function BumpB(card: seq<BYC>, h: Hit): (r: seq<BYC>)
    ensures |r| == |card|
  {
    if h.ppid < |card| then card[h.ppid := PlusB(card[h.ppid], HitB(h, h.ppid))] else card
  }

  function BumpI(card: seq<IBYC>, h: Hit): (r: seq<IBYC>)
    ensures |r| == |card|
  {
    if h.ppid < |card| then card[h.ppid := PlusI(card[h.ppid], HitI(h, h.ppid))] else card
  }

  /** The scorecard after the hits have been applied in order. */
  function ApplyB(card: seq<BYC>, hits: seq<Hit>): (r: seq<BYC>)
    ensures |r| == |card|
  {
    if hits == [] then card else BumpB(ApplyB(card, hits[..|hits| - 1]), hits[|hits| - 1])
  }

  function ApplyI(card: seq<IBYC>, hits: seq<Hit>): (r: seq<IBYC>)
    ensures |r| == |card|
  {
    if hits == [] then card else BumpI(ApplyI(card, hits[..|hits| - 1]), hits[|hits| - 1])
  }

  lemma ApplySnoc(b: seq<BYC>, i: seq<IBYC>, hits: seq<Hit>, h: Hit)
    ensures ApplyB(b, hits + [h]) == BumpB(ApplyB(b, hits), h)
    ensures ApplyI(i, hits + [h]) == BumpI(ApplyI(i, hits), h)
  {
    assert (hits + [h])[..|hits|] == hits;
  }

  /** Applying a concatenation applies its parts one after the other. */
  lemma {:induction false} ApplyConcatB(card: seq<BYC>, a: seq<Hit>, b: seq<Hit>)
    ensures ApplyB(card, a + b) == ApplyB(ApplyB(card, a), b)
    decreases |b|
  {
    if b == [] {
      assert a + b == a;
    } else {
      var b' := b[..|b| - 1];
      assert (a + b)[..|a + b| - 1] == a + b';
      assert (a + b)[|a + b| - 1] == b[|b| - 1];
      ApplyConcatB(card, a, b');
    }
  }

  lemma {:induction false} ApplyConcatI(card: seq<IBYC>, a: seq<Hit>, b: seq<Hit>)
    ensures ApplyI(card, a + b) == ApplyI(ApplyI(card, a), b)
    decreases |b|
  {
    if b == [] {
      assert a + b == a;
    } else {
      var b' := b[..|b| - 1];
      assert (a + b)[..|a + b| - 1] == a + b';
      assert (a + b)[|a + b| - 1] == b[|b| - 1];
      ApplyConcatI(card, a, b');
    }
  }

  lemma PlusZeroB(b: BYC)
    ensures PlusB(b, BYC(0, 0)) == b
  {
  }

  lemma PlusZeroI(i: IBYC)
    ensures PlusI(i, IBYC(0, 0)) == i
  {
  }

  lemma PlusAssocB(x: BYC, y: BYC, z: BYC)
    ensures PlusB(PlusB(x, y), z) == PlusB(x, PlusB(y, z))
  {
  }

  lemma PlusAssocI(x: IBYC, y: IBYC, z: IBYC)
    ensures PlusI(PlusI(x, y), z) == PlusI(x, PlusI(y, z))
  {
  }

  /** Bumping by one hit changes entry p by that hit's contribution to p. */
  lemma BumpAtB(b: seq<BYC>, h: Hit, p: nat)
    requires p < |b|
    ensures BumpB(b, h)[p] == PlusB(b[p], HitB(h, p))
  {
  }

  lemma BumpAtI(i: seq<IBYC>, h: Hit, p: nat)
    requires p < |i|
    ensures BumpI(i, h)[p] == PlusI(i[p], HitI(h, p))
  {
  }

  /** A b-ion hit raises bc and ibc of its peptide; a y-ion hit raises yc and iyc. */
  lemma BumpIsUpdate(b: seq<BYC>, i: seq<IBYC>, h: Hit)
    requires h.ppid < |b| && h.ppid < |i|
    ensures h.isB ==> BumpB(b, h) == b[h.ppid := BYC(b[h.ppid].bc + 1, b[h.ppid].yc)]
    ensures h.isB ==> BumpI(i, h) == i[h.ppid := IBYC(i[h.ppid].ibc + h.intn, i[h.ppid].iyc)]
    ensures !h.isB ==> BumpB(b, h) == b[h.ppid := BYC(b[h.ppid].bc, b[h.ppid].yc + 1)]
    ensures !h.isB ==> BumpI(i, h) == i[h.ppid := IBYC(i[h.ppid].ibc, i[h.ppid].iyc + h.intn)]
  {
  }

  /** The hits of a list grown by one occurrence. */
  lemma HitsOfSnoc(occ: seq<nat>, k: nat, speclen: nat, intn: nat)
    requires k < |occ| && speclen > 0
    ensures HitsOf(occ[..k + 1], speclen, intn) == HitsOf(occ[..k], speclen, intn) + [Decode(occ[k], speclen, intn)]
  {
    assert occ[..k + 1][..k] == occ[..k];
  }

  /** Entry p of an updated scorecard is its old value plus the tally of the hits that name p. */
  lemma {:induction false} ApplyIsTallyB(card: seq<BYC>, hits: seq<Hit>, p: nat)
    requires p < |card|
    ensures ApplyB(card, hits)[p] == PlusB(card[p], TallyB(hits, p))
    decreases |hits|
  {
    if hits == [] {
      PlusZeroB(card[p]);
    } else {
      var n := |hits| - 1;
      var front, h := hits[..n], hits[n];
      ApplyIsTallyB(card, front, p);
      BumpAtB(ApplyB(card, front), h, p);
      PlusAssocB(card[p], TallyB(front, p), HitB(h, p));
    }
  }

  lemma {:induction false} ApplyIsTallyI(card: seq<IBYC>, hits: seq<Hit>, p: nat)
    requires p < |card|
    ensures ApplyI(card, hits)[p] == PlusI(card[p], TallyI(hits, p))
    decreases |hits|
  {
    if hits == [] {
      PlusZeroI(card[p]);
    } else {
      var n := |hits| - 1;
      var front, h := hits[..n], hits[n];
      ApplyIsTallyI(card, front, p);
      BumpAtI(ApplyI(card, front), h, p);
      PlusAssocI(card[p], TallyI(front, p), HitI(h, p));
    }
  }

  /**
   * The hits of bins fromBin .. toBin - 1 of chunk c: each bin's selected
   * occurrences, decoded, in bin order.
   */
  function BinsHits(c: IonChunk, fromBin: nat, toBin: nat, speclen: nat, minlimit: nat, maxlimit: nat, intn: nat): seq<Hit>
    requires ChunkShape(c) && fromBin <= toBin < |c.bA| && speclen > 0
    decreases toBin - fromBin
  {
    if fromBin == toBin then []
    else
      BinsHits(c, fromBin, toBin - 1, speclen, minlimit, maxlimit, intn)
        + HitsOf(Selected(BinList(c, toBin - 1), speclen, minlimit, maxlimit), speclen, intn)
  }

  lemma BinsHitsStep(c: IonChunk, fromBin: nat, bin: nat, next: nat, speclen: nat, minlimit: nat, maxlimit: nat, intn: nat)
    requires ChunkShape(c) && fromBin <= bin && next == bin + 1 && next < |c.bA| && speclen > 0
    ensures BinsHits(c, fromBin, next, speclen, minlimit, maxlimit, intn)
         == BinsHits(c, fromBin, bin, speclen, minlimit, maxlimit, intn)
            + HitsOf(Selected(BinList(c, bin), speclen, minlimit, maxlimit), speclen, intn)
  {
  }

  /** The hits of one peak: none unless the peak is usable, else those of the bins q - dF .. q + dF. */
  function PeakHits(c: IonChunk, q: nat, intn: nat, prm: QueryParams, speclen: nat, minlimit: nat, maxlimit: nat): seq<Hit>
    requires ChunkOk(c, prm.maxBins) && speclen > 0
  {
    if Usable(q, prm.dF, prm.maxBins) then
      UsableBinsInIndex(c, q, prm.dF, prm.maxBins);
      BinsHits(c, q - prm.dF, q + prm.dF + 1, speclen, minlimit, maxlimit, intn)
    else []
  }

  /** The hits of peaks 0 .. k - 1 of spectrum s, in peak order. */
  function SpectrumHits(c: IonChunk, s: Spectrum, k: nat, prm: QueryParams, speclen: nat, minlimit: nat, maxlimit: nat): seq<Hit>
    requires ChunkOk(c, prm.maxBins) && speclen > 0
    requires SpectrumOk(s) && k <= |s.moz|
  {
    if k == 0 then []
    else
      SpectrumHits(c, s, k - 1, prm, speclen, minlimit, maxlimit)
        + PeakHits(c, s.moz[k - 1], s.intensity[k - 1], prm, speclen, minlimit, maxlimit)
  }

  /** A usable peak's hits are those of the bins lo .. hi - 1 around it. */
  lemma PeakHitsUsable(c: IonChunk, q: nat, intn: nat, prm: QueryParams, speclen: nat, minlimit: nat, maxlimit: nat, lo: nat, hi: nat)
    requires ChunkOk(c, prm.maxBins) && speclen > 0 && Usable(q, prm.dF, prm.maxBins)
    requires lo == q - prm.dF && hi == q + prm.dF + 1
    ensures lo <= hi < |c.bA|
    ensures PeakHits(c, q, intn, prm, speclen, minlimit, maxlimit) == BinsHits(c, lo, hi, speclen, minlimit, maxlimit, intn)
  {
    UsableBinsInIndex(c, q, prm.dF, prm.maxBins);
  }

  lemma SpectrumHitsStep(c: IonChunk, s: Spectrum, k: nat, next: nat, prm: QueryParams, speclen: nat, minlimit: nat, maxlimit: nat)
    requires ChunkOk(c, prm.maxBins) && speclen > 0
    requires SpectrumOk(s) && next == k + 1 && next <= |s.moz|
    ensures SpectrumHits(c, s, next, prm, speclen, minlimit, maxlimit)
         == SpectrumHits(c, s, k, prm, speclen, minlimit, maxlimit)
            + PeakHits(c, s.moz[k], s.intensity[k], prm, speclen, minlimit, maxlimit)
  {
    var prev := next - 1;
    assert prev == k;
  }

  /** Every hit names a peptide of the window [minlimit, maxlimit]. */
  ghost predicate InWindowHits(hits: seq<Hit>, minlimit: nat, maxlimit: nat)
  {
    forall i :: 0 <= i < |hits| ==> minlimit <= hits[i].ppid <= maxlimit
  }

  lemma InWindowConcat(a: seq<Hit>, b: seq<Hit>, minlimit: nat, maxlimit: nat)
    requires InWindowHits(a, minlimit, maxlimit) && InWindowHits(b, minlimit, maxlimit)
    ensures InWindowHits(a + b, minlimit, maxlimit)
  {
    assert forall i :: 0 <= i < |a + b| ==> (a + b)[i] == if i < |a| then a[i] else b[i - |a|];
  }

  /** The hits of one bin name peptides of the window only. */
  lemma BinHitsInWindow(c: IonChunk, bin: nat, speclen: nat, minlimit: nat, maxlimit: nat, intn: nat)
    requires ChunkShape(c) && bin + 1 < |c.bA| && speclen > 0
    ensures InWindowHits(HitsOf(Selected(BinList(c, bin), speclen, minlimit, maxlimit), speclen, intn), minlimit, maxlimit)
  {
    var sel := Selected(BinList(c, bin), speclen, minlimit, maxlimit);
    SelectedMembers(BinList(c, bin), speclen, minlimit, maxlimit);
    assert forall i :: 0 <= i < |sel| ==> sel[i] in sel;
  }

  /** Only peptides of the window are ever matched, bin by bin. */
  lemma {:induction false} BinsHitsInWindow(c: IonChunk, fromBin: nat, toBin: nat, speclen: nat, minlimit: nat, maxlimit: nat, intn: nat)
    requires ChunkShape(c) && fromBin <= toBin < |c.bA| && speclen > 0
    ensures InWindowHits(BinsHits(c, fromBin, toBin, speclen, minlimit, maxlimit, intn), minlimit, maxlimit)
    decreases toBin - fromBin
  {
    if fromBin < toBin {
      var prev := toBin - 1;
      BinsHitsInWindow(c, fromBin, prev, speclen, minlimit, maxlimit, intn);
      BinsHitsStep(c, fromBin, prev, toBin, speclen, minlimit, maxlimit, intn);
      BinHitsInWindow(c, prev, speclen, minlimit, maxlimit, intn);
      InWindowConcat(BinsHits(c, fromBin, prev, speclen, minlimit, maxlimit, intn),
                     HitsOf(Selected(BinList(c, prev), speclen, minlimit, maxlimit), speclen, intn), minlimit, maxlimit);
    }
  }

  /** Only peptides of the window are ever matched, over a whole spectrum. */
  lemma {:induction false} SpectrumHitsInWindow(c: IonChunk, s: Spectrum, k: nat, prm: QueryParams, speclen: nat, minlimit: nat, maxlimit: nat)
    requires ChunkOk(c, prm.maxBins) && speclen > 0
    requires SpectrumOk(s) && k <= |s.moz|
    ensures InWindowHits(SpectrumHits(c, s, k, prm, speclen, minlimit, maxlimit), minlimit, maxlimit)
  {
    if k > 0 {
      var prev := k - 1;
      SpectrumHitsInWindow(c, s, prev, prm, speclen, minlimit, maxlimit);
      SpectrumHitsStep(c, s, prev, k, prm, speclen, minlimit, maxlimit);
      var q := s.moz[prev];
      var intn := s.intensity[prev];
      if Usable(q, prm.dF, prm.maxBins) {
        var lo, hi := q - prm.dF, q + prm.dF + 1;
        PeakHitsUsable(c, q, intn, prm, speclen, minlimit, maxlimit, lo, hi);
        BinsHitsInWindow(c, lo, hi, speclen, minlimit, maxlimit, intn);
      }
      InWindowConcat(SpectrumHits(c, s, prev, prm, speclen, minlimit, maxlimit),
                     PeakHits(c, q, intn, prm, speclen, minlimit, maxlimit), minlimit, maxlimit);
    }
  }

  /** The scorecard that a list of hits leaves behind when it starts all-zero. */
  function TallyCardB(hits: seq<Hit>, n: nat): (r: seq<BYC>)
    ensures |r| == n && forall p :: 0 <= p < n ==> r[p] == TallyB(hits, p)
  {
    seq(n, p requires 0 <= p => TallyB(hits, p))
  }

  function TallyCardI(hits: seq<Hit>, n: nat): (r: seq<IBYC>)
    ensures |r| == n && forall p :: 0 <= p < n ==> r[p] == TallyI(hits, p)
  {
    seq(n, p requires 0 <= p => TallyI(hits, p))
  }

  /** An entry is admitted with at least minShp shared peaks and a positive hyperscore. */
  predicate Admitted(b: BYC, i: IBYC, prm: QueryParams)
  {
    b.bc + b.yc >= prm.minShp && prm.hyperscore(b, i) > 0.0
  }

  function CellOf(b: BYC, i: IBYC, prm: QueryParams, ixx: nat, it: nat, speclen: nat, pmass: real): HCell
  {
    HCell(prm.hyperscore(b, i), ixx, it, b.bc + b.yc, speclen, pmass)
  }

  /**
   * The candidate PSMs of the entries minlimit .. maxlimit, in ascending
   * peptide order: one cell per admitted entry.
   */
  function Candidates(byc: seq<BYC>, ibyc: seq<IBYC>, minlimit: nat, maxlimit: int, prm: QueryParams,
                      ixx: nat, speclen: nat, pmass: real): seq<HCell>
    requires |byc| == |ibyc| && maxlimit < |byc|
    decreases maxlimit - minlimit + 1
  {
    if maxlimit < minlimit then []
    else
      var front := Candidates(byc, ibyc, minlimit, maxlimit - 1, prm, ixx, speclen, pmass);
      if Admitted(byc[maxlimit], ibyc[maxlimit], prm) then
        front + [CellOf(byc[maxlimit], ibyc[maxlimit], prm, ixx, maxlimit, speclen, pmass)]
      else front
  }

  /**
   * The candidates are exactly the admitted entries of [minlimit, maxlimit],
   * one cell each, built from that entry, in ascending peptide order and so
   * at most one per entry.
   */
  lemma {:induction false} CandidatesSpec(byc: seq<BYC>, ibyc: seq<IBYC>, minlimit: nat, maxlimit: int, prm: QueryParams,
                                         ixx: nat, speclen: nat, pmass: real)
    requires |byc| == |ibyc| && maxlimit < |byc|
    ensures var r := Candidates(byc, ibyc, minlimit, maxlimit, prm, ixx, speclen, pmass);
      && |r| <= (if maxlimit < minlimit then 0 else maxlimit - minlimit + 1)
      && (forall j :: 0 <= j < |r| ==>
            && minlimit <= r[j].psid <= maxlimit
            && Admitted(byc[r[j].psid], ibyc[r[j].psid], prm)
            && r[j] == CellOf(byc[r[j].psid], ibyc[r[j].psid], prm, ixx, r[j].psid, speclen, pmass))
      && (forall it :: minlimit <= it <= maxlimit && Admitted(byc[it], ibyc[it], prm) ==>
            CellOf(byc[it], ibyc[it], prm, ixx, it, speclen, pmass) in r)
      && (forall j, k :: 0 <= j < k < |r| ==> r[j].psid < r[k].psid)
    decreases maxlimit - minlimit + 1
  {
    if minlimit <= maxlimit {
      CandidatesSpec(byc, ibyc, minlimit, maxlimit - 1, prm, ixx, speclen, pmass);
    }
  }

  /** Candidate extraction reads the scorecard only inside [minlimit, maxlimit]. */
  lemma {:induction false} CandidatesReadOnlyWindow(byc: seq<BYC>, ibyc: seq<IBYC>, byc': seq<BYC>, ibyc': seq<IBYC>,
                                                 minlimit: nat, maxlimit: int, prm: QueryParams, ixx: nat, speclen: nat, pmass: real)
    requires |byc| == |ibyc| && maxlimit < |byc|
    requires |byc'| == |ibyc'| && maxlimit < |byc'|
    requires forall p :: minlimit <= p <= maxlimit ==> byc[p] == byc'[p] && ibyc[p] == ibyc'[p]
    ensures Candidates(byc, ibyc, minlimit, maxlimit, prm, ixx, speclen, pmass)
         == Candidates(byc', ibyc', minlimit, maxlimit, prm, ixx, speclen, pmass)
    decreases maxlimit - minlimit + 1
  {
    if minlimit <= maxlimit {
      CandidatesReadOnlyWindow(byc, ibyc, byc', ibyc', minlimit, maxlimit - 1, prm, ixx, speclen, pmass);
    }
  }

  /**
   * What querying spectrum s against chunk chno of part ixx contributes to
   * the top-K list: nothing when no peptide lies in the precursor window,
   * else the candidates of the window computed from the spectrum's hits.
   */
  function ChunkCandidates(part: IndexPart, chno: nat, ixx: nat, s: Spectrum, prm: QueryParams): seq<HCell>
    requires PartOk(part, prm) && chno < |part.ionIndex| && SpectrumOk(s)
  {
    match WindowOf(part.pepMasses, s.precursor, prm.dM)
    case None => []
    case Some(w) =>
      var speclen := SpecLen(part, prm);
      var c := part.ionIndex[chno];
      assert c in part.ionIndex;
      var hits := SpectrumHits(c, s, |s.moz|, prm, speclen, w.0, w.1);
      var n := |part.pepMasses|;
      Candidates(TallyCardB(hits, n), TallyCardI(hits, n), w.0, w.1, prm, ixx, speclen, s.precursor)
  }

  /** The concatenation of a list of candidate lists, in order. */
  function Flatten<T>(xs: seq<seq<T>>): seq<T>
  {
    if xs == [] then [] else Flatten(xs[..|xs| - 1]) + xs[|xs| - 1]
  }

  /** The candidates of each chunk of part ixx, in chunk order. */
  function ChunkResults(part: IndexPart, ixx: nat, s: Spectrum, prm: QueryParams): (r: seq<seq<HCell>>)
    requires PartOk(part, prm) && SpectrumOk(s)
    ensures |r| == |part.ionIndex|
  {
    seq(|part.ionIndex|, j requires 0 <= j < |part.ionIndex| => ChunkCandidates(part, j, ixx, s, prm))
  }

  /** The candidates of part ixx: those of its chunks, in chunk order. */
  function PartCandidates(part: IndexPart, ixx: nat, s: Spectrum, prm: QueryParams): seq<HCell>
    requires PartOk(part, prm) && SpectrumOk(s)
  {
    Flatten(ChunkResults(part, ixx, s, prm))
  }

  ghost predicate IndexOk(index: seq<IndexPart>, prm: QueryParams)
  {
    forall i :: 0 <= i < |index| ==> PartOk(index[i], prm)
  }

  /** The candidates of each index part, in part order. */
  function PartResults(index: seq<IndexPart>, s: Spectrum, prm: QueryParams): (r: seq<seq<HCell>>)
    requires IndexOk(index, prm) && SpectrumOk(s)
    ensures |r| == |index|
  {
    seq(|index|, i requires 0 <= i < |index| => PartCandidates(index[i], i, s, prm))
  }

  /** Everything one spectrum contributes to its top-K list: the candidates of every part. */
  function IndexCandidates(index: seq<IndexPart>, s: Spectrum, prm: QueryParams): seq<HCell>
    requires IndexOk(index, prm) && SpectrumOk(s)
  {
    Flatten(PartResults(index, s, prm))
  }

  /**
   * A scorecard that starts all-zero and takes hits of the window [lo, hi]
   * holds each window peptide's tally and zero everywhere else.
   */
  lemma FreshTallyB(zero: seq<BYC>, hits: seq<Hit>, lo: nat, hi: nat)
    requires forall p :: 0 <= p < |zero| ==> zero[p] == BYC(0, 0)
    requires InWindowHits(hits, lo, hi)
    ensures forall p :: 0 <= p < |zero| ==>
      ApplyB(zero, hits)[p] == if lo <= p <= hi then TallyB(hits, p) else BYC(0, 0)
  {
    forall p | 0 <= p < |zero|
      ensures ApplyB(zero, hits)[p] == if lo <= p <= hi then TallyB(hits, p) else BYC(0, 0)
    {
      ApplyIsTallyB(zero, hits, p);
      if !(lo <= p <= hi) {
        TallyAbsent(hits, p);
      }
    }
  }

  lemma FreshTallyI(zero: seq<IBYC>, hits: seq<Hit>, lo: nat, hi: nat)
    requires forall p :: 0 <= p < |zero| ==> zero[p] == IBYC(0, 0)
    requires InWindowHits(hits, lo, hi)
    ensures forall p :: 0 <= p < |zero| ==>
      ApplyI(zero, hits)[p] == if lo <= p <= hi then TallyI(hits, p) else IBYC(0, 0)
  {
    forall p | 0 <= p < |zero|
      ensures ApplyI(zero, hits)[p] == if lo <= p <= hi then TallyI(hits, p) else IBYC(0, 0)
    {
      ApplyIsTallyI(zero, hits, p);
      if !(lo <= p <= hi) {
        TallyAbsent(hits, p);
      }
    }
  }

  /**
   * Candidates read from a scorecard that started all-zero are those of the
   * tallies of the window's hits.
   */
  lemma FreshCandidates(zB: seq<BYC>, zI: seq<IBYC>, hits: seq<Hit>, n: nat, lo: nat, hi: nat,
                        prm: QueryParams, ixx: nat, speclen: nat, pmass: real)
    requires |zB| == |zI| && n <= |zB| && lo <= hi < n
    requires forall p :: 0 <= p < |zB| ==> zB[p] == BYC(0, 0)
    requires forall p :: 0 <= p < |zI| ==> zI[p] == IBYC(0, 0)
    requires InWindowHits(hits, lo, hi)
    ensures Candidates(ApplyB(zB, hits), ApplyI(zI, hits), lo, hi, prm, ixx, speclen, pmass)
         == Candidates(TallyCardB(hits, n), TallyCardI(hits, n), lo, hi, prm, ixx, speclen, pmass)
  {
    FreshTallyB(zB, hits, lo, hi);
    FreshTallyI(zI, hits, lo, hi);
    CandidatesReadOnlyWindow(ApplyB(zB, hits), ApplyI(zI, hits), TallyCardB(hits, n), TallyCardI(hits, n),
                             lo, hi, prm, ixx, speclen, pmass);
  }

  /** A chunk whose window is [lo, hi] contributes the candidates of its spectrum hits' tallies. */
  lemma ChunkCandidatesFound(part: IndexPart, chno: nat, ixx: nat, s: Spectrum, prm: QueryParams, lo: nat, hi: nat)
    requires PartOk(part, prm) && chno < |part.ionIndex| && SpectrumOk(s)
    requires WindowOf(part.pepMasses, s.precursor, prm.dM) == Some((lo, hi))
    ensures ChunkOk(part.ionIndex[chno], prm.maxBins) && lo <= hi < |part.pepMasses|
    ensures ChunkCandidates(part, chno, ixx, s, prm)
         == Candidates(TallyCardB(SpectrumHits(part.ionIndex[chno], s, |s.moz|, prm, SpecLen(part, prm), lo, hi), |part.pepMasses|),
                       TallyCardI(SpectrumHits(part.ionIndex[chno], s, |s.moz|, prm, SpecLen(part, prm), lo, hi), |part.pepMasses|),
                       lo, hi, prm, ixx, SpecLen(part, prm), s.precursor)
  {
    assert part.ionIndex[chno] in part.ionIndex;
  }

  /** A chunk whose spectrum has no peptide in its precursor window contributes nothing. */
  lemma ChunkCandidatesNone(part: IndexPart, chno: nat, ixx: nat, s: Spectrum, prm: QueryParams)
    requires PartOk(part, prm) && chno < |part.ionIndex| && SpectrumOk(s)
    requires WindowOf(part.pepMasses, s.precursor, prm.dM).None?
    ensures ChunkCandidates(part, chno, ixx, s, prm) == []
  {
  }

  /** Flattening one more list of a prefix appends that list. */
  lemma FlattenStep<T>(xs: seq<seq<T>>, k: nat, next: nat)
    requires next == k + 1 && next <= |xs|
    ensures Flatten(xs[..next]) == Flatten(xs[..k]) + xs[k]
  {
    assert xs[..next][..k] == xs[..k];
  }

  lemma FlattenLength<T>(xs: seq<seq<T>>, k: nat, next: nat)
    requires next == k + 1 && next <= |xs|
    ensures |Flatten(xs[..next])| == |Flatten(xs[..k])| + |xs[k]|
  {
    FlattenStep(xs, k, next);
  }

  /**
   * A batch of query spectra: peaks and intensities of all spectra back to
   * back, idx[q] .. idx[q + 1] delimiting spectrum q, and the precursor masses.
   */
  datatype Queries = Queries(moz: seq<nat>, intensity: seq<nat>, idx: seq<nat>, precurse: seq<real>, numSpecs: nat)

  ghost predicate QueriesOk(ss: Queries)
  {
    && |ss.idx| == ss.numSpecs + 1 && |ss.precurse| >= ss.numSpecs
    && |ss.moz| == |ss.intensity|
    && (forall q :: 0 <= q < ss.numSpecs ==> ss.idx[q] <= ss.idx[q + 1])
    && ss.idx[ss.numSpecs] <= |ss.moz|
  }

  lemma IdxAscending(ss: Queries, a: nat, b: nat)
    requires QueriesOk(ss) && a <= b <= ss.numSpecs
    ensures ss.idx[a] <= ss.idx[b]
    decreases b - a
  {
    if a < b {
      IdxAscending(ss, a + 1, b);
    }
  }

  /** Spectrum q of the batch: moz + idx[q], intensity + idx[q], idx[q + 1] - idx[q] peaks. */
  function SpectrumAt(ss: Queries, q: nat): (r: Spectrum)
    requires QueriesOk(ss) && q < ss.numSpecs
    ensures SpectrumOk(r) && |r.moz| == ss.idx[q + 1] - ss.idx[q]
  {
    IdxAscending(ss, q + 1, ss.numSpecs);
    var lo, hi := ss.idx[q], ss.idx[q + 1];
    Spectrum(ss.moz[lo..hi], ss.intensity[lo..hi], ss.precurse[q])
  }

  /** What is reported for one spectrum: its global id and its candidate PSMs. */
  datatype Report = Report(qid: nat, psms: seq<HCell>)

  /** The candidates of each spectrum of the batch, in batch order. */
  function BatchCandidates(ss: Queries, index: seq<IndexPart>, prm: QueryParams): (r: seq<seq<HCell>>)
    requires QueriesOk(ss) && IndexOk(index, prm)
    ensures |r| == ss.numSpecs
  {
    seq(ss.numSpecs, q requires 0 <= q < ss.numSpecs => IndexCandidates(index, SpectrumAt(ss, q), prm))
  }

  /**
   * The reports of a batch whose spectra have the candidate lists cands:
   * spectrum q is reported under id spectrumID + q when it has at least
   * minCpsm candidates.
   */
  function Reports(cands: seq<seq<HCell>>, minCpsm: nat, spectrumID: nat): seq<Report>
  {
    if cands == [] then []
    else
      var q := |cands| - 1;
      Reports(cands[..q], minCpsm, spectrumID)
        + (if |cands[q]| >= minCpsm then [Report(spectrumID + q, cands[q])] else [])
  }

  lemma ReportsStep(cands: seq<seq<HCell>>, k: nat, next: nat, minCpsm: nat, spectrumID: nat)
    requires next == k + 1 && next <= |cands|
    ensures Reports(cands[..next], minCpsm, spectrumID)
         == Reports(cands[..k], minCpsm, spectrumID)
            + (if |cands[k]| >= minCpsm then [Report(spectrumID + k, cands[k])] else [])
  {
    assert cands[..next][..k] == cands[..k];
  }

  /**
   * The reports carry the global ids spectrumID .. spectrumID + |cands| - 1
   * in ascending order, each with its spectrum's candidates and at least
   * minCpsm of them, and every spectrum with that many candidates is
   * reported.
   */
  lemma {:induction false} ReportsIds(cands: seq<seq<HCell>>, minCpsm: nat, spectrumID: nat)
    ensures forall j :: 0 <= j < |Reports(cands, minCpsm, spectrumID)| ==>
      var r := Reports(cands, minCpsm, spectrumID)[j];
      && spectrumID <= r.qid < spectrumID + |cands|
      && r.psms == cands[r.qid - spectrumID]
      && |r.psms| >= minCpsm
    ensures forall j, j' :: 0 <= j < j' < |Reports(cands, minCpsm, spectrumID)| ==>
      Reports(cands, minCpsm, spectrumID)[j].qid < Reports(cands, minCpsm, spectrumID)[j'].qid
    ensures forall q :: 0 <= q < |cands| && |cands[q]| >= minCpsm ==>
      Report(spectrumID + q, cands[q]) in Reports(cands, minCpsm, spectrumID)
    decreases |cands|
  {
    if cands != [] {
      var q := |cands| - 1;
      var front := cands[..q];
      ReportsIds(front, minCpsm, spectrumID);
      assert forall i :: 0 <= i < q ==> front[i] == cands[i];
    }
  }

  /** One thread's scorecard and result record. */
  class Scorecard {
    const byc: array<BYC>
    const ibyc: array<IBYC>
    var cpsms: nat
    var topK: seq<HCell>

    ghost predicate Valid()
      reads this
    {
      byc.Length == ibyc.Length
    }

    /** Every entry of the scorecard is zero: the state between chunks. */
    ghost predicate AllZero()
      reads this, byc, ibyc
    {
      Valid() && forall p :: 0 <= p < byc.Length ==> byc[p] == BYC(0, 0) && ibyc[p] == IBYC(0, 0)
    }

    constructor (size: nat)
      ensures AllZero() && byc.Length == size && cpsms == 0 && topK == []
      ensures fresh(byc) && fresh(ibyc)
    {
      byc := new BYC[size](_ => BYC(0, 0));
      ibyc := new IBYC[size](_ => IBYC(0, 0));
      cpsms := 0;
      topK := [];
    }

    /**
     * The loop over the located occurrences iA[stt..ends]: each one bumps the
     * b or y counter and intensity of its peptide by one and by intn.
     */
    method MatchOccurrences(iA: seq<nat>, stt: nat, ends: int, speclen: nat, intn: nat)
      requires Valid() && speclen > 0 && stt <= ends + 1 <= |iA|
      requires forall j :: stt <= j <= ends ==> iA[j] / speclen < byc.Length
      modifies byc, ibyc
      ensures byc[..] == ApplyB(old(byc[..]), HitsOf(iA[stt..ends + 1], speclen, intn))
      ensures ibyc[..] == ApplyI(old(ibyc[..]), HitsOf(iA[stt..ends + 1], speclen, intn))
    {
      ghost var b0, i0 := byc[..], ibyc[..];
      ghost var occ := iA[stt..ends + 1];
      assert occ[..|occ|] == occ;
      var ion := stt;
      while ion <= ends
        invariant stt <= ion <= ends + 1
        invariant byc[..] == ApplyB(b0, HitsOf(occ[..ion - stt], speclen, intn))
        invariant ibyc[..] == ApplyI(i0, HitsOf(occ[..ion - stt], speclen, intn))
      {
        assert occ[ion - stt] == iA[ion];
        HitsOfSnoc(occ, ion - stt, speclen, intn);
        ApplySnoc(b0, i0, HitsOf(occ[..ion - stt], speclen, intn), Decode(iA[ion], speclen, intn));
        AddOccurrence(iA[ion], speclen, intn);
        ion := ion + 1;
      }
    }

    /** One located occurrence raw: its peptide's b or y counter and intensity go up. */
    method AddOccurrence(raw: nat, speclen: nat, intn: nat)
      requires Valid() && speclen > 0 && raw / speclen < byc.Length
      modifies byc, ibyc
      ensures byc[..] == BumpB(old(byc[..]), Decode(raw, speclen, intn))
      ensures ibyc[..] == BumpI(old(ibyc[..]), Decode(raw, speclen, intn))
    {
      var ppid := raw / speclen;
      BumpIsUpdate(byc[..], ibyc[..], Decode(raw, speclen, intn));
      if raw % speclen < speclen / 2 {
        byc[ppid] := BYC(byc[ppid].bc + 1, byc[ppid].yc);
        ibyc[ppid] := IBYC(ibyc[ppid].ibc + intn, ibyc[ppid].iyc);
      } else {
        byc[ppid] := BYC(byc[ppid].bc, byc[ppid].yc + 1);
        ibyc[ppid] := IBYC(ibyc[ppid].ibc, ibyc[ppid].iyc + intn);
      }
    }

    /**
     * One bin: an empty bin is skipped, otherwise its list is narrowed to
     * the window with lower_bound / upper_bound and the located occurrences
     * are matched.
     */
    method MatchBin(c: IonChunk, bin: nat, intn: nat, speclen: nat, minlimit: nat, maxlimit: nat)
      requires Valid() && ChunkShape(c) && bin + 1 < |c.bA| && speclen > 0 && maxlimit < byc.Length
      modifies byc, ibyc
      ensures byc[..] == ApplyB(old(byc[..]), HitsOf(Selected(BinList(c, bin), speclen, minlimit, maxlimit), speclen, intn))
      ensures ibyc[..] == ApplyI(old(ibyc[..]), HitsOf(Selected(BinList(c, bin), speclen, minlimit, maxlimit), speclen, intn))
    {
      var start := c.bA[bin];
      var end := c.bA[bin + 1];
      ghost var sel := Selected(BinList(c, bin), speclen, minlimit, maxlimit);
      if end - start < 1 {
        assert sel == [];
      } else {
        var stt, ends := OccurrenceRange(c.iA, start, end, speclen, minlimit, maxlimit);
        assert forall j :: stt <= j <= ends ==> c.iA[j] == sel[j - stt];
        assert forall j :: stt <= j <= ends ==> c.iA[j] in sel;
        SelectedMembers(BinList(c, bin), speclen, minlimit, maxlimit);
        MatchOccurrences(c.iA, stt, ends, speclen, intn);
      }
    }

    /** The bins fromBin .. toBin - 1, in ascending order. */
    method MatchBins(c: IonChunk, fromBin: nat, toBin: nat, intn: nat, speclen: nat, minlimit: nat, maxlimit: nat)
      requires Valid() && ChunkShape(c) && fromBin <= toBin < |c.bA| && speclen > 0 && maxlimit < byc.Length
      modifies byc, ibyc
      ensures byc[..] == ApplyB(old(byc[..]), BinsHits(c, fromBin, toBin, speclen, minlimit, maxlimit, intn))
      ensures ibyc[..] == ApplyI(old(ibyc[..]), BinsHits(c, fromBin, toBin, speclen, minlimit, maxlimit, intn))
    {
      ghost var b0, i0 := byc[..], ibyc[..];
      ghost var done: seq<Hit> := [];
      var bin := fromBin;
      while bin < toBin
        invariant fromBin <= bin <= toBin
        invariant done == BinsHits(c, fromBin, bin, speclen, minlimit, maxlimit, intn)
        invariant byc[..] == ApplyB(b0, done) && ibyc[..] == ApplyI(i0, done)
      {
        ghost var last := HitsOf(Selected(BinList(c, bin), speclen, minlimit, maxlimit), speclen, intn);
        var next := bin + 1;
        BinsHitsStep(c, fromBin, bin, next, speclen, minlimit, maxlimit, intn);
        ApplyConcatB(b0, done, last);
        ApplyConcatI(i0, done, last);
        MatchBin(c, bin, intn, speclen, minlimit, maxlimit);
        done := done + last;
        bin := next;
      }
    }

    /**
     * One peak q with intensity intn: a usable peak scans the bins
     * q - dF .. q + dF; other peaks change nothing.
     */
    method MatchPeak(c: IonChunk, q: nat, intn: nat, prm: QueryParams, speclen: nat, minlimit: nat, maxlimit: nat)
      requires Valid() && ChunkOk(c, prm.maxBins) && speclen > 0 && maxlimit < byc.Length
      modifies byc, ibyc
      ensures byc[..] == ApplyB(old(byc[..]), PeakHits(c, q, intn, prm, speclen, minlimit, maxlimit))
      ensures ibyc[..] == ApplyI(old(ibyc[..]), PeakHits(c, q, intn, prm, speclen, minlimit, maxlimit))
    {
      var dF := prm.dF;
      if q > dF && q < prm.maxBins - 1 - dF {
        var lo, hi := q - dF, q + 1 + dF;
        PeakHitsUsable(c, q, intn, prm, speclen, minlimit, maxlimit, lo, hi);
        MatchBins(c, lo, hi, intn, speclen, minlimit, maxlimit);
      }
    }

    /** All peaks of spectrum s, in order. */
    method MatchSpectrum(c: IonChunk, s: Spectrum, prm: QueryParams, speclen: nat, minlimit: nat, maxlimit: nat)
      requires Valid() && ChunkOk(c, prm.maxBins) && speclen > 0 && maxlimit < byc.Length
      requires SpectrumOk(s)
      modifies byc, ibyc
      ensures byc[..] == ApplyB(old(byc[..]), SpectrumHits(c, s, |s.moz|, prm, speclen, minlimit, maxlimit))
      ensures ibyc[..] == ApplyI(old(ibyc[..]), SpectrumHits(c, s, |s.moz|, prm, speclen, minlimit, maxlimit))
    {
      ghost var b0, i0 := byc[..], ibyc[..];
      var k := 0;
      while k < |s.moz|
        invariant k <= |s.moz|
        invariant byc[..] == ApplyB(b0, SpectrumHits(c, s, k, prm, speclen, minlimit, maxlimit))
        invariant ibyc[..] == ApplyI(i0, SpectrumHits(c, s, k, prm, speclen, minlimit, maxlimit))
      {
        ghost var front := SpectrumHits(c, s, k, prm, speclen, minlimit, maxlimit);
        ghost var peak := PeakHits(c, s.moz[k], s.intensity[k], prm, speclen, minlimit, maxlimit);
        var next := k + 1;
        SpectrumHitsStep(c, s, k, next, prm, speclen, minlimit, maxlimit);
        ApplyConcatB(b0, front, peak);
        ApplyConcatI(i0, front, peak);
        MatchPeak(c, s.moz[k], s.intensity[k], prm, speclen, minlimit, maxlimit);
        k := next;
      }
    }

    /**
     * The candidate loop over minlimit .. maxlimit: each admitted entry is
     * inserted into topK and counted in cpsms. The scorecard is only read.
     */
    method ExtractCandidates(minlimit: nat, maxlimit: nat, prm: QueryParams, ixx: nat, speclen: nat, pmass: real)
      requires Valid() && minlimit <= maxlimit < byc.Length
      modifies this
      ensures topK == old(topK) + Candidates(byc[..], ibyc[..], minlimit, maxlimit, prm, ixx, speclen, pmass)
      ensures cpsms == old(cpsms) + |Candidates(byc[..], ibyc[..], minlimit, maxlimit, prm, ixx, speclen, pmass)|
    {
      var it := minlimit;
      while it <= maxlimit
        invariant minlimit <= it <= maxlimit + 1
        invariant topK == old(topK) + Candidates(byc[..], ibyc[..], minlimit, it - 1, prm, ixx, speclen, pmass)
        invariant cpsms == old(cpsms) + |Candidates(byc[..], ibyc[..], minlimit, it - 1, prm, ixx, speclen, pmass)|
        decreases maxlimit + 1 - it
      {
        var b := byc[it];
        var i := ibyc[it];
        var shpk := b.bc + b.yc;
        if shpk >= prm.minShp {
          var score := prm.hyperscore(b, i);
          if score > 0.0 {
            topK := topK + [HCell(score, ixx, it, shpk, speclen, pmass)];
            cpsms := cpsms + 1;
          }
        }
        it := it + 1;
      }
    }

    /** The two memsets: entries minlimit .. maxlimit become zero, the rest is untouched. */
    method ClearRange(minlimit: nat, maxlimit: nat)
      requires Valid() && maxlimit < byc.Length
      modifies byc, ibyc
      ensures forall p :: 0 <= p < byc.Length ==>
        && byc[p] == (if minlimit <= p <= maxlimit then BYC(0, 0) else old(byc[p]))
        && ibyc[p] == (if minlimit <= p <= maxlimit then IBYC(0, 0) else old(ibyc[p]))
    {
      forall p | minlimit <= p <= maxlimit {
        byc[p] := BYC(0, 0);
      }
      forall p | minlimit <= p <= maxlimit {
        ibyc[p] := IBYC(0, 0);
      }
    }

    /**
     * One chunk: the precursor window, the spectrum's matches, candidate
     * extraction and the clear. A scorecard that starts all-zero ends
     * all-zero, and topK and cpsms grow by the chunk's candidates.
     */
    method QueryChunk(part: IndexPart, chno: nat, ixx: nat, s: Spectrum, prm: QueryParams)
      requires AllZero() && PartOk(part, prm) && chno < |part.ionIndex| && SpectrumOk(s)
      requires |part.pepMasses| <= byc.Length
      modifies this, byc, ibyc
      ensures AllZero()
      ensures topK == old(topK) + ChunkCandidates(part, chno, ixx, s, prm)
      ensures cpsms == old(cpsms) + |ChunkCandidates(part, chno, ixx, s, prm)|
    {
      var speclen := SpecLen(part, prm);
      var c := part.ionIndex[chno];
      assert c in part.ionIndex;
      var val, minlimit, maxlimit := BinarySearch(part.pepMasses, prm.dM, s.precursor);
      if !val || maxlimit < minlimit {
        ChunkCandidatesNone(part, chno, ixx, s, prm);
        return;
      }
      var lo: nat, hi: nat := minlimit, maxlimit;
      ChunkCandidatesFound(part, chno, ixx, s, prm, lo, hi);
      ghost var n := |part.pepMasses|;
      ghost var hits := SpectrumHits(c, s, |s.moz|, prm, speclen, lo, hi);
      ghost var zB, zI := byc[..], ibyc[..];
      MatchSpectrum(c, s, prm, speclen, lo, hi);
      SpectrumHitsInWindow(c, s, |s.moz|, prm, speclen, lo, hi);
      FreshCandidates(zB, zI, hits, n, lo, hi, prm, ixx, speclen, s.precursor);
      FreshTallyB(zB, hits, lo, hi);
      FreshTallyI(zI, hits, lo, hi);
      ExtractCandidates(lo, hi, prm, ixx, speclen, s.precursor);
      ClearRange(lo, hi);
    }

    /** Every chunk of part ixx, in order; the scorecard is all-zero between chunks. */
    method QueryPart(part: IndexPart, ixx: nat, s: Spectrum, prm: QueryParams)
      requires AllZero() && PartOk(part, prm) && SpectrumOk(s) && cpsms == |topK|
      requires |part.pepMasses| <= byc.Length
      modifies this, byc, ibyc
      ensures AllZero() && cpsms == |topK|
      ensures topK == old(topK) + PartCandidates(part, ixx, s, prm)
    {
      ghost var start := topK;
      ghost var chunks := ChunkResults(part, ixx, s, prm);
      var chno := 0;
      while chno < |part.ionIndex|
        invariant chno <= |part.ionIndex| && AllZero() && cpsms == |topK|
        invariant topK == start + Flatten(chunks[..chno])
      {
        ghost var here := Flatten(chunks[..chno]);
        assert chunks[chno] == ChunkCandidates(part, chno, ixx, s, prm);
        AppendAssoc(start, here, chunks[chno]);
        QueryChunk(part, chno, ixx, s, prm);
        var next := chno + 1;
        FlattenStep(chunks, chno, next);
        chno := next;
      }
      assert chunks[..chno] == chunks;
    }

    /**
     * One query spectrum against every chunk of every index part, then the
     * report test on cpsms and the reset of the results.
     */
    method QuerySpectrum(index: seq<IndexPart>, s: Spectrum, prm: QueryParams, minCpsm: nat)
      returns (psms: seq<HCell>, reported: bool)
      requires AllZero() && topK == [] && cpsms == 0 && SpectrumOk(s) && IndexOk(index, prm)
      requires forall i :: 0 <= i < |index| ==> |index[i].pepMasses| <= byc.Length
      modifies this, byc, ibyc
      ensures AllZero() && topK == [] && cpsms == 0
      ensures psms == IndexCandidates(index, s, prm)
      ensures reported <==> |psms| >= minCpsm
    {
      ghost var parts := PartResults(index, s, prm);
      var ixx := 0;
      while ixx < |index|
        invariant ixx <= |index| && AllZero() && cpsms == |topK|
        invariant topK == Flatten(parts[..ixx])
      {
        ghost var here := Flatten(parts[..ixx]);
        assert parts[ixx] == PartCandidates(index[ixx], ixx, s, prm);
        QueryPart(index[ixx], ixx, s, prm);
        var next := ixx + 1;
        FlattenStep(parts, ixx, next);
        ixx := next;
      }
      assert parts[..ixx] == parts;
      psms := topK;
      reported := cpsms >= minCpsm;
      topK := [];
      cpsms := 0;
    }

    /**
     * The loop over the spectra of a batch: spectrum q is queried and, when
     * it has enough candidates, reported under id spectrumID + q; afterwards
     * spectrumID has advanced by the batch's spectrum count.
     */
    method QueryBatch(ss: Queries, index: seq<IndexPart>, prm: QueryParams, minCpsm: nat, spectrumID: nat)
      returns (reports: seq<Report>, nextID: nat)
      requires AllZero() && topK == [] && cpsms == 0 && QueriesOk(ss) && IndexOk(index, prm)
      requires forall i :: 0 <= i < |index| ==> |index[i].pepMasses| <= byc.Length
      modifies this, byc, ibyc
      ensures AllZero() && topK == [] && cpsms == 0
      ensures reports == Reports(BatchCandidates(ss, index, prm), minCpsm, spectrumID)
      ensures nextID == spectrumID + ss.numSpecs
    {
      ghost var cands := BatchCandidates(ss, index, prm);
      reports := [];
      var q := 0;
      while q < ss.numSpecs
        invariant q <= ss.numSpecs && AllZero() && topK == [] && cpsms == 0
        invariant reports == Reports(cands[..q], minCpsm, spectrumID)
      {
        assert cands[q] == IndexCandidates(index, SpectrumAt(ss, q), prm);
        var psms, reported := QuerySpectrum(index, SpectrumAt(ss, q), prm, minCpsm);
        var next := q + 1;
        ReportsStep(cands, q, next, minCpsm, spectrumID);
        if reported {
          reports := reports + [Report(spectrumID + q, psms)];
        }
        q := next;
      }
      assert cands[..q] == cands;
      nextID := spectrumID + ss.numSpecs;
    }
  }
}
