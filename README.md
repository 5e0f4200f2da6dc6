# Fragment-index peptide search: a verified model of the query core

This project models the sequential core of the peptide search engine's query
step in Dafny and proves properties of it:

- **Precursor-mass range search** (`RangeSearch`, range_search.dfy). The peptide
  entries of an index part are sorted by precursor mass. A query mass `p` with
  tolerance `dM` selects the index range `[minlimit, maxlimit]` of the entries in
  `[p - dM, p + dM]`. `DSLIM_BinFindMin` and `DSLIM_BinFindMax` halve the range
  recursively and switch to a linear scan below 20 entries; on an exact hit they
  walk through the run of equal masses.
- **The fragment-ion index** (`FragmentIndex`, fragment_index.dfy). The layout is
  `bA` (bin starts) and `iA` (sorted occurrence lists of encoded
  `peptide * speclen + ion` values). It also covers the peak usability test and
  the `lower_bound` / `upper_bound` narrowing of a bin to a peptide window.
- **The ranged matcher** (`RangedQuery`, ranged_query.dfy). This is the
  per-spectrum body of `DSLIM_QuerySpectrum` in source/core/dslim_query.cpp.
  - Every usable peak scans its bins, only within the precursor window, and
    bumps a thread's scorecard in place.
  - Candidates with enough shared peaks are collected, then the window is
    cleared.
  - Spectra are reported under consecutive global ids.
- **The legacy matcher** (`LegacyQuery`, legacy_query.dfy). This is
  `DSLIM_QuerySpectrum` in cfirindex/src/dslim_query.cpp.
  - The whole bin window is scanned with no precursor gating.
  - One-byte counters wrap at 256.
  - The chunk size is chosen per chunk.
  - A strict-threshold running argmax runs while the scorecard is cleared as it
    is read.
  - Lemmas state how it relates to the ranged matcher.
- **Driver arithmetic** (`QueryDriver`, query_driver.dfy). It covers the number
  of query threads and the numbering of the query files' batches.
- **Parameter handling** (`Params`, params.dfy). It covers the `sanitize_*`
  clamps and the parsing of `AA:MASS:NUM` modification strings into the
  modification table and the `modconditions` string.
  - Whitespace removal and colon replacement work in place on a character
    buffer.
  - The string stream's `>>` is modelled with its failure behaviour.
  - `std::to_string` and `std::atoi` are modelled as decimal conversions.

Scorecards are classes whose arrays the methods update in place. Each method is
proved against a function of the old contents, and lemmas about those
functions state what the source promises. Precursor masses, the resolution and
the legacy intensities are mathematical reals. Hyperscores are a function
parameter.

## Model

| member | source | states |
|---|---|---|
| RangeSearch.FirstAtLeast | source/core/dslim_query.cpp:944-984 | the reference for the lower limit: the first index from `from` whose mass is at least p, with every earlier one below p |
| RangeSearch.LastAtMost | source/core/dslim_query.cpp:986-1027 | the reference for the upper limit: the last index up to `upto` whose mass is at most p, with every later one above p |
| RangeSearch.FirstAtLeastIs | source/core/dslim_query.cpp:944-984 | any index that is the first qualifying one after `from` is FirstAtLeast |
| RangeSearch.LastAtMostIs | source/core/dslim_query.cpp:986-1027 | any index that is the last qualifying one before `upto` is LastAtMost |
| RangeSearch.WindowOf | source/core/dslim_query.cpp:935-938 | the specification of the search: either a range [lo, hi] holding exactly the in-window entries (both directions), or None exactly when no entry is in the window |
| RangeSearch.BinFindMin | source/core/dslim_query.cpp:944-984 | for sorted entries with entries[min] <= pmass1 <= entries[max], the result is the smallest index of [min, max] with mass >= pmass1, so ties at the lower bound are included; terminates on max - min |
| RangeSearch.BinFindMax | source/core/dslim_query.cpp:986-1027 | the largest index of [min, max] with mass <= pmass2, so ties at the upper bound are included |
| RangeSearch.LowerLimit | source/core/dslim_query.cpp:897-912 | p - dM below the first mass gives 0; above the last mass gives the last index and a miss; otherwise the first index >= p - dM |
| RangeSearch.UpperLimit | source/core/dslim_query.cpp:918-933 | p + dM above the last mass gives the last index; below the first mass gives 0 and a miss; otherwise the last index <= p + dM |
| RangeSearch.BinarySearch | source/core/dslim_query.cpp:877-941 | dM < 0 gives [0, n-1] and false; a window wholly above the masses gives [n-1, n-1] and false, one wholly below gives [0, 0] and false; the flag is the source's final test; the flag holds with minlimit <= maxlimit exactly when WindowOf finds the range, and then the range is WindowOf's |
| RangeSearch.BinFindMinAsWritten | source/core/dslim_query.cpp:944-984 | the code as written, array reads checked: the result is an index, or an out-of-bounds read at -1 or n |
| RangeSearch.BinFindMaxAsWritten | source/core/dslim_query.cpp:986-1027 | the code as written, array reads checked: the result is an index, or an out-of-bounds read at -1 or n |
| RangeSearch.LastIndexAsWritten | source/core/dslim_query.cpp:887 | `lcltotCnt - 1` in 32-bit unsigned arithmetic: count - 1 for a positive count, a wrapped value for 0 |
| RangeSearch.TieWalkDownReadsBeforeFirstEntry | source/core/dslim_query.cpp:973-975 | on 21 equal masses with pmass1 equal to them, BinFindMin as written reads entries[-1] |
| RangeSearch.TieWalkUpReadsPastLastEntry | source/core/dslim_query.cpp:1016-1019 | on 21 equal masses with pmass2 equal to them, BinFindMax as written reads entries[21] |
| RangeSearch.EmptyPartLastIndexWraps | source/core/dslim_query.cpp:887 | an empty part makes the last index 2^32 - 1 |
| RangeSearch.BinFindMinAsWrittenAgrees | source/core/dslim_query.cpp:944-984 | wherever the as-written minimum search stays in bounds it returns BinFindMin's index |
| RangeSearch.BinFindMaxAsWrittenAgrees | source/core/dslim_query.cpp:986-1027 | wherever the as-written maximum search stays in bounds it returns BinFindMax's index |
| FragmentIndex.Ceil | source/core/dslim_query.cpp:640 | the least whole number not below the floating bound maxmass * scale |
| FragmentIndex.UsableAgreesWithScaledMass | source/core/dslim_query.cpp:640 | the whole-number test `dF < q < maxBins - 1 - dF` is equivalent to the source's comparison against the floating bound (both directions) |
| FragmentIndex.UsableBinsInIndex | source/core/dslim_query.cpp:640-646 | every bin q - dF .. q + dF + 1 of a usable peak has an entry in bA |
| FragmentIndex.SelectedMembers | source/core/dslim_query.cpp:654-658 | the selected occurrences are exactly those whose peptide raw / speclen lies in [minlimit, maxlimit], both directions |
| FragmentIndex.SelectedConcat | source/core/dslim_query.cpp:642-658 | selection distributes over concatenated bin lists |
| FragmentIndex.DecodeRange | source/core/dslim_query.cpp:654-658 | the key window [minlimit * speclen, (maxlimit + 1) * speclen - 1] holds an occurrence exactly when its peptide is in [minlimit, maxlimit] |
| FragmentIndex.BlockIsSelected | source/core/dslim_query.cpp:654-658 | a sorted list split at the two key bounds selects exactly its middle block |
| FragmentIndex.LowerBound | source/core/dslim_query.cpp:654 | std::lower_bound: every position before the result is below the key, every one from it on is not |
| FragmentIndex.UpperBound | source/core/dslim_query.cpp:657 | std::upper_bound: every position before the result is at most the key, every one from it on is above |
| FragmentIndex.OccurrenceRange | source/core/dslim_query.cpp:654-658 | iA[stt..ends] is exactly the selected occurrences of the bin |
| RangedQuery.HitsOf | source/core/dslim_query.cpp:663-670 | each located occurrence decodes to peptide raw / speclen, a b-ion when raw % speclen < speclen / 2 |
| RangedQuery.TallyAbsent | source/core/dslim_query.cpp:663-680 | a peptide no hit names gets nothing added |
| RangedQuery.BumpIsUpdate | source/core/dslim_query.cpp:669-680 | a b-ion raises bc by 1 and ibc by the matched query peak's intensity, a y-ion raises yc by 1 and iyc by that intensity; no other entry changes |
| RangedQuery.ApplyIsTallyB | source/core/dslim_query.cpp:661-681 | entry p of the counts after the hits is its old value plus the tally of the hits naming p |
| RangedQuery.ApplyIsTallyI | source/core/dslim_query.cpp:661-681 | entry p of the intensities after the hits is its old value plus the tally of the hits naming p |
| RangedQuery.ApplyConcatB | source/core/dslim_query.cpp:661-681 | matching the hits a + b on the count card is matching a, then b |
| RangedQuery.ApplyConcatI | source/core/dslim_query.cpp:661-681 | matching the hits a + b on the intensity card is matching a, then b |
| RangedQuery.PeakHitsUsable | source/core/dslim_query.cpp:640-642 | a usable peak's hits are those of exactly the bins q - dF .. q + dF |
| RangedQuery.BinsHitsInWindow | source/core/dslim_query.cpp:642-658 | every hit of the scanned bins names a peptide of [minlimit, maxlimit] |
| RangedQuery.SpectrumHitsInWindow | source/core/dslim_query.cpp:633-683 | every hit of the whole spectrum names a peptide of [minlimit, maxlimit] |
| RangedQuery.FreshTallyB | source/core/dslim_query.cpp:633-683 | an all-zero card after window hits holds each window peptide's tally and is zero outside the window |
| RangedQuery.FreshTallyI | source/core/dslim_query.cpp:633-683 | the same for the intensity card |
| RangedQuery.CandidatesSpec | source/core/dslim_query.cpp:690-729 | the candidates are exactly the admitted entries of [minlimit, maxlimit] (shared peaks >= min_shp and positive score), one cell built from each, in ascending peptide order |
| RangedQuery.CandidatesReadOnlyWindow | source/core/dslim_query.cpp:690-694 | candidate extraction reads the scorecard only inside [minlimit, maxlimit] |
| RangedQuery.FreshCandidates | source/core/dslim_query.cpp:633-729 | candidates from a scorecard that started all-zero are those of the window hits' tallies |
| RangedQuery.ChunkCandidatesFound | source/core/dslim_query.cpp:624-729 | a chunk whose window is [lo, hi] contributes the candidates of its spectrum hits' tallies |
| RangedQuery.ChunkCandidatesNone | source/core/dslim_query.cpp:624-630 | a spectrum with no peptide in its precursor window contributes nothing |
| RangedQuery.SpectrumAt | source/core/dslim_query.cpp:591-594 | spectrum q has idx[q + 1] - idx[q] peaks and is well formed |
| RangedQuery.ReportsIds | source/core/dslim_query.cpp:784-826 | reports carry ids spectrumID .. spectrumID + n - 1 in ascending order, each with its spectrum's candidates and at least min_cpsm of them, and every spectrum with that many is reported |
| RangedQuery.Scorecard.AddOccurrence | source/core/dslim_query.cpp:663-680 | the scorecard becomes the old one bumped by the decoded occurrence |
| RangedQuery.Scorecard.MatchOccurrences | source/core/dslim_query.cpp:661-681 | the scorecard becomes the old one with the hits of iA[stt..ends] applied |
| RangedQuery.Scorecard.MatchBin | source/core/dslim_query.cpp:645-681 | the scorecard gains the hits of the bin's window-selected occurrences; an empty bin adds none |
| RangedQuery.Scorecard.MatchBins | source/core/dslim_query.cpp:642-682 | the scorecard gains the hits of the bins, in bin order |
| RangedQuery.Scorecard.MatchPeak | source/core/dslim_query.cpp:636-683 | the scorecard gains the peak's hits; an unusable peak changes nothing |
| RangedQuery.Scorecard.MatchSpectrum | source/core/dslim_query.cpp:633-684 | the scorecard gains the hits of every peak, in peak order |
| RangedQuery.Scorecard.ExtractCandidates | source/core/dslim_query.cpp:690-729 | topK grows by exactly the candidates and cpsms by their number; the scorecard is unchanged |
| RangedQuery.Scorecard.ClearRange | source/core/dslim_query.cpp:731-733 | entries minlimit .. maxlimit become zero, every other entry is unchanged |
| RangedQuery.Scorecard.QueryChunk | source/core/dslim_query.cpp:618-733 | an all-zero scorecard ends all-zero, and topK and cpsms grow by the chunk's candidates |
| RangedQuery.Scorecard.QueryPart | source/core/dslim_query.cpp:615-734 | every chunk in order; all-zero between chunks |
| RangedQuery.Scorecard.QuerySpectrum | source/core/dslim_query.cpp:610-832 | the psms are the candidates of every part, the report test is cpsms >= min_cpsm, and the results are reset |
| RangedQuery.Scorecard.QueryBatch | source/core/dslim_query.cpp:585-845 | reports are Reports of the batch's candidates and spectrumID advances by numSpecs |
| LegacyQuery.ChunkSizesTotal | cfirindex/src/dslim_query.cpp:173-174 | the chunks read (nChunks - 1) * chunksize + lastchunksize entries when there are several, nChunks * chunksize otherwise |
| LegacyQuery.OccurrencesLocal | cfirindex/src/dslim_query.cpp:142-151 | every occurrence matched in a chunk that names only its own peptides names a peptide below the chunk's size |
| LegacyQuery.SpectrumOccurrencesStep | cfirindex/src/dslim_query.cpp:135-146 | peak k adds the whole slice iA[bA[q - dF] .. bA[q + 1 + dF]] when usable, with no mass gating |
| LegacyQuery.CountAbsent | cfirindex/src/dslim_query.cpp:148-163 | a peptide no occurrence names gets nothing added |
| LegacyQuery.ApplyIs | cfirindex/src/dslim_query.cpp:148-163 | entry p after the occurrences: each one-byte counter is its old value plus the number of its matching b- or y-ions modulo 256, each intensity its old value plus their intensities |
| LegacyQuery.ApplyConcat | cfirindex/src/dslim_query.cpp:135-166 | applying the occurrences a + b is applying a, then b |
| LegacyQuery.FreshCards | cfirindex/src/dslim_query.cpp:135-166 | a zero scorecard after a chunk's occurrences holds the tallies below the chunk size and is zero from there on |
| LegacyQuery.ClearedIs | cfirindex/src/dslim_query.cpp:192-196 | a scorecard zero below n and unchanged from n on is the Cleared one |
| LegacyQuery.ClearedAllZero | cfirindex/src/dslim_query.cpp:192-196 | clearing [0, csize) of a card zero from csize on leaves it all zero |
| LegacyQuery.BestOfSpec | cfirindex/src/dslim_query.cpp:170-190 | maxhv bounds every admitted score (bc + yc > min_shp, strict); idaa is -1 and maxhv 0 exactly when no admitted score exceeds 0; otherwise the winner is admitted, scores maxhv, and every earlier admitted entry scores strictly less (the first maximum wins) |
| LegacyQuery.BestAgree | cfirindex/src/dslim_query.cpp:176-190 | the scan reads only entries below csize |
| LegacyQuery.ChunkPickFresh | cfirindex/src/dslim_query.cpp:135-190 | matching a chunk on an all-zero card leaves the chunk's pick below ChunkSize and zero from there on |
| LegacyQuery.SpectrumReportsShape | cfirindex/src/dslim_query.cpp:124-205 | a spectrum gets exactly one report per chunk of the index, each carrying its query number |
| LegacyQuery.ChunkReportPosition | cfirindex/src/dslim_query.cpp:124-205 | the report of chunk chno of part ixx comes after those of every earlier chunk and is that chunk's pick |
| LegacyQuery.LegacySpectrumAt | cfirindex/src/dslim_query.cpp:109-111 | spectrum q has idx[q + 1] - idx[q] peaks and is well formed |
| LegacyQuery.BatchPrefixLength | cfirindex/src/dslim_query.cpp:103-206 | the first k spectra print k * ChunkCount reports |
| LegacyQuery.BatchReportAt | cfirindex/src/dslim_query.cpp:103-206 | report q * ChunkCount + i of the batch is report i of query q |
| LegacyQuery.RangedIsGatedSlice | cfirindex/src/dslim_query.cpp:142-146 | the ranged scan of bins lo .. hi - 1 is the legacy slice iA[bA[lo] .. bA[hi]] after precursor-window selection |
| LegacyQuery.RangedPeakIsGatedLegacy | cfirindex/src/dslim_query.cpp:139-163 | per peak, the ranged hits are the legacy slice gated by the precursor window: equal for a usable peak, both empty otherwise |
| LegacyQuery.RangedPeakIsWholeSlice | cfirindex/src/dslim_query.cpp:139-163 | with a precursor window holding every peptide of the legacy slice, the ranged hits are the whole decoded legacy slice |
| LegacyQuery.LegacyScorecard.AddOccurrence | cfirindex/src/dslim_query.cpp:148-163 | the scorecard becomes the old one bumped by the occurrence |
| LegacyQuery.LegacyScorecard.MatchPeak | cfirindex/src/dslim_query.cpp:139-165 | the scorecard gains the whole slice of a usable peak, with the peak's intensity |
| LegacyQuery.LegacyScorecard.MatchSpectrum | cfirindex/src/dslim_query.cpp:135-166 | the scorecard gains the occurrences of every peak in order |
| LegacyQuery.LegacyScorecard.ScanChunk | cfirindex/src/dslim_query.cpp:170-197 | idaa and maxhv are those of BestOf on the contents before the scan, and entries below csize are zeroed, the rest unchanged |
| LegacyQuery.LegacyScorecard.QueryChunk | cfirindex/src/dslim_query.cpp:131-204 | an all-zero scorecard ends all-zero, especid is the query, and the report is the chunk's pick |
| LegacyQuery.LegacyScorecard.QuerySpectrum | cfirindex/src/dslim_query.cpp:124-206 | the reports are SpectrumReports, and the scorecard ends all-zero |
| LegacyQuery.LegacyScorecard.QueryBatch | cfirindex/src/dslim_query.cpp:103-211 | the reports are BatchReports, and the scorecard ends all-zero |
| QueryDriver.QueryThreads | source/core/dslim_query.cpp:521 | the thread count is at least 1, at least threads * 3 / 4 and at least threads - active, and it is one of the two bounds (lines 566-568 apply the floor) |
| QueryDriver.SumMono | source/core/dslim_query.cpp:184-192 | batch-count prefix sums never decrease |
| QueryDriver.FileOfBatch | source/core/dslim_query.cpp:184-192 | every batch number below the total belongs to a file whose batches start at or before it and end after it |
| QueryDriver.FileBatchesDisjoint | source/core/dslim_query.cpp:184-192 | an earlier file's batches end before a later file's start |
| QueryDriver.InitializeBatches | source/core/dslim_query.cpp:179-192 | file fid's first batch is curr_chunk[0] plus the chunk counts of the earlier files, nBatches is where the last file's batches end, and dssize gains every file's spectrum count |
| Params.SanitizeRes | source/apps/argp/argp.hpp:74-79 | the result lies in (0, 5]; values already there are kept; non-positive gives 0.01, above 5 gives 5 |
| Params.SanitizeNmods | source/apps/argp/argp.hpp:82-87 | the result lies in [1, 7]; values already there are kept |
| Params.SanitizeDM | source/apps/argp/argp.hpp:90-94 | the result is never negative; a non-negative size is kept and a negative one becomes MBYTES(1) |
| Params.RemoveSpacesSpec | source/apps/argp/argp.hpp:336 | removing whitespace leaves none and keeps every other character as often as it occurred |
| Params.NormalizeSpec | source/apps/argp/argp.hpp:336-339 | after normalisation no colon is left and every whitespace character is a space that replaced a colon |
| Params.EraseSpaces | source/apps/argp/argp.hpp:336 | in place: the buffer's first len characters are the input without its whitespace |
| Params.ReplaceColonsInPlace | source/apps/argp/argp.hpp:339 | in place: every colon among the first len characters becomes a space, nothing else changes |
| Params.WordSpec | source/apps/argp/argp.hpp:346 | a word is a whitespace-free prefix ending at whitespace or at the end |
| Params.FieldsOfWords | source/apps/argp/argp.hpp:342-362 | the three extractions read the first three words; with fewer words a failed extraction keeps the previous one, so a missing NUM repeats the mass and a missing mass repeats the residues |
| Params.WordsSnoc | source/apps/argp/argp.hpp:349-365 | appending a space and a non-empty word adds exactly that word at the end |
| Params.ModStringFields | source/apps/argp/argp.hpp:336-362 | a well-formed AA:MASS:NUM string reads as exactly the three words AA, MASS, NUM |
| Params.ParsedWellFormed | source/apps/argp/argp.hpp:330-368 | modifications all written as AA:MASS:NUM are parsed into exactly the fields they were written from |
| Params.AtoIToString | source/apps/argp/argp.hpp:327 | reading back what std::to_string wrote with std::atoi gives the number |
| Params.ToStringIsWord | source/apps/argp/argp.hpp:327 | the decimal form of a number is one non-empty word |
| Params.CopyResidues | source/apps/argp/argp.hpp:352-353 | only the first min(4, length) characters of the residue word are copied, the rest of the field is unchanged |
| Params.ModConditionsWords | source/apps/argp/argp.hpp:326-365 | read back word by word, modconditions is vmods_per_pep followed by each modification's residues and count, in input order |
| Params.ReadMod | source/apps/argp/argp.hpp:333-368 | one modification: modconditions gains " residues count" and table entry md gets the copied residues and the atoi of the count; other entries are unchanged |
| Params.ParseMods | source/apps/argp/argp.hpp:316-376 | vmods_per_pep is nmods clamped to [1, 7]; with modifications, num_vars is their number, modconditions is ModConditions and each entry is parsed from its string; without them, num_vars is 0, modconditions is "0" and the table is untouched |

## Left out

- Threads, OpenMP, MPI and the distributed-memory paths are not modelled: the scheduler, the I/O threads and their queues, `DSLIM_CarryForward` and the transmit arrays. One spectrum is modelled at a time on one thread's private scorecard.
- The round-robin buffer index `ciBuff % NIBUFFS` (source/core/dslim_query.cpp:529-530) is not modelled: it exists only in the distributed-memory path, and NIBUFFS is defined in a header that is not part of this model.
- Floating point is not modelled. Precursor masses, the resolution and the legacy intensities are reals. The hyperscore (factorials, `log10`, `log`) is a function parameter. The TailFit and survival-function e-values and the survival histogram index are left out, and so is the `e_x < expect_max` printing test.
- The top-K heap (`hCell` insert, `getMax`) is modelled as the sequence of inserted cells. `DFile_PrintScore`, `HYPERSCORE_Calculate` and `HS_InitFile` are output calls: the model returns what would be printed (reports).
- `DSLIM_GenerateIndex` is in a file that is not part of this model. It is a function parameter of the legacy matcher.
- Integer widths:
  - the ranged matcher's BYC/iBYC counters and the USHORT shared-peak sum are unbounded;
  - nBatches, dssize and `threads * 3` do not overflow in the model;
  - the legacy UCHAR counters do wrap at 256, explicitly;
  - the encoded occurrences `peptide * speclen + ion` in `iA`, the decoded `raw` and the two search keys are unbounded, while the source keeps them in 32-bit UINTs. This is faithful while a part's peptide count times speclen is at most 2^32 (see the two lines below).
- FragmentIndex.DecodeRange: the keys `minlimit * speclen` and `(maxlimit + 1) * speclen - 1` (source/core/dslim_query.cpp:654, 657) are exact integers. In the source they are UINT products, so for a part with more than 2^32 / speclen peptides they wrap and `lower_bound`/`upper_bound` select the wrong block. That case is not modelled.
- FragmentIndex.OccurrenceRange: the entries of `iA` and `raw` (source/core/dslim_query.cpp:663) are unbounded naturals, not UINT. The same 2^32 bound on peptide count times speclen applies.
- FragmentIndex.UsableAgreesWithScaledMass: the floating bound `maxmass * scale` is taken as an exact real, so float rounding at the bound is not modelled.
- LegacyQuery.LegacyPartOk requires that a chunk's occurrences name only peptides below that chunk's size. The source relies on the index builder for this, and it is not checked there.
- Params.SanitizeDM: MBYTES is defined in a header that is not part of this model, so one megabyte is a parameter.
- Params.ParseMods:
  - the modification mass (`atof` times `scale`) is not modelled;
  - `std::atoi` is modelled without the undefined behaviour of out-of-range values;
  - the table entry's residues are a string of unconstrained length, not a fixed character array.
- Params.ParseMods: the model requires the modification table to hold every modification string. The source sets `num_vars = modslist.size()` and writes `vmods[md]` for every `md` without comparing against the table's capacity (source/apps/argp/argp.hpp:326-330, 352-368). More modifications than the table holds is an out-of-bounds write there, and the model does not cover it.
- Params.CopyResidues: strings are sequences of Dafny (Unicode) characters. `std::string`, `::isspace` and `strncpy(..., min(4, length))` work on bytes (source/apps/argp/argp.hpp:336, 352-353). So a residue word with non-ASCII characters is cut after 4 characters here but after 4 bytes in the source. Whitespace is the six ASCII characters that `isspace` accepts in the C locale.
- QueryDriver.InitializeBatches takes the first file's `curr_chunk` as an input. `InitQueryFile` sets it, and `InitQueryFile` is file I/O.
- The `Score == NULL` memory check of the legacy matcher and the deallocation routines are not modelled. They concern memory management only.
- Argument parsing (`argparse`), path, time and directory helpers and all printing are I/O.

## Findings

| source | as written | input that shows it | evidently intended | confidence | as-written member | corrected member |
|---|---|---|---|---|---|---|
| source/core/dslim_query.cpp:973-975 | the tie walk `while (pmass1 == entries[half].Mass) half--;` has no lower bound | 21 entries of equal mass m and pmass1 = m: the walk reads entries[-1] (RangeSearch.TieWalkDownReadsBeforeFirstEntry) | stop the walk at min, so the result is the first index >= pmass1 | not executed | RangeSearch.BinFindMinAsWritten | RangeSearch.BinFindMin |
| source/core/dslim_query.cpp:1016-1019 | the tie walk `while (pmass2 == entries[half].Mass) half++;` has no upper bound | 21 entries of equal mass m and pmass2 = m: the walk reads entries[21], past the last entry (RangeSearch.TieWalkUpReadsPastLastEntry) | stop the walk at max, so the result is the last index <= pmass2 | not executed | RangeSearch.BinFindMaxAsWritten | RangeSearch.BinFindMax |
| source/core/dslim_query.cpp:887 | `UINT max = index->lcltotCnt - 1;` wraps for an empty part, and entries[max] is then read | lcltotCnt = 0 gives max = 2^32 - 1 (RangeSearch.EmptyPartLastIndexWraps) | an empty part is reported as not found | not executed | RangeSearch.LastIndexAsWritten | RangeSearch.BinarySearch |
