/**
 * Command-line parameter handling: the clamps applied to the fragment-mass
 * resolution, to the modifications allowed per peptide and to the scratch
 * buffer size, and the parsing of the variable-modification strings
 * "AA:MASS:NUM" into the modification table and the modconditions string
 * that describes the modification setting.
 */
module Params {

  import opened Common

  // ---------------------------------------------------------------------
  // Range clamps
  // ---------------------------------------------------------------------

  /**
   * sanitize_res: the resolution ends up in (0, 5]; a value already there
   * is kept, a non-positive one becomes 0.01 and a larger one becomes 5.
   */
  function SanitizeRes(res: real): (r: real)
    ensures 0.0 < r <= 5.0
    ensures 0.0 < res <= 5.0 ==> r == res
    ensures res <= 0.0 ==> r == 0.01
    ensures res > 5.0 ==> r == 5.0
  {
    if res <= 0.0 then 0.01 else if res > 5.0 then 5.0 else res
  }

  /**
   * sanitize_nmods: the modifications per peptide end up in [1, 7]; a value
   * already there is kept, a smaller one becomes 1 and a larger one 7.
   */
  function SanitizeNmods(nmods: int): (r: int)
    ensures 1 <= r <= 7
    ensures 1 <= nmods <= 7 ==> r == nmods
    ensures nmods <= 0 ==> r == 1
    ensures nmods > 7 ==> r == 7
  {
    if nmods <= 0 then 1 else if nmods > 7 then 7 else nmods
  }

  /**
   * sanitize_dM: a negative size becomes one megabyte (oneMB stands for
   * MBYTES(1)); a non-negative one is kept, so the result is never negative.
   */
  function SanitizeDM(dM: real, oneMB: nat): (r: real)
    ensures r >= 0.0
    ensures dM >= 0.0 ==> r == dM
    ensures dM < 0.0 ==> r == oneMB as real
  {
    if dM < 0.0 then oneMB as real else dM
  }

  // ---------------------------------------------------------------------
  // Characters and in-place normalisation of a modification string
  // ---------------------------------------------------------------------

  /** isspace in the C locale. */
  predicate IsSpace(c: char)
  {
    c == ' ' || c == '\t' || c == '\n' || c == '\r' || c == '\U{000B}' || c == '\U{000C}'
  }

  predicate SpaceFree(s: string)
  {
    forall i :: 0 <= i < |s| ==> !IsSpace(s[i])
  }

  predicate ColonFree(s: string)
  {
    forall i :: 0 <= i < |s| ==> s[i] != ':'
  }

  /** The characters of s that are not whitespace, in their order. */
  function RemoveSpaces(s: string): string
  {
    if s == [] then []
    else
      var front := RemoveSpaces(s[..|s| - 1]);
      if IsSpace(s[|s| - 1]) then front else front + [s[|s| - 1]]
  }

  lemma RemoveSpacesStep(s: string, i: nat, next: nat)
    requires next == i + 1 && next <= |s|
    ensures RemoveSpaces(s[..next]) == if IsSpace(s[i]) then RemoveSpaces(s[..i]) else RemoveSpaces(s[..i]) + [s[i]]
  {
    assert s[..next][..i] == s[..i];
  }

  /**
   * Removing whitespace leaves no whitespace and keeps every other
   * character as often as it occurred.
   */
  lemma {:induction false} RemoveSpacesSpec(s: string)
    ensures SpaceFree(RemoveSpaces(s))
    ensures forall c :: !IsSpace(c) ==> multiset(RemoveSpaces(s))[c] == multiset(s)[c]
    ensures forall c :: IsSpace(c) ==> multiset(RemoveSpaces(s))[c] == 0
  {
    if s != [] {
      var last := |s| - 1;
      var front := s[..last];
      RemoveSpacesSpec(front);
      assert s == front + [s[last]];
    }
  }

  /** A string with no whitespace is left as it is. */
  lemma {:induction false} RemoveSpacesOfFree(s: string)
    requires SpaceFree(s)
    ensures RemoveSpaces(s) == s
  {
    if s != [] {
      var last := |s| - 1;
      RemoveSpacesOfFree(s[..last]);
      assert s == s[..last] + [s[last]];
    }
  }

  function Blank(c: char): char
  {
    if c == ':' then ' ' else c
  }

  /** std::replace(':', ' '): every colon becomes a space. */
  function ReplaceColons(s: string): string
  {
    seq(|s|, i requires 0 <= i < |s| => Blank(s[i]))
  }

  /** The string the tokenizer reads: whitespace removed, then colons replaced. */
  function Normalize(mod: string): string
  {
    ReplaceColons(RemoveSpaces(mod))
  }

  /** Normalisation leaves neither colons nor whitespace other than the spaces that replaced colons. */
  lemma NormalizeSpec(mod: string)
    ensures ColonFree(Normalize(mod))
    ensures forall i :: 0 <= i < |Normalize(mod)| && IsSpace(Normalize(mod)[i]) ==> Normalize(mod)[i] == ' ' && RemoveSpaces(mod)[i] == ':'
  {
    RemoveSpacesSpec(mod);
    var r := RemoveSpaces(mod);
    forall i | 0 <= i < |r| && IsSpace(Normalize(mod)[i])
      ensures Normalize(mod)[i] == ' ' && r[i] == ':'
    {
      assert !IsSpace(r[i]);
    }
  }

  /**
   * mod.erase(remove_if(begin, end, isspace), end): moves the characters
   * that are not whitespace to the front of the buffer, in order, and
   * returns the length that remains after the erase.
   */
  method EraseSpaces(a: array<char>) returns (len: nat)
    modifies a
    ensures len <= a.Length
    ensures a[..len] == RemoveSpaces(old(a[..]))
  {
    ghost var s := a[..];
    var w := 0;
    var i := 0;
    while i < a.Length
      invariant w <= i <= a.Length
      invariant a[..w] == RemoveSpaces(s[..i])
      invariant forall j :: i <= j < a.Length ==> a[j] == s[j]
    {
      var c := a[i];
      var next := i + 1;
      RemoveSpacesStep(s, i, next);
      if !IsSpace(c) {
        a[w] := c;
        assert a[..w + 1] == RemoveSpaces(s[..i]) + [c];
        w := w + 1;
      }
      i := next;
    }
    assert s[..a.Length] == s;
    len := w;
  }

  /** std::replace on the first len characters: every colon becomes a space. */
  method ReplaceColonsInPlace(a: array<char>, len: nat)
    requires len <= a.Length
    modifies a
    ensures a[..len] == ReplaceColons(old(a[..len]))
    ensures a[len..] == old(a[len..])
  {
    ghost var s := a[..];
    var i := 0;
    while i < len
      invariant i <= len
      invariant forall j :: 0 <= j < i ==> a[j] == Blank(s[j])
      invariant forall j :: i <= j < a.Length ==> a[j] == s[j]
    {
      if a[i] == ':' {
        a[i] := ' ';
      }
      i := i + 1;
    }
  }

  lemma ReplaceColonsConcat(x: string, y: string)
    ensures ReplaceColons(x + y) == ReplaceColons(x) + ReplaceColons(y)
  {
    var l := ReplaceColons(x + y);
    var r := ReplaceColons(x) + ReplaceColons(y);
    assert |l| == |r|;
    forall i | 0 <= i < |l|
      ensures l[i] == r[i]
    {
      if i < |x| {
        assert (x + y)[i] == x[i];
      } else {
        assert (x + y)[i] == y[i - |x|];
      }
    }
  }

  lemma ReplaceColonsOfFree(x: string)
    requires ColonFree(x)
    ensures ReplaceColons(x) == x
  {
  }

  // ---------------------------------------------------------------------
  // The string stream
  // ---------------------------------------------------------------------

  /** The input after its leading whitespace. */
  function SkipSpaces(s: string): (t: string)
    ensures |t| <= |s|
    ensures t != [] ==> !IsSpace(t[0])
  {
    if s != [] && IsSpace(s[0]) then SkipSpaces(s[1..]) else s
  }

  /** The longest prefix of s that holds no whitespace. */
  function Word(s: string): (w: string)
    ensures |w| <= |s|
    ensures s != [] && !IsSpace(s[0]) ==> |w| >= 1
  {
    if s == [] || IsSpace(s[0]) then [] else [s[0]] + Word(s[1..])
  }

  /** The word is a prefix free of whitespace that ends at whitespace or at the end. */
  lemma {:induction false} WordSpec(s: string)
    ensures Word(s) == s[..|Word(s)|] && SpaceFree(Word(s))
    ensures |Word(s)| < |s| ==> IsSpace(s[|Word(s)|])
  {
    if s != [] && !IsSpace(s[0]) {
      WordSpec(s[1..]);
    }
  }

  lemma {:induction false} WordOfFree(w: string)
    requires SpaceFree(w)
    ensures Word(w) == w
  {
    if w != [] {
      WordOfFree(w[1..]);
    }
  }

  /** The whitespace-separated words of s, in order. */
  function Words(s: string): seq<string>
    decreases |s|
  {
    var t := SkipSpaces(s);
    if t == [] then []
    else
      var w := Word(t);
      [w] + Words(t[|w|..])
  }

  /** What is left to read, and whether no extraction has failed yet. */
  datatype Stream = Stream(rest: string, good: bool)

  /**
   * stream >> element: skips whitespace and reads the next word into
   * element. When no word is left, or an earlier extraction failed, the
   * stream is failed and element keeps the value it had.
   */
  function Extract(st: Stream, element: string): (Stream, string)
  {
    if !st.good then (st, element)
    else
      var t := SkipSpaces(st.rest);
      if t == [] then (Stream([], false), element)
      else
        var w := Word(t);
        (Stream(t[|w|..], true), w)
  }

  /** A healthy extraction reads the first word and leaves the others. */
  lemma ExtractReadsWord(s: string, element: string)
    ensures Words(s) == [] ==> !Extract(Stream(s, true), element).0.good && Extract(Stream(s, true), element).1 == element
    ensures Words(s) != [] ==> Extract(Stream(s, true), element).0.good && Extract(Stream(s, true), element).1 == Words(s)[0]
    ensures Words(s) != [] ==> Words(Extract(Stream(s, true), element).0.rest) == Words(s)[1..]
  {
  }

  /** The three fields a modification string is read into. */
  datatype ModFields = ModFields(aa: string, mass: string, num: string)

  /** Three extractions from a fresh stream over the normalised string. */
  function FieldsOf(normalized: string): ModFields
  {
    var (s1, aa) := Extract(Stream(normalized, true), "");
    var (s2, mass) := Extract(s1, aa);
    var (_, num) := Extract(s2, mass);
    ModFields(aa, mass, num)
  }

  /**
   * The fields are the first three words; when fewer words are present a
   * failed extraction keeps the previous word, so a missing NUM repeats
   * the mass and a missing mass repeats the residues.
   */
  lemma {:induction false} FieldsOfWords(s: string)
    ensures |Words(s)| >= 3 ==> FieldsOf(s) == ModFields(Words(s)[0], Words(s)[1], Words(s)[2])
    ensures |Words(s)| == 2 ==> FieldsOf(s) == ModFields(Words(s)[0], Words(s)[1], Words(s)[1])
    ensures |Words(s)| == 1 ==> FieldsOf(s) == ModFields(Words(s)[0], Words(s)[0], Words(s)[0])
    ensures |Words(s)| == 0 ==> FieldsOf(s) == ModFields("", "", "")
  {
    var (s1, aa) := Extract(Stream(s, true), "");
    ExtractReadsWord(s, "");
    if s1.good {
      var (s2, mass) := Extract(s1, aa);
      ExtractReadsWord(s1.rest, aa);
      if s2.good {
        ExtractReadsWord(s2.rest, mass);
      }
    }
  }

  /** A word followed by whitespace or by nothing is read whole. */
  lemma {:induction false} WordConcat(t: string, y: string)
    requires y == [] || IsSpace(y[0])
    ensures Word(t + y) == Word(t)
  {
    if t == [] {
      assert t + y == y;
    } else if !IsSpace(t[0]) {
      assert (t + y)[1..] == t[1..] + y;
      WordConcat(t[1..], y);
    }
  }

  lemma {:induction false} SkipSpacesConcat(x: string, y: string)
    ensures SkipSpaces(x) == [] ==> SkipSpaces(x + y) == SkipSpaces(y)
    ensures SkipSpaces(x) != [] ==> SkipSpaces(x + y) == SkipSpaces(x) + y
  {
    if x == [] {
      assert x + y == y;
    } else {
      assert (x + y)[0] == x[0];
      if IsSpace(x[0]) {
        assert (x + y)[1..] == x[1..] + y;
        SkipSpacesConcat(x[1..], y);
      }
    }
  }

  /** A non-empty word with nothing after it, or whitespace after it, is the first word. */
  lemma WordsCons(w: string, rest: string)
    requires w != [] && SpaceFree(w)
    requires rest == [] || IsSpace(rest[0])
    ensures Words(w + rest) == [w] + Words(rest)
  {
    assert (w + rest)[0] == w[0];
    assert SkipSpaces(w + rest) == w + rest;
    WordConcat(w, rest);
    WordOfFree(w);
    assert (w + rest)[|w|..] == rest;
  }

  lemma DropConcat(a: string, b: string, k: nat)
    requires k <= |a|
    ensures (a + b)[k..] == a[k..] + b
  {
  }

  /** After nothing but whitespace, a space and a word give that one word. */
  lemma WordsAfterBlank(x: string, w: string)
    requires w != [] && SpaceFree(w) && SkipSpaces(x) == []
    ensures Words(x + " " + w) == [w]
  {
    var y := " " + w;
    assert x + " " + w == x + y;
    SkipSpacesConcat(x, y);
    assert y[1..] == w;
    assert SkipSpaces(x + y) == w;
    WordOfFree(w);
    assert w[|w|..] == [];
  }

  /** Appending a space and a non-empty word adds that word at the end. */
  lemma {:induction false} WordsSnoc(x: string, w: string)
    requires w != [] && SpaceFree(w)
    ensures Words(x + " " + w) == Words(x) + [w]
    decreases |x|
  {
    var t := SkipSpaces(x);
    if t == [] {
      WordsAfterBlank(x, w);
    } else {
      var y := " " + w;
      var u := Word(t);
      var rest := t[|u|..];
      WordsSnoc(rest, w);
      assert rest + " " + w == rest + y;
      WordsSnocStep(x, y, w, t, u, rest);
      assert x + " " + w == x + y;
    }
  }

  lemma WordsSnocStep(x: string, y: string, w: string, t: string, u: string, rest: string)
    requires y == " " + w && t == SkipSpaces(x) && t != [] && u == Word(t) && rest == t[|u|..]
    requires Words(rest + y) == Words(rest) + [w]
    ensures Words(x + y) == Words(x) + [w]
  {
    SkipSpacesConcat(x, y);
    WordConcat(t, y);
    DropConcat(t, y, |u|);
    WordsUnfold(x, t, u, rest);
    WordsUnfold(x + y, t + y, u, rest + y);
    AppendAssoc([u], Words(rest), [w]);
  }

  lemma WordsUnfold(s: string, t: string, u: string, r: string)
    requires t == SkipSpaces(s) && t != [] && u == Word(t) && r == t[|u|..]
    ensures Words(s) == [u] + Words(r)
  {
  }

  // ---------------------------------------------------------------------
  // Decimal conversions
  // ---------------------------------------------------------------------

  predicate IsDigit(c: char)
  {
    '0' <= c <= '9'
  }

  function DigitChar(d: nat): (c: char)
    requires d < 10
    ensures IsDigit(c)
  {
    (('0' as int) + d) as char
  }

  function DigitValue(c: char): nat
    requires IsDigit(c)
  {
    (c as int) - ('0' as int)
  }

  /** The decimal digits of n, most significant first, without leading zeros. */
  function NatString(n: nat): (s: string)
    ensures |s| >= 1 && IsDigit(s[0])
  {
    if n < 10 then [DigitChar(n)] else NatString(n / 10) + [DigitChar(n % 10)]
  }

  /** std::to_string on an integer: an optional minus sign, then the decimal digits. */
  function ToString(n: int): string
  {
    if n < 0 then "-" + NatString(-n) else NatString(n)
  }

  /** The longest prefix of s made of decimal digits. */
  function Digits(s: string): (ds: string)
    ensures forall i :: 0 <= i < |ds| ==> IsDigit(ds[i])
  {
    if s == [] || !IsDigit(s[0]) then [] else [s[0]] + Digits(s[1..])
  }

  /** The value of a string of decimal digits ("" is 0). */
  function ValueOfDigits(ds: string): nat
    requires forall i :: 0 <= i < |ds| ==> IsDigit(ds[i])
  {
    if ds == [] then 0 else ValueOfDigits(ds[..|ds| - 1]) * 10 + DigitValue(ds[|ds| - 1])
  }

  /**
   * std::atoi: leading whitespace is skipped, an optional sign is read,
   * then the decimal digits up to the first other character; no digits
   * gives 0.
   */
  function AtoI(s: string): int
  {
    var t := SkipSpaces(s);
    if t != [] && (t[0] == '-' || t[0] == '+') then
      var v: int := ValueOfDigits(Digits(t[1..]));
      if t[0] == '-' then -v else v
    else
      ValueOfDigits(Digits(t))
  }

  lemma {:induction false} DigitsOfNatString(n: nat)
    ensures Digits(NatString(n)) == NatString(n)
    ensures ValueOfDigits(NatString(n)) == n
  {
    if n >= 10 {
      DigitsOfNatString(n / 10);
      var s := NatString(n);
      var front := NatString(n / 10);
      assert s == front + [DigitChar(n % 10)];
      assert s[..|s| - 1] == front;
      DigitsOfDigitString(s);
    }
  }

  lemma {:induction false} DigitsOfDigitString(s: string)
    requires forall i :: 0 <= i < |s| ==> IsDigit(s[i])
    ensures Digits(s) == s
  {
    if s != [] {
      DigitsOfDigitString(s[1..]);
      assert s == [s[0]] + s[1..];
    }
  }

  /** Reading back what std::to_string wrote gives the number written. */
  lemma AtoIToString(n: int)
    ensures AtoI(ToString(n)) == n
  {
    var s := ToString(n);
    if n < 0 {
      var m := -n;
      DigitsOfNatString(m);
      assert s == "-" + NatString(m);
      assert SkipSpaces(s) == s;
      assert s[1..] == NatString(m);
    } else {
      DigitsOfNatString(n);
      assert SkipSpaces(s) == s;
    }
  }

  /** The decimal form of a number is one non-empty word. */
  lemma ToStringIsWord(n: int)
    ensures ToString(n) != [] && SpaceFree(ToString(n))
  {
    DigitsOfNatString(if n < 0 then -n else n);
    var s := NatString(if n < 0 then -n else n);
    forall i | 0 <= i < |s|
      ensures !IsSpace(s[i])
    {
      assert IsDigit(Digits(s)[i]);
    }
  }

  // ---------------------------------------------------------------------
  // The modification table and the modconditions string
  // ---------------------------------------------------------------------

  /** One entry of the modification table (the modification mass is not modelled). */
  datatype VMod = VMod(residues: string, aaPerPeptide: int)

  /**
   * strncpy(residues, aa, min(4, |aa|)): the first min(4, |aa|) characters
   * become those of aa; the characters after them stay as they were.
   */
  function CopyResidues(dst: string, aa: string): (r: string)
    ensures |r| == Max(|dst|, Min(4, |aa|))
    ensures forall i :: 0 <= i < Min(4, |aa|) ==> r[i] == aa[i]
    ensures forall i :: Min(4, |aa|) <= i < |dst| ==> r[i] == dst[i]
  {
    var n := Min(4, |aa|);
    aa[..n] + (if |dst| > n then dst[n..] else [])
  }

  /** The table entry after parsing one modification into an entry that held e. */
  function ModEntry(e: VMod, f: ModFields): VMod
  {
    VMod(CopyResidues(e.residues, f.aa), AtoI(f.num))
  }

  /** The fields read from each modification string. */
  function ParsedFields(mods: seq<string>): (fs: seq<ModFields>)
    ensures |fs| == |mods|
  {
    seq(|mods|, i requires 0 <= i < |mods| => FieldsOf(Normalize(mods[i])))
  }

  /** vmods_per_pep, then " residues count" for every modification in order. */
  function ModConditions(vmodsPerPep: int, fs: seq<ModFields>): string
  {
    if fs == [] then ToString(vmodsPerPep)
    else
      var last := fs[|fs| - 1];
      ModConditions(vmodsPerPep, fs[..|fs| - 1]) + " " + last.aa + " " + last.num
  }

  lemma ModConditionsStep(vmodsPerPep: int, fs: seq<ModFields>, k: nat, next: nat)
    requires next == k + 1 && next <= |fs|
    ensures ModConditions(vmodsPerPep, fs[..next]) == ModConditions(vmodsPerPep, fs[..k]) + " " + fs[k].aa + " " + fs[k].num
  {
    assert fs[..next][..k] == fs[..k];
  }

  /** The residues and count of every modification, in order. */
  function FieldWords(fs: seq<ModFields>): seq<string>
  {
    if fs == [] then [] else FieldWords(fs[..|fs| - 1]) + [fs[|fs| - 1].aa, fs[|fs| - 1].num]
  }

  predicate FieldsAreWords(fs: seq<ModFields>)
  {
    forall i :: 0 <= i < |fs| ==> fs[i].aa != [] && SpaceFree(fs[i].aa) && fs[i].num != [] && SpaceFree(fs[i].num)
  }

  /**
   * Read back word by word, the modconditions string is vmods_per_pep
   * followed by each modification's residues and count.
   */
  lemma {:induction false} ModConditionsWords(vmodsPerPep: int, fs: seq<ModFields>)
    requires FieldsAreWords(fs)
    ensures Words(ModConditions(vmodsPerPep, fs)) == [ToString(vmodsPerPep)] + FieldWords(fs)
  {
    if fs == [] {
      ToStringIsWord(vmodsPerPep);
      WordsCons(ToString(vmodsPerPep), []);
      assert ToString(vmodsPerPep) + [] == ToString(vmodsPerPep);
    } else {
      var front := fs[..|fs| - 1];
      var last := fs[|fs| - 1];
      assert FieldsAreWords(front);
      ModConditionsWords(vmodsPerPep, front);
      var x := ModConditions(vmodsPerPep, front);
      WordsSnoc(x, last.aa);
      WordsSnoc(x + " " + last.aa, last.num);
    }
  }

  /** Every word of a string is non-empty and holds no whitespace. */
  lemma {:induction false} WordsAreWords(s: string)
    ensures forall i :: 0 <= i < |Words(s)| ==> Words(s)[i] != [] && SpaceFree(Words(s)[i])
    decreases |s|
  {
    var t := SkipSpaces(s);
    if t != [] {
      var w := Word(t);
      WordSpec(t);
      WordsAreWords(t[|w|..]);
      assert Words(s) == [w] + Words(t[|w|..]);
    }
  }

  /** The modification written in the documented form AA:MASS:NUM. */
  function ModString(f: ModFields): string
  {
    f.aa + ":" + f.mass + ":" + f.num
  }

  predicate WellFormed(f: ModFields)
  {
    f.aa != [] && f.mass != [] && f.num != []
    && SpaceFree(f.aa) && SpaceFree(f.mass) && SpaceFree(f.num)
    && ColonFree(f.aa) && ColonFree(f.mass) && ColonFree(f.num)
  }

  lemma ModStringSpaceFree(f: ModFields)
    requires WellFormed(f)
    ensures SpaceFree(ModString(f))
  {
    var s := ModString(f);
    forall i | 0 <= i < |s|
      ensures !IsSpace(s[i])
    {
      if i < |f.aa| {
        assert s[i] == f.aa[i];
      } else if i == |f.aa| || i == |f.aa| + 1 + |f.mass| {
        assert s[i] == ':';
      } else if i < |f.aa| + 1 + |f.mass| {
        assert s[i] == f.mass[i - |f.aa| - 1];
      } else {
        assert s[i] == f.num[i - |f.aa| - 2 - |f.mass|];
      }
    }
  }

  /** Normalising AA:MASS:NUM gives "AA MASS NUM". */
  lemma NormalizeModString(f: ModFields)
    requires WellFormed(f)
    ensures Normalize(ModString(f)) == f.aa + " " + f.mass + " " + f.num
  {
    ModStringSpaceFree(f);
    RemoveSpacesOfFree(ModString(f));
    ReplaceColonsConcat(f.aa + ":" + f.mass + ":", f.num);
    ReplaceColonsConcat(f.aa + ":" + f.mass, ":");
    ReplaceColonsConcat(f.aa + ":", f.mass);
    ReplaceColonsConcat(f.aa, ":");
    ReplaceColonsOfFree(f.aa);
    ReplaceColonsOfFree(f.mass);
    ReplaceColonsOfFree(f.num);
  }

  /** A well-formed AA:MASS:NUM string is read as exactly its three fields. */
  lemma ModStringFields(f: ModFields)
    requires WellFormed(f)
    ensures Words(Normalize(ModString(f))) == [f.aa, f.mass, f.num]
    ensures FieldsOf(Normalize(ModString(f))) == f
  {
    NormalizeModString(f);
    var n := Normalize(ModString(f));
    WordsCons(f.aa, []);
    assert f.aa + [] == f.aa;
    WordsSnoc(f.aa, f.mass);
    WordsSnoc(f.aa + " " + f.mass, f.num);
    FieldsOfWords(n);
  }

  /** Modifications all written as AA:MASS:NUM are parsed into exactly the fields they were written from. */
  lemma ParsedWellFormed(fs: seq<ModFields>)
    requires forall i :: 0 <= i < |fs| ==> WellFormed(fs[i])
    ensures ParsedFields(seq(|fs|, i requires 0 <= i < |fs| => ModString(fs[i]))) == fs
  {
    var mods := seq(|fs|, i requires 0 <= i < |fs| => ModString(fs[i]));
    forall i | 0 <= i < |fs|
      ensures ParsedFields(mods)[i] == fs[i]
    {
      ModStringFields(fs[i]);
    }
  }

  /**
   * The body of the modification loop for mods[md]: normalises the string
   * in place, reads its three fields from a string stream, appends the
   * residues and the count to modconditions and fills entry md of the table.
   */
  method ReadMod(mod: string, vmods: array<VMod>, md: nat, conds: string) returns (modconditions: string)
    requires md < vmods.Length
    modifies vmods
    ensures modconditions == conds + " " + FieldsOf(Normalize(mod)).aa + " " + FieldsOf(Normalize(mod)).num
    ensures vmods[md] == ModEntry(old(vmods[md]), FieldsOf(Normalize(mod)))
    ensures forall j :: 0 <= j < vmods.Length && j != md ==> vmods[j] == old(vmods[j])
  {
    var buf := new char[|mod|](j requires 0 <= j < |mod| => mod[j]);
    assert buf[..] == mod;
    var len := EraseSpaces(buf);
    ReplaceColonsInPlace(buf, len);
    var normalized := buf[..len];
    assert normalized == Normalize(mod);
    var st := Stream(normalized, true);
    var element := "";
    // the residues
    var r := Extract(st, element);
    st, element := r.0, r.1;
    modconditions := conds + " " + element;
    vmods[md] := vmods[md].(residues := CopyResidues(vmods[md].residues, element));
    // the mass
    r := Extract(st, element);
    st, element := r.0, r.1;
    // the count
    r := Extract(st, element);
    st, element := r.0, r.1;
    modconditions := modconditions + " " + element;
    vmods[md] := vmods[md].(aaPerPeptide := AtoI(element));
  }

  /**
   * The modification part of reading the parameters. vmods_per_pep is nmods
   * clamped to [1, 7]. With a list of modifications, num_vars is its length,
   * entry md of the table gets the residues and per-peptide count read from
   * mods[md] (entries past the list are untouched), and modconditions is
   * vmods_per_pep followed by each modification's residues and count.
   * Without a list, num_vars is 0, modconditions is "0" and the table is
   * untouched.
   */
  method ParseMods(nmods: int, mods: Option<seq<string>>, vmods: array<VMod>)
    returns (vmodsPerPep: int, numVars: nat, modconditions: string)
    requires mods.Some? ==> |mods.value| <= vmods.Length
    modifies vmods
    ensures vmodsPerPep == SanitizeNmods(nmods)
    ensures mods.None? ==> numVars == 0 && modconditions == "0" && vmods[..] == old(vmods[..])
    ensures mods.Some? ==> numVars == |mods.value|
    ensures mods.Some? ==> modconditions == ModConditions(vmodsPerPep, ParsedFields(mods.value))
    ensures mods.Some? ==> forall md :: 0 <= md < vmods.Length ==>
      vmods[md] == if md < numVars then ModEntry(old(vmods[md]), ParsedFields(mods.value)[md]) else old(vmods[md])
  {
    vmodsPerPep := SanitizeNmods(nmods);
    if mods.None? {
      numVars := 0;
      modconditions := "0";
      return;
    }
    var modslist := mods.value;
    ghost var fields := ParsedFields(modslist);
    ghost var table := vmods[..];
    numVars := |modslist|;
    modconditions := ToString(vmodsPerPep);
    var md := 0;
    while md < numVars
      invariant md <= numVars
      invariant modconditions == ModConditions(vmodsPerPep, fields[..md])
      invariant forall j :: 0 <= j < vmods.Length ==> vmods[j] == if j < md then ModEntry(table[j], fields[j]) else table[j]
    {
      modconditions := ReadMod(modslist[md], vmods, md, modconditions);
      var next := md + 1;
      ModConditionsStep(vmodsPerPep, fields, md, next);
      md := next;
    }
    assert fields[..numVars] == fields;
  }
}
