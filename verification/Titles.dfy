// Turning a file or folder name into a title and a year.
module Titles {
  import opened Text
  import opened Wrappers

  predicate IsWord(c: char) {
    'a' <= c <= 'z' || 'A' <= c <= 'Z' || IsDigit(c) || c == '_'
  }

  predicate IsSpace(c: char) {
    c == ' ' || 9 as char <= c <= 13 as char
  }

  // A dot or underscore directly before a word character.
  predicate IsSeparatorAt(s: string, i: int) {
    0 <= i < |s| - 1 && (s[i] == '.' || s[i] == '_') && IsWord(s[i + 1])
  }

  // Four digits, the first of them 1 or 2.
  predicate IsYearAt(s: string, i: int) {
    && 0 <= i <= |s| - 4
    && '1' <= s[i] <= '2'
    && IsDigit(s[i + 1]) && IsDigit(s[i + 2]) && IsDigit(s[i + 3])
  }

  // The characters of each class, as the "C" locale has them.
  lemma CharacterClasses(c: char)
    ensures IsWord(c) <==>
            || c in "ABCDEFGHIJKLMNOPQRSTUVWXYZ" || c in "abcdefghijklmnopqrstuvwxyz"
            || c in "0123456789" || c == '_'
    ensures IsSpace(c) <==> c in " \t\n\r" || c == 11 as char || c == 12 as char
  {
    Consecutive("ABCDEFGHIJKLMNOPQRSTUVWXYZ", c);
    Consecutive("abcdefghijklmnopqrstuvwxyz", c);
    DigitsAre(c);
  }

  lemma Consecutive(text: string, c: char)
    requires text != [] && forall i :: 0 <= i < |text| ==> text[i] as int == text[0] as int + i
    ensures c in text <==> text[0] <= c <= text[|text| - 1]
  {
    if text[0] <= c <= text[|text| - 1] {
      assert text[c as int - text[0] as int] == c;
    }
  }

  lemma YearsAre(s: string, i: int)
    ensures IsYearAt(s, i) <==>
            && 0 <= i && i + 4 <= |s| && s[i] in "12"
            && forall k :: i < k < i + 4 ==> s[k] in "0123456789"
  {
    if 0 <= i && i + 4 <= |s| {
      DigitsAre(s[i + 1]);
      DigitsAre(s[i + 2]);
      DigitsAre(s[i + 3]);
    }
  }

  // The text a C string of these bytes holds.
  function UntilNul(s: string): (r: string)
    ensures r <= s && 0 as char !in r
    ensures |r| == |s| || s[|r|] == 0 as char
  {
    if s == [] || s[0] == 0 as char then []
    else [s[0]] + UntilNul(s[1..])
  }

  function ReplaceSeparators(s: string): (r: string)
    ensures |r| == |s|
    ensures forall i :: 0 <= i < |s| ==> r[i] == if IsSeparatorAt(s, i) then ' ' else s[i]
  {
    seq(|s|, i requires 0 <= i < |s| => if IsSeparatorAt(s, i) then ' ' else s[i])
  }

  // The leftmost year at or after a position.
  function FindYear(s: string, from: nat): (r: Option<nat>)
    ensures r.Some? ==> from <= r.value && IsYearAt(s, r.value)
    ensures r.Some? ==> forall i :: from <= i < r.value ==> !IsYearAt(s, i)
    ensures r.None? ==> forall i :: from <= i ==> !IsYearAt(s, i)
    decreases |s| - from
  {
    if from > |s| - 4 then None
    else if IsYearAt(s, from) then Some(from)
    else FindYear(s, from + 1)
  }

  function YearValue(s: string, i: nat): (year: int)
    requires IsYearAt(s, i)
    ensures 1000 <= year <= 2999
  {
    1000 * DigitValue(s[i]) + 100 * DigitValue(s[i + 1]) + 10 * DigitValue(s[i + 2]) + DigitValue(s[i + 3])
  }

  // An opening parenthesis before the year belongs to the match.
  function MatchStart(s: string, year: nat): (i: nat)
    requires year < |s|
    ensures i <= year
  {
    if year > 0 && s[year - 1] == '(' then year - 1 else year
  }

  function TrimLeft(s: string): string {
    if s != [] && IsSpace(s[0]) then TrimLeft(s[1..]) else s
  }

  function TrimRight(s: string): string {
    if s != [] && IsSpace(s[|s| - 1]) then TrimRight(s[..|s| - 1]) else s
  }

  function Trim(s: string): string {
    TrimLeft(TrimRight(s))
  }

  datatype Title = Title(text: string, year: int)

  function NormalizedTitle(title: string): Title {
    var spaced := ReplaceSeparators(UntilNul(title));
    match FindYear(spaced, 0)
    case None => Title(Trim(spaced), 0)
    case Some(i) => Title(Trim(spaced[..MatchStart(spaced, i)]), YearValue(spaced, i))
  }

  // The title computed by editing one string in place.
  method NormalizeTitle(title: string) returns (ntitle: string, year: int)
    ensures Title(ntitle, year) == NormalizedTitle(title)
  {
    var source := UntilNul(title);
    ntitle := source;
    var i := 0;
    while i < |ntitle|
      invariant 0 <= i <= |ntitle| == |source|
      invariant forall k :: 0 <= k < |source| ==>
        ntitle[k] == if k < i && IsSeparatorAt(source, k) then ' ' else source[k]
    {
      if i + 1 < |ntitle| && (ntitle[i] == '.' || ntitle[i] == '_') && IsWord(ntitle[i + 1]) {
        ntitle := ntitle[i := ' '];
      }
      i := i + 1;
    }
    ghost var spaced := ReplaceSeparators(source);
    assert ntitle == spaced;
    year := 0;
    var at := 0;
    while at + 4 <= |ntitle| && !IsYearAt(ntitle, at)
      invariant 0 <= at
      invariant FindYear(ntitle, 0) == FindYear(ntitle, at)
    {
      at := at + 1;
    }
    if at + 4 <= |ntitle| {
      year := YearValue(ntitle, at);
      ntitle := ntitle[..MatchStart(ntitle, at)];
    }
    ghost var cut := ntitle;
    while ntitle != [] && IsSpace(ntitle[|ntitle| - 1])
      invariant TrimRight(ntitle) == TrimRight(cut)
      decreases |ntitle|
    {
      ntitle := ntitle[..|ntitle| - 1];
    }
    ghost var right := ntitle;
    while ntitle != [] && IsSpace(ntitle[0])
      invariant TrimLeft(ntitle) == TrimLeft(right)
      decreases |ntitle|
    {
      ntitle := ntitle[1..];
    }
  }

  // ----- Normalising twice changes nothing -----

  ghost predicate IsSlice(r: string, s: string) {
    exists lo, hi :: 0 <= lo <= hi <= |s| && r == s[lo..hi]
  }

  // No separator before a word character and no year: nothing left to rewrite.
  ghost predicate Clean(s: string) {
    && 0 as char !in s
    && (forall i :: !IsSeparatorAt(s, i))
    && (forall i :: !IsYearAt(s, i))
  }

  predicate Trimmed(s: string) {
    s == [] || (!IsSpace(s[0]) && !IsSpace(s[|s| - 1]))
  }

  ghost predicate AllSpaces(s: string) {
    forall i :: 0 <= i < |s| ==> IsSpace(s[i])
  }

  lemma {:induction false} TrimLeftCuts(s: string) returns (lo: nat)
    ensures lo <= |s| && TrimLeft(s) == s[lo..] && AllSpaces(s[..lo])
    ensures TrimLeft(s) == [] || !IsSpace(TrimLeft(s)[0])
  {
    hide IsSpace;
    lo := 0;
    if s != [] && IsSpace(s[0]) {
      var rest := TrimLeftCuts(s[1..]);
      lo := rest + 1;
      assert forall i :: 0 < i < lo ==> s[i] == s[1..][..rest][i - 1];
    }
  }

  lemma {:induction false} TrimRightCuts(s: string) returns (hi: nat)
    ensures hi <= |s| && TrimRight(s) == s[..hi] && AllSpaces(s[hi..])
    ensures TrimRight(s) == [] || !IsSpace(TrimRight(s)[|TrimRight(s)| - 1])
  {
    hide IsSpace;
    hi := |s|;
    if s != [] && IsSpace(s[|s| - 1]) {
      hi := TrimRightCuts(s[..|s| - 1]);
      assert forall i :: hi <= i < |s| - 1 ==> s[i] == s[..|s| - 1][hi..][i - hi];
    }
  }

  // Trimming cuts off spaces at both ends, all of them and nothing else.
  ghost predicate TrimmedFrom(r: string, s: string) {
    && Trimmed(r)
    && exists lo, hi :: 0 <= lo <= hi <= |s| && r == s[lo..hi] && AllSpaces(s[..lo]) && AllSpaces(s[hi..])
  }

  lemma TrimTrims(s: string)
    ensures TrimmedFrom(Trim(s), s) && IsSlice(Trim(s), s)
  {
    hide IsSpace;
    var hi := TrimRightCuts(s);
    var lo := TrimLeftCuts(TrimRight(s));
    assert TrimRight(s) == s[..hi] && s[..hi][..lo] == s[..lo] && s[..hi][lo..] == s[lo..hi];
    hide TrimLeft, TrimRight;
    assert Trim(s) == s[lo..hi];
  }

  // A text with the separators of a title replaced, and nothing else.
  ghost predicate SpacedFrom(spaced: string, title: string) {
    var text := UntilNul(title);
    |spaced| == |text| && forall i :: 0 <= i < |text| ==>
      spaced[i] == if (text[i] == '.' || text[i] == '_') && i + 1 < |text| && IsWord(text[i + 1]) then ' ' else text[i]
  }

  // The first year starts at i, and n is where it or its parenthesis starts.
  ghost predicate CutAt(spaced: string, n: nat, i: int) {
    && IsYearAt(spaced, i) && (forall j :: j < i ==> !IsYearAt(spaced, j))
    && AllDigits(spaced[i..i + 4])
    && n == if i > 0 && spaced[i - 1] == '(' then i - 1 else i
  }

  // What a normalised title is: the name with its separators replaced, cut
  // before the first year and a parenthesis that opens it, and trimmed; the
  // year is the number those four digits spell.
  lemma NormalizedTitleMeaning(title: string) returns (spaced: string, n: nat)
    ensures SpacedFrom(spaced, title) && n <= |spaced|
    ensures TrimmedFrom(NormalizedTitle(title).text, spaced[..n])
    ensures if forall i :: !IsYearAt(spaced, i) then n == |spaced| && NormalizedTitle(title).year == 0
            else exists i :: CutAt(spaced, n, i) && NormalizedTitle(title).year == DecimalValue(spaced[i..i + 4])
  {
    spaced := ReplaceSeparators(UntilNul(title));
    match FindYear(spaced, 0)
    case None =>
      n := |spaced|;
      assert forall i :: i < 0 ==> !IsYearAt(spaced, i);
      assert spaced[..n] == spaced;
      TrimTrims(spaced);
    case Some(i) =>
      n := MatchStart(spaced, i);
      assert forall j :: j < 0 ==> !IsYearAt(spaced, j);
      YearIsDecimal(spaced, i);
      assert CutAt(spaced, n, i);
      TrimTrims(spaced[..n]);
  }

  lemma YearIsDecimal(s: string, i: nat)
    requires IsYearAt(s, i)
    ensures AllDigits(s[i..i + 4]) && DecimalValue(s[i..i + 4]) == YearValue(s, i)
  {
    var d := s[i..i + 4];
    assert d == [s[i], s[i + 1], s[i + 2], s[i + 3]];
    assert d[..3] == [s[i], s[i + 1], s[i + 2]];
    assert d[..3][..2] == [s[i], s[i + 1]];
    assert d[..3][..2][..1] == [s[i]];
    assert d[..3][..2][..1][..0] == [];
    assert DecimalValue(d[..3][..2][..1]) == DigitValue(s[i]);
    assert DecimalValue(d[..3][..2]) == 10 * DigitValue(s[i]) + DigitValue(s[i + 1]);
    assert DecimalValue(d[..3]) == 100 * DigitValue(s[i]) + 10 * DigitValue(s[i + 1]) + DigitValue(s[i + 2]);
  }

  lemma SpacedHasNoSeparator(s: string, i: int)
    ensures !IsSeparatorAt(ReplaceSeparators(s), i)
  {
  }

  lemma SliceStaysClean(s: string, r: string)
    requires 0 as char !in s
    requires forall i :: !IsSeparatorAt(s, i)
    requires IsSlice(r, s)
    ensures 0 as char !in r
    ensures forall i :: !IsSeparatorAt(r, i)
    ensures (forall i :: !IsYearAt(s, i)) ==> forall i :: !IsYearAt(r, i)
  {
    var lo, hi :| 0 <= lo <= hi <= |s| && r == s[lo..hi];
    forall i ensures !IsSeparatorAt(r, i) {
      assert !IsSeparatorAt(s, lo + i);
    }
    if forall i :: !IsYearAt(s, i) {
      forall i ensures !IsYearAt(r, i) {
        assert !IsYearAt(s, lo + i);
      }
    }
  }

  // What is left of a title once the year and what follows are cut off.
  function Cut(spaced: string): string {
    match FindYear(spaced, 0)
    case None => spaced
    case Some(i) => spaced[..MatchStart(spaced, i)]
  }

  lemma CutIsClean(title: string)
    ensures var spaced := ReplaceSeparators(UntilNul(title));
            IsSlice(Cut(spaced), spaced) && Clean(Cut(spaced))
  {
    var spaced := ReplaceSeparators(UntilNul(title));
    forall i ensures !IsSeparatorAt(spaced, i) {
      SpacedHasNoSeparator(UntilNul(title), i);
    }
    var cut := Cut(spaced);
    assert cut == spaced[0..|cut|];
    SliceStaysClean(spaced, cut);
    forall i ensures !IsYearAt(cut, i) {
      assert IsYearAt(cut, i) ==> IsYearAt(spaced, i);
    }
  }

  // A normalised title is trimmed and holds nothing to rewrite; its year is 0
  // exactly when the name holds no year, and otherwise has four digits.
  lemma NormalizedIsClean(title: string)
    ensures Clean(NormalizedTitle(title).text) && Trimmed(NormalizedTitle(title).text)
    ensures NormalizedTitle(title).year == 0 <==>
            forall i :: !IsYearAt(ReplaceSeparators(UntilNul(title)), i)
    ensures NormalizedTitle(title).year != 0 ==> 1000 <= NormalizedTitle(title).year <= 2999
  {
    var spaced := ReplaceSeparators(UntilNul(title));
    CutIsClean(title);
    var cut := Cut(spaced);
    assert NormalizedTitle(title).text == Trim(cut);
    TrimTrims(cut);
    SliceStaysClean(cut, Trim(cut));
    if FindYear(spaced, 0).None? {
      assert forall i :: i < 0 ==> !IsYearAt(spaced, i);
    }
  }

  lemma CleanIsFixed(s: string)
    requires Clean(s) && Trimmed(s)
    ensures NormalizedTitle(s) == Title(s, 0)
  {
    assert UntilNul(s) == s by {
      assert |UntilNul(s)| == |s|;
    }
    assert ReplaceSeparators(s) == s;
    assert FindYear(s, 0).None?;
    assert TrimRight(s) == s && TrimLeft(s) == s;
  }

  lemma NormalizeIsFixpoint(title: string)
    ensures NormalizedTitle(NormalizedTitle(title).text) == Title(NormalizedTitle(title).text, 0)
  {
    NormalizedIsClean(title);
    CleanIsFixed(NormalizedTitle(title).text);
  }

  // ----- One title -----

  lemma NormalizedMash()
    ensures NormalizedTitle("MASH.1970") == Title("MASH", 1970)
  {
    hide Trim, FindYear, UntilNul, IsYearAt, IsWord, YearValue;
    var name, spaced := "MASH.1970", "MASH 1970";
    assert UntilNul(name) == name by {
      assert |UntilNul(name)| == |name|;
    }
    assert ReplaceSeparators(name) == spaced by {
      MashSpaced();
    }
    assert FindYear(spaced, 0) == Some(5) && YearValue(spaced, 5) == 1970 by {
      MashYear();
    }
    assert MatchStart(spaced, 5) == 5 && spaced[..5] == "MASH" + " ";
    TrimOneSpace("MASH");
  }

  lemma MashSpaced()
    ensures ReplaceSeparators("MASH.1970") == "MASH 1970"
  {
  }

  lemma MashYear()
    ensures FindYear("MASH 1970", 0) == Some(5) && YearValue("MASH 1970", 5) == 1970
  {
    hide FindYear;
    var spaced := "MASH 1970";
    assert IsYearAt(spaced, 5);
    assert forall i :: 0 <= i < 5 ==> !IsYearAt(spaced, i);
  }

  lemma TrimOneSpace(s: string)
    requires s != [] && Trimmed(s)
    ensures Trim(s + " ") == s
  {
    assert (s + " ")[..|s|] == s;
    assert TrimRight(s + " ") == TrimRight(s);
    assert TrimRight(s) == s && TrimLeft(s) == s;
  }
}
