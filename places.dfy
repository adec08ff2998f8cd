/** The place-name records the controller handles, and the pure helpers that
    turn them into short display texts: year ranges, the present-day location
    summary and the simplified / traditional / pinyin name variants. */
module Places {
  import opened Wrappers
  import opened Text

  /** One present-day location entry of a record. A `null` entry of the
      service's array is the entry with no text. */
  datatype Location = Location(textValue: Option<string>, countryCode: Option<string>)

  /** One spelling entry. The three flags stand for the script and note
      tests `collectNameVariants` applies to the entry (simplified Chinese,
      traditional Chinese, pinyin). */
  datatype Spelling = Spelling(
    writtenForm: Option<string>,
    marksSimplified: bool,
    marksTraditional: bool,
    marksPinyin: bool)

  /** Begin and end year; a negative year is before the common era. */
  datatype Temporal = Temporal(begYr: Option<int>, endYr: Option<int>)

  /** A summary record, as search returns it. `presentLocation` is absent when
      either `spatial` or its `presentLocation` is missing or null. */
  datatype Record = Record(
    sysId: Option<string>,
    nameVn: Option<string>,
    nameEn: Option<string>,
    nameTr: Option<string>,
    spellings: Option<seq<Spelling>>,
    temporal: Option<Temporal>,
    presentLocation: Option<seq<Location>>)

  /** A full record: the summary fields plus provenance. The provenance fields
      are only displayed. */
  datatype Detail = Detail(
    record: Record,
    dataSource: Option<string>,
    license: Option<string>,
    sourceUri: Option<string>,
    checkStatus: Option<int>)

  /** The cache and lookup key of a record: its `sysId` when that is a
      non-empty string (JavaScript truthiness). */
  function Key(r: Record): (k: Option<string>)
    ensures k.Some? <==> r.sysId.Some? && r.sysId.value != []
    ensures k.Some? ==> k == r.sysId
  {
    if r.sysId.Some? && r.sysId.value != [] then r.sysId else None
  }

  const Dash := "—"

  // ---------------------------------------------------------------- years

  /** `formatYearShort`: nothing for a missing year, `前N` for N years before
      the common era, the decimal number otherwise. */
  function FormatYearShort(year: Option<int>): (r: string)
    ensures r == [] <==> year.None?
    ensures year.Some? && year.value < 0 ==> r[0] == '前' && r[1..] == NatToString(-year.value)
    ensures year.Some? && year.value >= 0 ==> r == IntToString(year.value)
  {
    if year.None? then ""
    else if year.value < 0 then "前" + NatToString(-year.value)
    else if year.value == 0 then "0"
    else NatToString(year.value)
  }

  /** Distinct years have distinct short texts. */
  lemma FormatYearShortInjective(a: Option<int>, b: Option<int>)
    requires FormatYearShort(a) == FormatYearShort(b)
    ensures a == b
  {
    var s := FormatYearShort(a);
    if a.Some? && b.Some? {
      assert IsDigit(s[0]) <==> a.value >= 0;
      assert IsDigit(s[0]) <==> b.value >= 0;
      if a.value < 0 {
        NatToStringInjective(-a.value, -b.value);
      } else {
        NatToStringInjective(a.value, b.value);
      }
    }
  }

  /** `formatPeriodShort`. */
  function FormatPeriodShort(t: Option<Temporal>): (r: string)
    ensures r != []
  {
    if t.None? then Dash
    else
      var start := FormatYearShort(t.value.begYr);
      var end := FormatYearShort(t.value.endYr);
      if |start| > 0 && |end| > 0 then
        (if start == end then start else start + " - " + end)
      else if |start| > 0 then start + " 起"
      else if |end| > 0 then "至 " + end
      else Dash
  }

  lemma YearTextIsNotDash(y: Option<int>)
    ensures FormatYearShort(y) != Dash
  {
    var s := FormatYearShort(y);
    if y.Some? && y.value >= 0 {
      assert IsDigit(s[0]);
    } else if y.Some? {
      assert s[0] == '前';
    }
  }

  /** The period text is the placeholder dash exactly when no year is known. */
  lemma PeriodDashIffNoYears(t: Option<Temporal>)
    ensures FormatPeriodShort(t) == Dash <==> t.None? || (t.value.begYr.None? && t.value.endYr.None?)
  {
    if t.Some? {
      YearTextIsNotDash(t.value.begYr);
      YearTextIsNotDash(t.value.endYr);
    }
  }

  /** With only one year known, the period is that year followed by `起`
      (from) or preceded by `至` (until). */
  lemma PeriodOneSided(b: Option<int>, e: Option<int>)
    ensures b.Some? && e.None? ==>
              FormatPeriodShort(Some(Temporal(b, e))) == FormatYearShort(b) + " 起"
    ensures b.None? && e.Some? ==>
              FormatPeriodShort(Some(Temporal(b, e))) == "至 " + FormatYearShort(e)
  {
  }

  /** With both years known, the period collapses to a single year exactly
      when the two years are equal; otherwise it is `start - end`. */
  lemma PeriodCollapsesIffEqualYears(b: int, e: int)
    ensures var r := FormatPeriodShort(Some(Temporal(Some(b), Some(e))));
            (r == FormatYearShort(Some(b)) <==> b == e)
            && (b != e ==> r == FormatYearShort(Some(b)) + " - " + FormatYearShort(Some(e)))
  {
    if FormatYearShort(Some(b)) == FormatYearShort(Some(e)) {
      FormatYearShortInjective(Some(b), Some(e));
    }
  }

  // ------------------------------------------------------------ locations

  /** The position of the first occurrence of `x` in `s`. */
  function FirstIndex<T(==)>(s: seq<T>, x: T): (i: nat)
    requires x in s
    ensures i < |s| && s[i] == x && x !in s[..i]
  {
    if s[0] == x then 0
    else
      var i := FirstIndex(s[1..], x);
      assert s[..i + 1] == [s[0]] + s[1..][..i];
      i + 1
  }

  lemma {:induction false} FirstIndexInPrefix<T>(s: seq<T>, k: nat, x: T)
    requires k <= |s| && x in s[..k]
    ensures FirstIndex(s, x) == FirstIndex(s[..k], x)
  {
    if s[0] != x {
      assert s[..k][1..] == s[1..][..k - 1];
      FirstIndexInPrefix(s[1..], k - 1, x);
    }
  }

  lemma FirstIndexPrefixAll<T>(s: seq<T>, k: nat)
    requires k <= |s|
    ensures forall x :: x in s[..k] ==> FirstIndex(s, x) == FirstIndex(s[..k], x)
  {
    forall x | x in s[..k]
      ensures FirstIndex(s, x) == FirstIndex(s[..k], x)
    {
      FirstIndexInPrefix(s, k, x);
    }
  }

  /** The distinct elements of `s`, in the order of their first occurrence:
      what collecting into a JavaScript `Set` and reading it back gives. */
  function Dedupe(s: seq<string>): (r: seq<string>)
    ensures forall x :: x in r <==> x in s
    ensures forall i, j :: 0 <= i < j < |r| ==> r[i] != r[j]
    ensures forall i, j :: 0 <= i < j < |r| ==> FirstIndex(s, r[i]) < FirstIndex(s, r[j])
  {
    if s == [] then []
    else
      var n := |s| - 1;
      var d := Dedupe(s[..n]);
      var x := s[n];
      assert s == s[..n] + [x];
      FirstIndexPrefixAll(s, n);
      if x in d then d
      else
        assert FirstIndex(s, x) == n;
        d + [x]
  }

  /** The text one entry contributes: its cleaned text, or nothing when it is
      blank. */
  function EntryText(l: Location): seq<string> {
    if CleanText(l.textValue).Some? then [CleanText(l.textValue).value] else []
  }

  /** The texts of the entries, concatenated in order. */
  function Texts(locs: seq<Location>): seq<string> {
    if locs == [] then [] else EntryText(locs[0]) + Texts(locs[1..])
  }

  lemma {:induction false} TextsConcat(a: seq<Location>, b: seq<Location>)
    ensures Texts(a + b) == Texts(a) + Texts(b)
  {
    if a == [] {
      assert a + b == b;
    } else {
      assert (a + b)[0] == a[0];
      assert (a + b)[1..] == a[1..] + b;
      TextsConcat(a[1..], b);
    }
  }

  lemma {:induction false} TextsFacts(locs: seq<Location>)
    ensures |Texts(locs)| <= |locs|
    ensures forall t :: t in Texts(locs) ==> t != [] && Trimmed(t)
    ensures Texts(locs) == [] <==> forall i :: 0 <= i < |locs| ==> CleanText(locs[i].textValue).None?
    ensures forall t :: t in Texts(locs) <==> exists i :: 0 <= i < |locs| && CleanText(locs[i].textValue) == Some(t)
  {
    if locs != [] {
      TextsFacts(locs[1..]);
      assert forall i :: 1 <= i < |locs| ==> locs[i] == locs[1..][i - 1];
      forall t | t in Texts(locs)
        ensures exists i :: 0 <= i < |locs| && CleanText(locs[i].textValue) == Some(t)
      {
        if t !in EntryText(locs[0]) {
          var k :| 0 <= k < |locs[1..]| && CleanText(locs[1..][k].textValue) == Some(t);
          assert locs[k + 1] == locs[1..][k];
        }
      }
      forall t, i | 0 <= i < |locs| && CleanText(locs[i].textValue) == Some(t)
        ensures t in Texts(locs)
      {
        if i > 0 {
          assert locs[1..][i - 1] == locs[i];
        }
      }
    }
  }

  /** The cleaned, non-blank location texts: each entry in order contributes
      its cleaned text, or nothing when blank. */
  function LocationTexts(locs: seq<Location>): (r: seq<string>)
    ensures |r| <= |locs|
    ensures forall t :: t in r ==> t != [] && Trimmed(t)
    ensures r == [] <==> forall i :: 0 <= i < |locs| ==> CleanText(locs[i].textValue).None?
    ensures forall t :: t in r <==> exists i :: 0 <= i < |locs| && CleanText(locs[i].textValue) == Some(t)
  {
    TextsFacts(locs);
    Texts(locs)
  }

  /** The texts keep the order of their entries: the texts of a list are the
      texts of its first part followed by those of the rest, and a single
      entry gives its own cleaned text or nothing. */
  lemma LocationTextsInOrder(a: seq<Location>, b: seq<Location>, l: Location)
    ensures LocationTexts(a + b) == LocationTexts(a) + LocationTexts(b)
    ensures LocationTexts([l]) == EntryText(l)
  {
    TextsConcat(a, b);
    assert [l][1..] == [];
  }

  /** `parts.join(sep)`. */
  function Join(parts: seq<string>, sep: string): string {
    if parts == [] then ""
    else if |parts| == 1 then parts[0]
    else parts[0] + sep + Join(parts[1..], sep)
  }

  /** `detail?.spatial?.presentLocation ?? record.spatial?.presentLocation ?? []`:
      the detail's list wins whenever it is present, even when empty. */
  function LocationsOf(record: Record, detail: Option<Detail>): (locs: seq<Location>)
    ensures detail.Some? && detail.value.record.presentLocation.Some? ==>
              locs == detail.value.record.presentLocation.value
  {
    if detail.Some? && detail.value.record.presentLocation.Some? then detail.value.record.presentLocation.value
    else record.presentLocation.GetOr([])
  }

  /** `summarizeRecordLocation`: the distinct non-blank location texts in
      first-seen order, joined by " / ", or absent when there are none. */
  function SummarizeRecordLocation(record: Record, detail: Option<Detail>): Option<string> {
    var unique := Dedupe(LocationTexts(LocationsOf(record, detail)));
    if unique == [] then None else Some(Join(unique, " / "))
  }

  /** The summary is absent exactly when no location has a non-blank text, and
      otherwise lists each distinct text once, in first-seen order. */
  lemma SummaryShape(record: Record, detail: Option<Detail>)
    ensures var locs := LocationsOf(record, detail);
            var texts := LocationTexts(locs);
            var s := SummarizeRecordLocation(record, detail);
            && (s.None? <==> forall i :: 0 <= i < |locs| ==> CleanText(locs[i].textValue).None?)
            && (s.Some? ==>
                  && s.value == Join(Dedupe(texts), " / ")
                  && (forall t :: t in Dedupe(texts) <==> t in texts)
                  && (forall i, j :: 0 <= i < j < |Dedupe(texts)| ==> Dedupe(texts)[i] != Dedupe(texts)[j]))
  {
    var texts := LocationTexts(LocationsOf(record, detail));
    if texts != [] {
      assert texts[0] in Dedupe(texts);
    }
  }

  /** A summary, when there is one, is never empty text. */
  lemma SummaryNotEmpty(record: Record, detail: Option<Detail>)
    ensures SummarizeRecordLocation(record, detail) != Some([])
  {
    var unique := Dedupe(LocationTexts(LocationsOf(record, detail)));
    if unique != [] {
      assert unique[0] in LocationTexts(LocationsOf(record, detail));
      JoinLeadsWithFirst(unique, " / ");
    }
  }

  lemma JoinLeadsWithFirst(parts: seq<string>, sep: string)
    requires parts != []
    ensures |Join(parts, sep)| >= |parts[0]|
  {
  }

  // ---------------------------------------------------------------- names

  datatype Script = Simplified | TraditionalScript | PinyinScript

  predicate Marks(e: Spelling, k: Script) {
    match k
    case Simplified => e.marksSimplified
    case TraditionalScript => e.marksTraditional
    case PinyinScript => e.marksPinyin
  }

  /** `pickSpellingEntry`: the first entry with the given mark (`Array.find`). */
  function FindSpelling(s: seq<Spelling>, k: Script): (r: Option<Spelling>)
    ensures r.None? <==> forall i :: 0 <= i < |s| ==> !Marks(s[i], k)
    ensures r.Some? ==> exists i :: 0 <= i < |s| && s[i] == r.value && Marks(s[i], k)
                          && forall j :: 0 <= j < i ==> !Marks(s[j], k)
  {
    if s == [] then None
    else if Marks(s[0], k) then Some(s[0])
    else
      var r := FindSpelling(s[1..], k);
      assert forall i :: 1 <= i < |s| ==> s[i] == s[1..][i - 1];
      r
  }

  /** A chain of `??`: the first candidate that is present. */
  function FirstPresent(c: seq<Option<string>>): (r: Option<string>)
    ensures r.None? <==> forall i :: 0 <= i < |c| ==> c[i].None?
    ensures r.Some? ==> exists i :: 0 <= i < |c| && c[i] == r
                          && forall j :: 0 <= j < i ==> c[j].None?
  {
    if c == [] then None
    else if c[0].Some? then c[0]
    else
      var r := FirstPresent(c[1..]);
      assert forall i :: 1 <= i < |c| ==> c[i] == c[1..][i - 1];
      r
  }

  datatype NameVariants = NameVariants(simplified: string, traditional: string, pinyin: string)

  function WrittenForm(e: Option<Spelling>): Option<string> {
    if e.Some? then e.value.writtenForm else None
  }

  /** The candidate texts, in the order `collectNameVariants` tries them, for
      each of the three variants. */
  function NameCandidates(record: Record, detail: Option<Detail>, k: Script): seq<Option<string>> {
    var d := if detail.Some? then Some(detail.value.record) else None;
    var dNameVn := if d.Some? then d.value.nameVn else None;
    var dNameEn := if d.Some? then d.value.nameEn else None;
    var dNameTr := if d.Some? then d.value.nameTr else None;
    var dSysId := if d.Some? then d.value.sysId else None;
    var dSpellings := if d.Some? then d.value.spellings.GetOr([]) else [];
    var entry := WrittenForm(FindSpelling(dSpellings + record.spellings.GetOr([]), k));
    match k
    case Simplified =>
      [CleanText(entry), CleanText(dNameVn), CleanText(record.nameVn),
       CleanText(dNameEn), CleanText(record.nameEn), CleanText(Or(dSysId, record.sysId))]
    case TraditionalScript =>
      [CleanText(entry), CleanText(dNameEn), CleanText(record.nameEn)]
    case PinyinScript =>
      [CleanText(entry), CleanText(dNameTr), CleanText(record.nameTr)]
  }

  /** `collectNameVariants`. */
  function CollectNameVariants(record: Record, detail: Option<Detail>): NameVariants {
    NameVariants(
      FirstPresent(NameCandidates(record, detail, Simplified)).GetOr(Dash),
      FirstPresent(NameCandidates(record, detail, TraditionalScript)).GetOr(Dash),
      FirstPresent(NameCandidates(record, detail, PinyinScript)).GetOr(Dash))
  }

  function Variant(v: NameVariants, k: Script): string {
    match k
    case Simplified => v.simplified
    case TraditionalScript => v.traditional
    case PinyinScript => v.pinyin
  }

  /** Every candidate is a cleaned text: absent, or non-empty and trimmed. */
  lemma CandidatesAreClean(record: Record, detail: Option<Detail>, k: Script)
    ensures var c := NameCandidates(record, detail, k);
            |c| >= 3 && forall x :: x in c && x.Some? ==> x.value != [] && Trimmed(x.value)
  {
  }

  /** Each variant is the first non-blank candidate, trimmed, in the order
      `collectNameVariants` lists them, or the dash when every candidate is
      blank; in particular a marked spelling with a non-blank written form
      always wins. */
  lemma NameVariantFallback(record: Record, detail: Option<Detail>, k: Script)
    ensures var c := NameCandidates(record, detail, k);
            var v := Variant(CollectNameVariants(record, detail), k);
            && v != [] && Trimmed(v)
            && ((forall i :: 0 <= i < |c| ==> c[i].None?) ==> v == Dash)
            && (forall i :: 0 <= i < |c| && c[i].Some? && (forall j :: 0 <= j < i ==> c[j].None?) ==> v == c[i].value)
  {
    var c := NameCandidates(record, detail, k);
    CandidatesAreClean(record, detail, k);
    var r := FirstPresent(c);
    if r.Some? {
      var i0 :| 0 <= i0 < |c| && c[i0] == r && forall j :: 0 <= j < i0 ==> c[j].None?;
      assert c[i0] in c;
      forall i | 0 <= i < |c| && c[i].Some? && (forall j :: 0 <= j < i ==> c[j].None?)
        ensures i == i0
      {
        assert c[i].Some? && c[i0].Some?;
      }
    }
  }
}
