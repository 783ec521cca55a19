/** Which languages a translation column already shows. A translation column's key is a
    base key such as `translations.description` followed by `:` and a language code; the
    layout derives from the current column keys, per base key, the codes already present,
    the configured languages still missing, and a status summary of every translation column. */
module LanguageDetection {
  import opened Strings
  import opened TableTypes

  /** `field.split(':')[1]`, with `""` for `undefined`: both are dropped by `filter(Boolean)`. */
  function SecondPiece(f: string): string {
    var parts := Split(f, ':');
    if |parts| >= 2 then parts[1] else ""
  }

  /** Column `f` contributes language code `c` to base key `base`. */
  predicate Marks(f: string, base: string, c: string) {
    StartsWith(f, base + ":") && SecondPiece(f) == c && c != ""
  }

  /** Some column contributes code `c` to base key `base`. */
  predicate MarkedBy(fields: seq<string>, base: string, c: string) {
    exists i :: 0 <= i < |fields| && Marks(fields[i], base, c)
  }

  lemma MarkedByCons(fields: seq<string>, base: string, c: string)
    requires |fields| > 0
    ensures MarkedBy(fields, base, c) <==> Marks(fields[0], base, c) || MarkedBy(fields[1..], base, c)
  {
    if MarkedBy(fields, base, c) && !Marks(fields[0], base, c) {
      var i :| 0 <= i < |fields| && Marks(fields[i], base, c);
      assert fields[1..][i - 1] == fields[i];
    }
    if MarkedBy(fields[1..], base, c) {
      var i :| 0 <= i < |fields[1..]| && Marks(fields[1..][i], base, c);
      assert fields[i + 1] == fields[1..][i];
    }
  }

  /** `detectExistingLanguagesForField(base)`: the codes after `base:` in column order,
      one per matching column, empty codes dropped. */
  function DetectExisting(fields: seq<string>, base: string): (codes: seq<string>)
    ensures |codes| <= |fields|
    ensures forall i :: 0 <= i < |codes| ==> codes[i] != "" && ':' !in codes[i]
    ensures forall c :: c in codes <==> MarkedBy(fields, base, c)
  {
    if |fields| == 0 then []
    else
      var rest := DetectExisting(fields[1..], base);
      var f := fields[0];
      var r := if StartsWith(f, base + ":") && SecondPiece(f) != "" then [SecondPiece(f)] + rest else rest;
      assert forall c :: c in r <==> Marks(f, base, c) || c in rest;
      assert forall c :: MarkedBy(fields, base, c) <==> Marks(f, base, c) || MarkedBy(fields[1..], base, c) by {
        forall c ensures MarkedBy(fields, base, c) <==> Marks(f, base, c) || MarkedBy(fields[1..], base, c) {
          MarkedByCons(fields, base, c);
        }
      }
      r
  }

  /** The codes come in column order, one per matching column: detection distributes over
      concatenation, and a single column yields its code exactly when it matches. */
  lemma {:induction false} DetectExistingKeepsOrder(a: seq<string>, b: seq<string>, base: string)
    ensures DetectExisting(a + b, base) == DetectExisting(a, base) + DetectExisting(b, base)
    ensures |a| == 1 ==>
      DetectExisting(a, base) == (if StartsWith(a[0], base + ":") && SecondPiece(a[0]) != "" then [SecondPiece(a[0])] else [])
    decreases |a|
  {
    if |a| > 0 {
      assert (a + b)[0] == a[0];
      assert (a + b)[1..] == a[1..] + b;
      DetectExistingKeepsOrder(a[1..], b, base);
      if |a| == 1 {
        assert a[1..] == [];
      }
    } else {
      assert a + b == b;
    }
  }

  /** The languages whose code is not in `codes`, in their configured order. */
  function LanguagesWithout(langs: seq<Language>, codes: seq<string>): (r: seq<Language>)
    ensures forall l :: l in r <==> l in langs && l.code !in codes
  {
    if |langs| == 0 then []
    else if langs[0].code !in codes then [langs[0]] + LanguagesWithout(langs[1..], codes)
    else LanguagesWithout(langs[1..], codes)
  }

  /** The languages whose code is in `codes`, in their configured order. */
  function LanguagesWith(langs: seq<Language>, codes: seq<string>): (r: seq<Language>)
    ensures forall l :: l in r <==> l in langs && l.code in codes
  {
    if |langs| == 0 then []
    else if langs[0].code in codes then [langs[0]] + LanguagesWith(langs[1..], codes)
    else LanguagesWith(langs[1..], codes)
  }

  /** `s` is `a` and `b` merged without reordering either: every element of `s` is taken,
      in turn, from the front of `a` or of `b`. */
  predicate Interleaves(a: seq<Language>, b: seq<Language>, s: seq<Language>)
    decreases |s|
  {
    if |s| == 0 then a == [] && b == []
    else
      || (|a| > 0 && a[0] == s[0] && Interleaves(a[1..], b, s[1..]))
      || (|b| > 0 && b[0] == s[0] && Interleaves(a, b[1..], s[1..]))
  }

  /** The two filters split the configured languages between them, each keeping the
      configured order: the languages are the two results merged, with multiplicity. */
  lemma LanguagesPartition(langs: seq<Language>, codes: seq<string>)
    ensures multiset(LanguagesWith(langs, codes)) + multiset(LanguagesWithout(langs, codes))
      == multiset(langs)
    ensures Interleaves(LanguagesWith(langs, codes), LanguagesWithout(langs, codes), langs)
  {
    FiltersCount(langs, codes);
    FiltersInterleave(langs, codes);
  }

  lemma {:induction false} FiltersCount(langs: seq<Language>, codes: seq<string>)
    ensures multiset(LanguagesWith(langs, codes)) + multiset(LanguagesWithout(langs, codes))
      == multiset(langs)
    decreases |langs|
  {
    if |langs| > 0 {
      FiltersCount(langs[1..], codes);
      assert langs == [langs[0]] + langs[1..];
    }
  }

  lemma {:induction false} FiltersInterleave(langs: seq<Language>, codes: seq<string>)
    ensures Interleaves(LanguagesWith(langs, codes), LanguagesWithout(langs, codes), langs)
    decreases |langs|
  {
    if |langs| > 0 {
      var l := langs[0];
      var rest := langs[1..];
      FiltersInterleave(rest, codes);
      var w := LanguagesWith(rest, codes);
      var wo := LanguagesWithout(rest, codes);
      if l.code in codes {
        assert LanguagesWith(langs, codes) == [l] + w;
        assert ([l] + w)[1..] == w;
        assert Interleaves([l] + w, wo, langs);
      } else {
        assert LanguagesWithout(langs, codes) == [l] + wo;
        assert ([l] + wo)[1..] == wo;
        assert Interleaves(w, [l] + wo, langs);
      }
    }
  }

  /** The existing-languages filter keeps the configured order: it distributes over
      concatenation, and a single language is kept exactly when its code was detected. */
  lemma {:induction false} LanguagesWithKeepsOrder(a: seq<Language>, b: seq<Language>, codes: seq<string>)
    ensures LanguagesWith(a + b, codes) == LanguagesWith(a, codes) + LanguagesWith(b, codes)
    ensures |a| == 1 ==> LanguagesWith(a, codes) == (if a[0].code in codes then a else [])
    decreases |a|
  {
    if |a| > 0 {
      assert (a + b)[0] == a[0];
      assert (a + b)[1..] == a[1..] + b;
      LanguagesWithKeepsOrder(a[1..], b, codes);
      if |a| == 1 {
        assert a[1..] == [];
        assert a == [a[0]];
      }
    } else {
      assert a + b == b;
    }
  }

  /** The available-languages filter keeps the configured order: it distributes over
      concatenation, and a single language is kept exactly when its code was not detected. */
  lemma {:induction false} LanguagesWithoutKeepsOrder(a: seq<Language>, b: seq<Language>, codes: seq<string>)
    ensures LanguagesWithout(a + b, codes) == LanguagesWithout(a, codes) + LanguagesWithout(b, codes)
    ensures |a| == 1 ==> LanguagesWithout(a, codes) == (if a[0].code in codes then [] else a)
    decreases |a|
  {
    if |a| > 0 {
      assert (a + b)[0] == a[0];
      assert (a + b)[1..] == a[1..] + b;
      LanguagesWithoutKeepsOrder(a[1..], b, codes);
      if |a| == 1 {
        assert a[1..] == [];
        assert a == [a[0]];
      }
    } else {
      assert a + b == b;
    }
  }

  /** `getAvailableLanguagesForField(base)` */
  function AvailableLanguages(fields: seq<string>, langs: seq<Language>, base: string): seq<Language> {
    LanguagesWithout(langs, DetectExisting(fields, base))
  }

  /** `getExistingLanguagesForField(base)` */
  function ExistingLanguages(fields: seq<string>, langs: seq<Language>, base: string): seq<Language> {
    LanguagesWith(langs, DetectExisting(fields, base))
  }

  /** Every configured language is either existing or available for a base key, never both,
      and both lists keep the configured order. */
  lemma ExistingAndAvailablePartition(fields: seq<string>, langs: seq<Language>, base: string)
    ensures multiset(ExistingLanguages(fields, langs, base))
      + multiset(AvailableLanguages(fields, langs, base)) == multiset(langs)
    ensures Interleaves(ExistingLanguages(fields, langs, base), AvailableLanguages(fields, langs, base), langs)
    ensures forall l :: l in AvailableLanguages(fields, langs, base) <==>
      l in langs && !MarkedBy(fields, base, l.code)
    ensures forall l :: l in ExistingLanguages(fields, langs, base) <==>
      l in langs && MarkedBy(fields, base, l.code)
  {
    LanguagesPartition(langs, DetectExisting(fields, base));
  }

  /** `isTranslationField(key)` */
  predicate IsTranslationField(key: string) {
    StartsWith(key, "translations.")
  }

  /** A key is a translation column exactly when its base key is: the `translations.`
      prefix holds no `:`. */
  lemma TranslationFieldBase(key: string)
    ensures IsTranslationField(BaseFieldKey(key)) <==> IsTranslationField(key)
  {
    var p := "translations.";
    var r := BaseFieldKey(key);
    assert ':' !in p;
    if IsTranslationField(key) && ':' in key {
      assert key[|r|] == ':';
      assert r[..|p|] == key[..|p|];
    } else if IsTranslationField(r) {
      assert key[..|p|] == r[..|p|];
    }
  }

  /** `getBaseFieldKey(key)`: the part before the first `:`, or the whole key. */
  function BaseFieldKey(key: string): (r: string)
    ensures ':' !in r
    ensures StartsWith(key, r)
    ensures ':' !in key ==> r == key
    ensures ':' in key ==> key[|r|] == ':'
  {
    if ':' in key then BeforeFirst(key, ':') else key
  }

  /** `canAddMoreLanguages(base)`: some configured language has no column for `base`. */
  function CanAddMoreLanguages(fields: seq<string>, langs: seq<Language>, base: string): (r: bool)
    ensures r <==> exists l :: l in langs && l.code !in DetectExisting(fields, base)
  {
    var avail := AvailableLanguages(fields, langs, base);
    assert |avail| > 0 ==> avail[0] in avail;
    |avail| > 0
  }

  /** The column key the layout builds for `base` in language `code`. */
  function SuffixedKey(base: string, code: string): string {
    base + ":" + code
  }

  /** A suffixed key is read back as its base key and the code before any further `:`. */
  lemma SuffixedKeyRoundTrip(base: string, rest: string)
    requires ':' !in base
    ensures BaseFieldKey(base + ":" + rest) == base
    ensures SecondPiece(base + ":" + rest) == BeforeFirst(rest, ':')
  {
    SplitCons(base, ':', rest);
    BeforeFirstOfConcat(base, ':', rest);
  }

  /** A column the layout adds for `base` and `code` is detected as exactly that code;
      a key with nothing after `base:` contributes no code. */
  lemma DetectSuffixedColumn(base: string, code: string)
    requires ':' !in base && ':' !in code
    ensures code != "" ==> DetectExisting([SuffixedKey(base, code)], base) == [code]
    ensures DetectExisting([base + ":"], base) == []
  {
    SuffixedKeyRoundTrip(base, code);
    assert base + ":" + "" == base + ":";
    SuffixedKeyRoundTrip(base, "");
    assert StartsWith(SuffixedKey(base, code), base + ":");
    assert [SuffixedKey(base, code)][1..] == [];
  }

  /** Base keys are stable: taking the base key of a base key changes nothing. */
  lemma BaseFieldKeyIdempotent(key: string)
    ensures BaseFieldKey(BaseFieldKey(key)) == BaseFieldKey(key)
  {
  }

  /** Some translation column has base key `b`. */
  predicate IsTranslationBase(fields: seq<string>, b: string) {
    exists f :: f in fields && IsTranslationField(f) && BaseFieldKey(f) == b
  }

  /** The base keys of translation columns, repeats included. */
  function TranslationBaseKeys(fields: seq<string>): (r: seq<string>)
    ensures forall b :: b in r <==> IsTranslationBase(fields, b)
  {
    if |fields| == 0 then []
    else if IsTranslationField(fields[0]) then
      [BaseFieldKey(fields[0])] + TranslationBaseKeys(fields[1..])
    else TranslationBaseKeys(fields[1..])
  }

  /** The index of the first translation column with base key `b`. */
  function FirstColumn(fields: seq<string>, b: string): (k: nat)
    requires IsTranslationBase(fields, b)
    ensures k < |fields| && IsTranslationField(fields[k]) && BaseFieldKey(fields[k]) == b
    ensures forall j :: 0 <= j < k ==> !(IsTranslationField(fields[j]) && BaseFieldKey(fields[j]) == b)
    decreases |fields|
  {
    assert |fields| > 0 by {
      var f :| f in fields && IsTranslationField(f) && BaseFieldKey(f) == b;
    }
    if IsTranslationField(fields[0]) && BaseFieldKey(fields[0]) == b then 0
    else
      assert IsTranslationBase(fields[1..], b) by {
        var f :| f in fields && IsTranslationField(f) && BaseFieldKey(f) == b;
        var i :| 0 <= i < |fields| && fields[i] == f;
        assert fields[1..][i - 1] == f;
      }
      var k := FirstColumn(fields[1..], b);
      assert forall j :: 1 <= j <= k + 1 && j < |fields| ==> fields[j] == fields[1..][j - 1];
      1 + k
  }

  /** A base key met earlier among the base keys has its first column earlier. */
  lemma {:induction false} FirstColumnOrder(fields: seq<string>, b: string, c: string)
    requires b in TranslationBaseKeys(fields) && c in TranslationBaseKeys(fields)
    requires Position(TranslationBaseKeys(fields), b) < Position(TranslationBaseKeys(fields), c)
    ensures IsTranslationBase(fields, b) && IsTranslationBase(fields, c)
    ensures FirstColumn(fields, b) < FirstColumn(fields, c)
    decreases |fields|
  {
    var t := TranslationBaseKeys(fields);
    var rest := fields[1..];
    var tr := TranslationBaseKeys(rest);
    if IsTranslationField(fields[0]) {
      var x := BaseFieldKey(fields[0]);
      assert t == [x] + tr;
      assert t[1..] == tr;
      assert c != x;
      if b != x {
        assert Position(t, b) == 1 + Position(tr, b);
        assert Position(t, c) == 1 + Position(tr, c);
        FirstColumnOrder(rest, b, c);
      }
    } else {
      assert t == tr;
      FirstColumnOrder(rest, b, c);
    }
  }

  /** Every key of `bases` is a translation base key, and the keys come in the order of
      their first columns. */
  predicate InColumnOrder(fields: seq<string>, bases: seq<string>) {
    && (forall i :: 0 <= i < |bases| ==> IsTranslationBase(fields, bases[i]))
    && (forall i, j :: 0 <= i < j < |bases| ==> FirstColumn(fields, bases[i]) < FirstColumn(fields, bases[j]))
  }

  /** The distinct translation base keys come in the order of their first columns. */
  lemma StatusKeysInColumnOrder(fields: seq<string>)
    ensures InColumnOrder(fields, Dedup(TranslationBaseKeys(fields)))
  {
    var t := TranslationBaseKeys(fields);
    var keys := Dedup(t);
    DedupKeepsFirstOrder(t);
    forall i, j | 0 <= i < j < |keys|
      ensures IsTranslationBase(fields, keys[i]) && IsTranslationBase(fields, keys[j])
      ensures FirstColumn(fields, keys[i]) < FirstColumn(fields, keys[j])
    {
      FirstColumnOrder(fields, keys[i], keys[j]);
    }
    forall i | 0 <= i < |keys|
      ensures IsTranslationBase(fields, keys[i])
    {
      assert keys[i] in t;
    }
  }

  /** One entry of `translationFieldsStatus`. */
  datatype FieldStatus = FieldStatus(
    baseField: string,
    existingLanguages: seq<Language>,
    availableLanguages: seq<Language>,
    canAddMore: bool)

  function StatusOf(fields: seq<string>, langs: seq<Language>, base: string): FieldStatus {
    FieldStatus(base, ExistingLanguages(fields, langs, base), AvailableLanguages(fields, langs, base),
                CanAddMoreLanguages(fields, langs, base))
  }

  /** Some status entry is for base key `b`. */
  predicate Lists(r: seq<FieldStatus>, b: string) {
    exists i :: 0 <= i < |r| && r[i].baseField == b
  }

  /** `translationFieldsStatus`: one status per distinct translation base key, in order of
      first appearance. */
  function TranslationFieldsStatus(fields: seq<string>, langs: seq<Language>): seq<FieldStatus> {
    var keys := Dedup(TranslationBaseKeys(fields));
    seq(|keys|, i requires 0 <= i < |keys| => StatusOf(fields, langs, keys[i]))
  }

  /** The base keys of the status entries, in order. */
  function Bases(r: seq<FieldStatus>): (bs: seq<string>)
    ensures |bs| == |r| && forall i :: 0 <= i < |r| ==> bs[i] == r[i].baseField
  {
    seq(|r|, i requires 0 <= i < |r| => r[i].baseField)
  }

  /** The status entries name each translation base key once, nothing else, in the order
      of each key's first column. */
  lemma StatusKeysFacts(fields: seq<string>, langs: seq<Language>)
    ensures var r := TranslationFieldsStatus(fields, langs);
      && (forall i, j :: 0 <= i < j < |r| ==> r[i].baseField != r[j].baseField)
      && (forall b :: Lists(r, b) <==> IsTranslationBase(fields, b))
      && InColumnOrder(fields, Bases(r))
  {
    var keys := Dedup(TranslationBaseKeys(fields));
    var r := TranslationFieldsStatus(fields, langs);
    StatusKeysInColumnOrder(fields);
    assert Bases(r) == keys;
    forall b | IsTranslationBase(fields, b)
      ensures Lists(r, b)
    {
      assert b in keys;
      var i :| 0 <= i < |keys| && keys[i] == b;
      assert r[i].baseField == b;
    }
  }

  /** In each status entry `canAddMore` holds exactly when some language is still
      available, and existing plus available languages are the configured ones. */
  lemma StatusEntriesFacts(fields: seq<string>, langs: seq<Language>)
    ensures var r := TranslationFieldsStatus(fields, langs);
      && (forall i :: 0 <= i < |r| ==> (r[i].canAddMore <==> |r[i].availableLanguages| > 0))
      && (forall i :: 0 <= i < |r| ==>
            multiset(r[i].existingLanguages) + multiset(r[i].availableLanguages) == multiset(langs))
  {
    var keys := Dedup(TranslationBaseKeys(fields));
    var r := TranslationFieldsStatus(fields, langs);
    forall i | 0 <= i < |r|
      ensures multiset(r[i].existingLanguages) + multiset(r[i].availableLanguages) == multiset(langs)
    {
      ExistingAndAvailablePartition(fields, langs, keys[i]);
    }
  }

  /** The status lists each translation base key exactly once and nothing else, in the
      order of each key's first column, and in each entry `canAddMore` holds exactly when
      some language is still available. */
  lemma TranslationFieldsStatusFacts(fields: seq<string>, langs: seq<Language>)
    ensures var r := TranslationFieldsStatus(fields, langs);
      && (forall i, j :: 0 <= i < j < |r| ==> r[i].baseField != r[j].baseField)
      && (forall b :: Lists(r, b) <==> IsTranslationBase(fields, b))
      && InColumnOrder(fields, Bases(r))
      && (forall i :: 0 <= i < |r| ==> (r[i].canAddMore <==> |r[i].availableLanguages| > 0))
      && (forall i :: 0 <= i < |r| ==>
            multiset(r[i].existingLanguages) + multiset(r[i].availableLanguages) == multiset(langs))
  {
    StatusKeysFacts(fields, langs);
    StatusEntriesFacts(fields, langs);
  }

  /** With languages `en`, `de` configured and columns for `de` present, only `en` remains. */
  lemma OneLanguageLeft(base: string, en: Language, de: Language)
    requires ':' !in base && ':' !in de.code && de.code != "" && en.code != de.code
    ensures AvailableLanguages([SuffixedKey(base, de.code)], [en, de], base) == [en]
    ensures ExistingLanguages([SuffixedKey(base, de.code)], [en, de], base) == [de]
    ensures CanAddMoreLanguages([SuffixedKey(base, de.code)], [en, de], base)
  {
    DetectSuffixedColumn(base, de.code);
    var codes := DetectExisting([SuffixedKey(base, de.code)], base);
    assert codes == [de.code];
    assert [en, de][1..] == [de];
    assert [de][1..] == [];
    assert LanguagesWithout([de], codes) == [];
    assert LanguagesWith([de], codes) == [de];
  }
}
