/** The shown columns and what they are called. Column keys live in the host's `fields`
    list; a custom display name per key is kept and persisted in the layout options. A
    rename dialog edits one custom name, and a language dialog adds one `base:code` column
    per selected language. The fields store, the relations store and the title formatter
    of the host are parameters. */
module TableFields {
  import opened Strings
  import opened Options
  import opened TableTypes

  /** A field of the collection as the list of collection fields gives it; `name` is `""`
      when it has none. */
  datatype CollectionField = CollectionField(field: string, name: string)

  /** Field metadata from the fields store; `name` is `""` when it has none. */
  datatype FieldMeta = FieldMeta(name: string)

  /** A relation of the relations store; `""` stands for a missing collection. */
  datatype Relation = Relation(relatedCollection: string, collection: string)

  /** `fieldsInCollection.find(f => f.field === key)` */
  function FindField(fs: seq<CollectionField>, key: string): (r: Option<CollectionField>)
    ensures r.Some? ==> r.value in fs && r.value.field == key
    ensures r.None? ==> forall f :: f in fs ==> f.field != key
    ensures r.Some? ==>
      exists i :: 0 <= i < |fs| && fs[i] == r.value && forall j :: 0 <= j < i ==> fs[j].field != key
  {
    if |fs| == 0 then None
    else if fs[0].field == key then Some(fs[0])
    else FindField(fs[1..], key)
  }

  /** `field?.name || fallback` */
  function NameOr(f: Option<CollectionField>, fallback: string): string {
    if f.Some? && f.value.name != "" then f.value.name else fallback
  }

  /** `base.split('.').pop()` when the base has a dot, the base otherwise. */
  function LastSegment(base: string): (r: string)
    ensures '.' !in r
    ensures '.' !in base ==> r == base
  {
    var parts := Split(base, '.');
    parts[|parts| - 1]
  }

  /** `getFieldName(key)`: a non-empty custom name; for a `base:code` key the base field's
      name or its last path segment, followed by the code in parentheses; otherwise the
      field's name or the key itself. */
  function GetFieldName(custom: map<string, string>, fs: seq<CollectionField>, key: string): (r: string)
    ensures key in custom && custom[key] != "" ==> r == custom[key]
    ensures !(key in custom && custom[key] != "") && ':' !in key ==> r == NameOr(FindField(fs, key), key)
  {
    if key in custom && custom[key] != "" then custom[key]
    else if ':' in key then
      var parts := Split(key, ':');
      var base := parts[0];
      var code := parts[1];
      NameOr(FindField(fs, base), LastSegment(base)) + " (" + code + ")"
    else NameOr(FindField(fs, key), key)
  }

  /** A column the language dialog adds is named after its base field and its code. */
  lemma SuffixedColumnName(custom: map<string, string>, fs: seq<CollectionField>, base: string, code: string)
    requires ':' !in base && ':' !in code
    requires !(base + ":" + code in custom && custom[base + ":" + code] != "")
    ensures GetFieldName(custom, fs, base + ":" + code) ==
      NameOr(FindField(fs, base), LastSegment(base)) + " (" + code + ")"
  {
    var key := base + ":" + code;
    assert key[|base|] == ':';
    assert Join([base, code], ':') == key;
    SplitJoin([base, code], ':');
  }

  /** The last segment of `translations.<sub>` is `<sub>`. */
  lemma TranslationSegment(sub: string)
    requires '.' !in sub
    ensures LastSegment("translations." + sub) == sub
  {
    assert Join(["translations", sub], '.') == "translations." + sub;
    SplitJoin(["translations", sub], '.');
  }

  /** A language column of a translation field the collection does not list, with no
      custom name, is shown as the translation's field name and the code: for example
      `translations.title:de` as `title (de)`. */
  lemma TranslationColumnName(custom: map<string, string>, fs: seq<CollectionField>, sub: string, code: string)
    requires '.' !in sub && ':' !in sub && ':' !in code
    requires FindField(fs, "translations." + sub).None?
    requires !("translations." + sub + ":" + code in custom && custom["translations." + sub + ":" + code] != "")
    ensures GetFieldName(custom, fs, "translations." + sub + ":" + code) == sub + " (" + code + ")"
  {
    var base := "translations." + sub;
    assert ':' !in base by {
      assert forall i :: 0 <= i < |base| ==> base[i] == if i < 13 then "translations."[i] else sub[i - 13];
    }
    SuffixedColumnName(custom, fs, base, code);
    TranslationSegment(sub);
  }

  /** `getTranslationFieldMetadata(key)`: for a `translations.` key, the field of the first
      translations relation's related collection (or its own collection) named by the
      second path segment. */
  function TranslationFieldMetadata(key: string, collection: string,
                                    relationsFor: (string, string) -> seq<Relation>,
                                    getField: (string, string) -> Option<FieldMeta>): Option<FieldMeta> {
    if !StartsWith(key, "translations.") then None
    else
      var parts := Split(key, '.');
      var sub := if |parts| > 1 then parts[1] else "";
      var rels := relationsFor(collection, "translations");
      if |rels| == 0 then None
      else
        var target := if rels[0].relatedCollection != "" then rels[0].relatedCollection else rels[0].collection;
        if target == "" then None else getField(target, sub)
  }

  /** The field metadata `renameField` settles on for a key. */
  function RenameMeta(key: string, collection: string, relationsFor: (string, string) -> seq<Relation>,
                      getField: (string, string) -> Option<FieldMeta>): Option<FieldMeta> {
    if ':' !in key then getField(collection, key)
    else
      var actual := BeforeFirst(key, ':');
      var field := getField(collection, actual);
      if StartsWith(actual, "translations.") && field.None? then
        match TranslationFieldMetadata(actual, collection, relationsFor, getField)
        case Some(t) => Some(t)
        case None => field
      else field
  }

  /** The name `renameField` records as the original: the metadata's name, or the title
      form of the key without its language suffix. */
  function OriginalName(key: string, collection: string, relationsFor: (string, string) -> seq<Relation>,
                        getField: (string, string) -> Option<FieldMeta>, formatTitle: string -> string): (r: string)
    ensures var m := RenameMeta(key, collection, relationsFor, getField);
      m.Some? && m.value.name != "" ==> r == m.value.name
    ensures var m := RenameMeta(key, collection, relationsFor, getField);
      !(m.Some? && m.value.name != "") ==> r == formatTitle(if ':' in key then BeforeFirst(key, ':') else key)
  {
    var m := RenameMeta(key, collection, relationsFor, getField);
    if m.Some? && m.value.name != "" then m.value.name
    else formatTitle(if ':' in key then BeforeFirst(key, ':') else key)
  }

  /** For a suffixed translation column whose base is unknown to the collection, the
      original name comes from the translations collection. */
  lemma TranslationMetaUsed(base: string, code: string, collection: string,
                            relationsFor: (string, string) -> seq<Relation>,
                            getField: (string, string) -> Option<FieldMeta>)
    requires ':' !in base && StartsWith(base, "translations.")
    requires getField(collection, base).None?
    ensures RenameMeta(base + ":" + code, collection, relationsFor, getField) ==
      TranslationFieldMetadata(base, collection, relationsFor, getField)
  {
    BeforeFirstOfConcat(base, ':', code);
    assert base + ":" + code == base + [':'] + code;
  }

  /** The list after `forEach` has run over `codes`: `base:code` appended for each code
      whose column is not there yet. */
  function WithLanguageColumns(fields: seq<string>, base: string, codes: seq<string>): (r: seq<string>)
    ensures |r| >= |fields| && r[..|fields|] == fields
    ensures forall c :: c in codes ==> base + ":" + c in r
    ensures forall x :: x in r ==> x in fields || exists c :: c in codes && x == base + ":" + c
    ensures (forall i, j :: 0 <= i < j < |fields| ==> fields[i] != fields[j]) ==>
      forall i, j :: 0 <= i < j < |r| ==> r[i] != r[j]
    decreases |codes|
  {
    if |codes| == 0 then fields
    else
      var init := codes[..|codes| - 1];
      var prev := WithLanguageColumns(fields, base, init);
      var key := base + ":" + codes[|codes| - 1];
      assert forall c :: c in codes ==> c in init || c == codes[|codes| - 1];
      if key in prev then prev
      else
        assert (prev + [key])[..|fields|] == prev[..|fields|];
        prev + [key]
  }

  /** Codes whose columns are all present already add nothing. */
  lemma {:induction false} PresentColumnsAddNothing(fields: seq<string>, base: string, codes: seq<string>)
    requires forall c :: c in codes ==> base + ":" + c in fields
    ensures WithLanguageColumns(fields, base, codes) == fields
    decreases |codes|
  {
    if |codes| > 0 {
      var init := codes[..|codes| - 1];
      assert forall c :: c in init ==> c in codes;
      PresentColumnsAddNothing(fields, base, init);
    }
  }

  /** The column state of one table. `fields` is the host's list of shown columns and
      `layout` its layout options. */
  class FieldsState {
    var fields: seq<string>
    var layout: LayoutOptions
    var customFieldNames: map<string, string>
    var showRenameDialog: bool
    var renameFieldKey: string
    var renameFieldValue: string
    var originalFieldName: string
    var showLanguageDialog: bool
    var pendingTranslationField: Option<string>
    var selectedLanguagesForField: seq<string>

    /** The rename dialog is closed and empty. */
    predicate RenameCleared()
      reads this
    {
      !showRenameDialog && renameFieldKey == "" && renameFieldValue == "" && originalFieldName == ""
    }

    /** The language dialog is closed and empty. */
    predicate LanguageCleared()
      reads this
    {
      !showLanguageDialog && pendingTranslationField.None? && selectedLanguagesForField == []
    }

    constructor (fields: seq<string>, layout: LayoutOptions)
      ensures this.fields == fields && this.layout == layout
      ensures customFieldNames == layout.customFieldNames.GetOr(map[])
      ensures RenameCleared() && LanguageCleared()
    {
      this.fields := fields;
      this.layout := layout;
      customFieldNames := layout.customFieldNames.GetOr(map[]);
      showRenameDialog := false;
      renameFieldKey := "";
      renameFieldValue := "";
      originalFieldName := "";
      showLanguageDialog := false;
      pendingTranslationField := None;
      selectedLanguagesForField := [];
    }

    /** `renameField(key)`: open the dialog on the key with its original name and its
        current name. */
    method RenameField(key: string, collection: string, relationsFor: (string, string) -> seq<Relation>,
                       getField: (string, string) -> Option<FieldMeta>, formatTitle: string -> string)
      modifies this
      ensures renameFieldKey == key && showRenameDialog
      ensures originalFieldName == OriginalName(key, collection, relationsFor, getField, formatTitle)
      ensures renameFieldValue ==
        if key in customFieldNames && customFieldNames[key] != "" then customFieldNames[key] else originalFieldName
      ensures fields == old(fields) && layout == old(layout) && customFieldNames == old(customFieldNames)
      ensures showLanguageDialog == old(showLanguageDialog)
      ensures pendingTranslationField == old(pendingTranslationField)
      ensures selectedLanguagesForField == old(selectedLanguagesForField)
    {
      renameFieldKey := key;
      var field := LookupRenameMeta(key, collection, relationsFor, getField);
      if field.Some? && field.value.name != "" {
        originalFieldName := field.value.name;
      } else {
        originalFieldName := formatTitle(if ':' in key then BeforeFirst(key, ':') else key);
      }
      if key in customFieldNames && customFieldNames[key] != "" {
        renameFieldValue := customFieldNames[key];
      } else {
        renameFieldValue := originalFieldName;
      }
      showRenameDialog := true;
    }

    /** `resetToOriginal()` */
    method ResetToOriginal()
      modifies this
      ensures renameFieldValue == old(originalFieldName)
      ensures fields == old(fields) && layout == old(layout) && customFieldNames == old(customFieldNames)
      ensures showRenameDialog == old(showRenameDialog) && renameFieldKey == old(renameFieldKey)
      ensures originalFieldName == old(originalFieldName)
      ensures showLanguageDialog == old(showLanguageDialog)
      ensures pendingTranslationField == old(pendingTranslationField)
      ensures selectedLanguagesForField == old(selectedLanguagesForField)
    {
      renameFieldValue := originalFieldName;
    }

    /** `cancelRename()` */
    method CancelRename()
      modifies this
      ensures RenameCleared()
      ensures fields == old(fields) && layout == old(layout) && customFieldNames == old(customFieldNames)
      ensures showLanguageDialog == old(showLanguageDialog)
      ensures pendingTranslationField == old(pendingTranslationField)
      ensures selectedLanguagesForField == old(selectedLanguagesForField)
    {
      showRenameDialog := false;
      renameFieldKey := "";
      renameFieldValue := "";
      originalFieldName := "";
    }

    /** `confirmRename()`: with a value and a key, store the value as the key's custom name,
        or drop the custom name when the value is the original name, and persist a copy in
        the layout options; then clear the dialog. */
    method ConfirmRename()
      modifies this
      ensures customFieldNames == RenamedNames(old(customFieldNames), old(renameFieldKey),
                                               old(renameFieldValue), old(originalFieldName))
      ensures old(renameFieldValue) != "" && old(renameFieldKey) != "" ==>
        layout == old(layout).(customFieldNames := Some(customFieldNames))
      ensures !(old(renameFieldValue) != "" && old(renameFieldKey) != "") ==> layout == old(layout)
      ensures RenameCleared()
      ensures fields == old(fields)
      ensures showLanguageDialog == old(showLanguageDialog)
      ensures pendingTranslationField == old(pendingTranslationField)
      ensures selectedLanguagesForField == old(selectedLanguagesForField)
    {
      if renameFieldValue != "" && renameFieldKey != "" {
        if renameFieldValue == originalFieldName {
          customFieldNames := customFieldNames - {renameFieldKey};
        } else {
          customFieldNames := customFieldNames[renameFieldKey := renameFieldValue];
        }
        layout := layout.(customFieldNames := Some(customFieldNames));
      }
      CancelRename();
    }

    /** `showLanguageSelectionForField(field)`, with the field given by its key. */
    method ShowLanguageSelectionForField(fieldKey: string)
      modifies this
      ensures pendingTranslationField == Some(fieldKey) && selectedLanguagesForField == []
      ensures showLanguageDialog
      ensures fields == old(fields) && layout == old(layout) && customFieldNames == old(customFieldNames)
      ensures showRenameDialog == old(showRenameDialog) && renameFieldKey == old(renameFieldKey)
      ensures renameFieldValue == old(renameFieldValue) && originalFieldName == old(originalFieldName)
    {
      pendingTranslationField := Some(fieldKey);
      selectedLanguagesForField := [];
      showLanguageDialog := true;
    }

    /** `cancelLanguageSelection()` */
    method CancelLanguageSelection()
      modifies this
      ensures LanguageCleared()
      ensures fields == old(fields) && layout == old(layout) && customFieldNames == old(customFieldNames)
      ensures showRenameDialog == old(showRenameDialog) && renameFieldKey == old(renameFieldKey)
      ensures renameFieldValue == old(renameFieldValue) && originalFieldName == old(originalFieldName)
    {
      showLanguageDialog := false;
      pendingTranslationField := None;
      selectedLanguagesForField := [];
    }

    /** `confirmLanguageSelection()`: with a pending field and a selection, append the
        missing `base:code` columns; then clear the dialog. */
    method ConfirmLanguageSelection()
      modifies this
      ensures old(pendingTranslationField).Some? && |old(selectedLanguagesForField)| > 0 ==>
        fields == WithLanguageColumns(old(fields), old(pendingTranslationField).value, old(selectedLanguagesForField))
      ensures !(old(pendingTranslationField).Some? && |old(selectedLanguagesForField)| > 0) ==>
        fields == old(fields)
      ensures LanguageCleared()
      ensures layout == old(layout) && customFieldNames == old(customFieldNames)
      ensures showRenameDialog == old(showRenameDialog) && renameFieldKey == old(renameFieldKey)
      ensures renameFieldValue == old(renameFieldValue) && originalFieldName == old(originalFieldName)
    {
      if pendingTranslationField.Some? && |selectedLanguagesForField| > 0 {
        var newFields := AppendLanguageColumns(fields, pendingTranslationField.value, selectedLanguagesForField);
        fields := newFields;
      }
      CancelLanguageSelection();
    }

    /** `toggleField(field)`: drop every occurrence of a shown key together with its custom
        name, or append a key that is not shown. */
    method ToggleField(key: string)
      modifies this
      ensures key in old(fields) ==>
        fields == Without(old(fields), key) && customFieldNames == old(customFieldNames) - {key}
      ensures key !in old(fields) ==>
        fields == old(fields) + [key] && customFieldNames == old(customFieldNames)
      ensures layout == old(layout)
      ensures showRenameDialog == old(showRenameDialog) && renameFieldKey == old(renameFieldKey)
      ensures renameFieldValue == old(renameFieldValue) && originalFieldName == old(originalFieldName)
      ensures showLanguageDialog == old(showLanguageDialog)
      ensures pendingTranslationField == old(pendingTranslationField)
      ensures selectedLanguagesForField == old(selectedLanguagesForField)
    {
      if key in fields {
        fields := Without(fields, key);
        customFieldNames := customFieldNames - {key};
      } else {
        fields := fields + [key];
      }
    }

    /** `removeField(key)` */
    method RemoveField(key: string)
      modifies this
      ensures fields == Without(old(fields), key) && customFieldNames == old(customFieldNames) - {key}
      ensures layout == old(layout)
      ensures showRenameDialog == old(showRenameDialog) && renameFieldKey == old(renameFieldKey)
      ensures renameFieldValue == old(renameFieldValue) && originalFieldName == old(originalFieldName)
      ensures showLanguageDialog == old(showLanguageDialog)
      ensures pendingTranslationField == old(pendingTranslationField)
      ensures selectedLanguagesForField == old(selectedLanguagesForField)
    {
      fields := Without(fields, key);
      customFieldNames := customFieldNames - {key};
    }
  }

  /** The custom names after `confirmRename` with the dialog's key, value and original name. */
  function RenamedNames(custom: map<string, string>, key: string, value: string, original: string): (r: map<string, string>)
    ensures value != "" && key != "" && value != original ==> key in r && r[key] == value
    ensures value != "" && key != "" && value == original ==> key !in r
    ensures forall k :: k != key ==> (k in r <==> k in custom) && (k in r ==> r[k] == custom[k])
    ensures !(value != "" && key != "") ==> r == custom
  {
    if value != "" && key != "" then
      if value == original then custom - {key} else custom[key := value]
    else custom
  }

  /** After a rename the column shows the new name, or its default name again when the new
      name is the original one; other columns are not affected. */
  lemma RenameShowsName(custom: map<string, string>, fs: seq<CollectionField>, key: string,
                        value: string, original: string, other: string)
    requires value != "" && key != ""
    ensures value != original ==> GetFieldName(RenamedNames(custom, key, value, original), fs, key) == value
    ensures value == original ==>
      GetFieldName(RenamedNames(custom, key, value, original), fs, key) == GetFieldName(map[], fs, key)
    ensures other != key ==>
      GetFieldName(RenamedNames(custom, key, value, original), fs, other) == GetFieldName(custom, fs, other)
  {
  }

  /** Toggling a key that is not shown twice restores the columns. */
  lemma ToggleAbsentTwice(fields: seq<string>, key: string)
    requires key !in fields
    ensures key in fields + [key]
    ensures Without(fields + [key], key) == fields
  {
    WithoutKeepsOrder(fields, [key], key);
  }

  /** The metadata lookups of `renameField`. */
  method LookupRenameMeta(key: string, collection: string, relationsFor: (string, string) -> seq<Relation>,
                          getField: (string, string) -> Option<FieldMeta>) returns (field: Option<FieldMeta>)
    ensures field == RenameMeta(key, collection, relationsFor, getField)
  {
    field := getField(collection, key);
    if ':' in key {
      var actual := BeforeFirst(key, ':');
      field := getField(collection, actual);
      if StartsWith(actual, "translations.") && field.None? {
        var t := TranslationFieldMetadata(actual, collection, relationsFor, getField);
        if t.Some? {
          field := t;
        }
      }
    }
  }

  /** The `forEach` of `confirmLanguageSelection`. */
  method AppendLanguageColumns(fields: seq<string>, base: string, codes: seq<string>) returns (newFields: seq<string>)
    ensures newFields == WithLanguageColumns(fields, base, codes)
  {
    newFields := fields;
    var i := 0;
    while i < |codes|
      invariant 0 <= i <= |codes|
      invariant newFields == WithLanguageColumns(fields, base, codes[..i])
    {
      var fieldWithLang := base + ":" + codes[i];
      assert codes[..i + 1][..i] == codes[..i];
      if fieldWithLang !in newFields {
        newFields := newFields + [fieldWithLang];
      }
      i := i + 1;
    }
    assert codes[..i] == codes;
  }
}
