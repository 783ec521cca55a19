/** The records the table layout exchanges with its host: quick-filter presets, the
    persisted layout options, the query the layout drives, languages, and pending edits. */
module TableTypes {
  import opened Options
  import opened Json
  import opened OrderedMaps

  /** A stored quick-filter preset. */
  datatype QuickFilter = QuickFilter(
    id: string,
    name: string,
    filter: Json,
    description: Option<string>,
    icon: Option<string>,
    color: Option<string>,
    isPinned: Option<bool>,
    order: Option<int>)

  datatype Spacing = Compact | Cozy | Comfortable

  datatype Alignment = Left | Center | Right

  /** The options the layout persists through the host. */
  datatype LayoutOptions = LayoutOptions(
    showToolbar: Option<bool>,
    showSelect: Option<bool>,
    spacing: Option<Spacing>,
    widths: Option<map<string, int>>,
    align: Option<map<string, Alignment>>,
    customFieldNames: Option<map<string, string>>,
    selectedLanguage: Option<string>,
    autoSave: Option<bool>,
    editMode: Option<bool>,
    quickFilters: Option<seq<QuickFilter>>,
    activeQuickFilterId: Option<string>)

  /** Layout options with every key absent. */
  const NoLayoutOptions: LayoutOptions :=
    LayoutOptions(None, None, None, None, None, None, None, None, None, None, None)

  /** The query the layout drives; `extra` holds every other key (filter, search, ...). */
  datatype LayoutQuery = LayoutQuery(
    page: Option<int>,
    limit: Option<int>,
    sort: Option<seq<string>>,
    fields: Option<seq<string>>,
    extra: map<string, Json>)

  /** The host's `layoutQuery` ref, which the sort and pagination setters overwrite. */
  class LayoutQueryRef {
    var value: LayoutQuery

    constructor (q: LayoutQuery)
      ensures value == q
    {
      value := q;
    }
  }

  datatype Language = Language(code: string, name: string)

  /** The metadata an inline editor attaches to a value destined for a translation row. */
  datatype TranslationUpdate = TranslationUpdate(
    isTranslation: bool,
    language: string,
    translationField: string,
    value: Json)

  /** A pending value: a plain JSON value or a translation update. */
  datatype EditValue = Plain(v: Json) | Translation(update: TranslationUpdate)

  /** The JSON value an edit becomes when copied into a payload as a regular field. */
  function EditAsJson(e: EditValue): Json {
    match e
    case Plain(v) => v
    case Translation(u) => UpdateAsJson(u)
  }

  /** `typeof value === 'object' && value?.isTranslation`: an object whose `isTranslation`
      member is truthy (an array is an object too, but has no such member). */
  predicate IsTranslationValue(j: Json) {
    j.JObj? && Get(j.members, "isTranslation").Some? && Truthy(Get(j.members, "isTranslation").value)
  }

  /** The edit is routed into the translations relation; decided on the value it is,
      whichever way it was recorded. */
  predicate IsTranslationEdit(e: EditValue) {
    IsTranslationValue(EditAsJson(e))
  }

  /** A string member of an object, or the empty string when absent or not a string. */
  function StringMember(j: Json, key: string): (s: string)
    ensures j.JObj? && Get(j.members, key).Some? && Get(j.members, key).value.JStr? ==>
      s == Get(j.members, key).value.s
  {
    if j.JObj? && Get(j.members, key).Some? && Get(j.members, key).value.JStr? then
      Get(j.members, key).value.s
    else ""
  }

  /** The update an edit describes: its own, or the one read off the members of a plain
      object (`value.language`, `value.translationField`, `value.value`). */
  function UpdateOf(e: EditValue): (u: TranslationUpdate)
    ensures e.Translation? ==> u == e.update
    ensures IsTranslationEdit(e) ==> u.isTranslation
    ensures e.Plain? && e.v.JObj? && Get(e.v.members, "value").Some? ==> u.value == Get(e.v.members, "value").value
  {
    match e
    case Translation(u) => u
    case Plain(v) =>
      TranslationUpdate(IsTranslationValue(v), StringMember(v, "language"),
                        StringMember(v, "translationField"),
                        if v.JObj? && Get(v.members, "value").Some? then Get(v.members, "value").value else JNull)
  }

  /** The object a translation update is when it is written as a regular value. */
  function UpdateAsJson(u: TranslationUpdate): Json {
    JObj([("isTranslation", JBool(u.isTranslation)), ("language", JStr(u.language)),
          ("translationField", JStr(u.translationField)), ("value", u.value)])
  }


  /** Pending values of one item, by field. */
  type EditValues = OMap<EditValue>

  /** Pending values by item id (item ids are record keys, hence strings). */
  type Edits = OMap<EditValues>

  /** A translation update is recognised by its value: it is routed exactly when its flag
      is set. */
  lemma TranslationEditByValue(u: TranslationUpdate)
    ensures IsTranslationEdit(Translation(u)) <==> u.isTranslation
    ensures UpdateOf(Translation(u)) == u
  {
    var j := UpdateAsJson(u);
    UpdateAsJsonMembers(u);
    assert EditAsJson(Translation(u)) == j;
    assert IsTranslationValue(j) <==> Truthy(JBool(u.isTranslation));
  }

  /** The four members of a translation update written as an object. */
  lemma UpdateAsJsonMembers(u: TranslationUpdate)
    ensures Get(UpdateAsJson(u).members, "isTranslation") == Some(JBool(u.isTranslation))
    ensures Get(UpdateAsJson(u).members, "language") == Some(JStr(u.language))
    ensures Get(UpdateAsJson(u).members, "translationField") == Some(JStr(u.translationField))
    ensures Get(UpdateAsJson(u).members, "value") == Some(u.value)
  {
    var m3: seq<(string, Json)> := [("value", u.value)];
    var m2 := [("translationField", JStr(u.translationField))] + m3;
    var m1 := [("language", JStr(u.language))] + m2;
    var m := [("isTranslation", JBool(u.isTranslation))] + m1;
    assert UpdateAsJson(u).members == m;
    assert |"isTranslation"| == 13 && |"language"| == 8 && |"translationField"| == 16 && |"value"| == 5;
    GetCons("isTranslation", JBool(u.isTranslation), m1, "isTranslation");
    GetCons("isTranslation", JBool(u.isTranslation), m1, "language");
    GetCons("language", JStr(u.language), m2, "language");
    GetCons("isTranslation", JBool(u.isTranslation), m1, "translationField");
    GetCons("language", JStr(u.language), m2, "translationField");
    GetCons("translationField", JStr(u.translationField), m3, "translationField");
    GetCons("isTranslation", JBool(u.isTranslation), m1, "value");
    GetCons("language", JStr(u.language), m2, "value");
    GetCons("translationField", JStr(u.translationField), m3, "value");
    GetCons("value", u.value, [], "value");
  }

  /** Written out as a plain object, a translation update reads back as itself. */
  lemma PlainUpdateReadsBack(u: TranslationUpdate)
    ensures IsTranslationEdit(Plain(UpdateAsJson(u))) <==> u.isTranslation
    ensures UpdateOf(Plain(UpdateAsJson(u))) == u
  {
    var j := UpdateAsJson(u);
    assert IsTranslationValue(j) == u.isTranslation by { UpdateAsJsonMembers(u); }
    assert StringMember(j, "language") == u.language by { UpdateAsJsonMembers(u); }
    assert StringMember(j, "translationField") == u.translationField by { UpdateAsJsonMembers(u); }
    assert Get(j.members, "value") == Some(u.value) by { UpdateAsJsonMembers(u); }
  }
}
