/** Quick-filter presets and the filter the table applies. Presets are stored in the layout
    options together with the id of the one active preset; the active preset's filter (the
    quick filter) and the filter built in the filter UI (the manual filter) are combined with
    `and` or `or`. Chips show the active preset and every manual condition.

    The layout options are written through the host, which here takes effect at once; a
    watcher on the active ids rebuilds the quick filter after every such write, so each
    write is followed by a rebuild. */
module FilterPresets {
  import opened Strings
  import opened Options
  import opened Json
  import opened TableTypes

  datatype Logic = And | Or

  datatype ChipSource = Quick | Manual

  /** A chip above the table; `text` is its label. */
  datatype FilterChip = FilterChip(
    id: string,
    text: string,
    field: Option<string>,
    operator: Option<string>,
    value: Option<Json>,
    source: ChipSource,
    filter: Option<Json>,
    presetId: Option<string>)

  /** `allPresets`: the stored presets, none when the options have no list. */
  function AllPresets(layout: LayoutOptions): (r: seq<QuickFilter>)
    ensures layout.quickFilters.None? ==> r == []
    ensures layout.quickFilters.Some? ==> r == layout.quickFilters.value
  {
    layout.quickFilters.GetOr([])
  }

  /** `activePresetIds`: the active id as a one-element list, or `[]` when it is absent or
      empty. */
  function ActivePresetIds(layout: LayoutOptions): (ids: seq<string>)
    ensures |ids| <= 1
    ensures |ids| == 1 <==> layout.activeQuickFilterId.Some? && layout.activeQuickFilterId.value != ""
    ensures |ids| == 1 ==> ids[0] == layout.activeQuickFilterId.value
  {
    match layout.activeQuickFilterId
    case Some(id) => if id != "" then [id] else []
    case None => []
  }

  /** The active-id write the `activePresetIds` setter makes. */
  function WithActiveIds(layout: LayoutOptions, ids: seq<string>): LayoutOptions {
    layout.(activeQuickFilterId := if |ids| > 0 then Some(ids[0]) else None)
  }

  /** The presets whose id is listed, in preset order. */
  function PresetsWithIds(presets: seq<QuickFilter>, ids: seq<string>): (r: seq<QuickFilter>)
    ensures |r| <= |presets|
    ensures forall p :: p in r <==> p in presets && p.id in ids
  {
    if |presets| == 0 then []
    else if presets[0].id in ids then [presets[0]] + PresetsWithIds(presets[1..], ids)
    else PresetsWithIds(presets[1..], ids)
  }

  /** No preset is picked when none has a listed id. */
  lemma NoneWithIds(presets: seq<QuickFilter>, ids: seq<string>)
    requires forall p :: p in presets ==> p.id !in ids
    ensures PresetsWithIds(presets, ids) == []
  {
    if |presets| > 0 {
      assert presets[0] in presets;
      NoneWithIds(presets[1..], ids);
    }
  }

  function Filters(presets: seq<QuickFilter>): (r: seq<Json>)
    ensures |r| == |presets|
    ensures forall i :: 0 <= i < |r| ==> r[i] == presets[i].filter
  {
    seq(|presets|, i requires 0 <= i < |presets| => presets[i].filter)
  }

  /** The quick filter `rebuildQuickFilters` derives from the options. */
  function QuickFilterFor(layout: LayoutOptions): Json {
    var ids := ActivePresetIds(layout);
    if |ids| == 0 then Empty
    else
      var active := PresetsWithIds(AllPresets(layout), ids);
      if |active| == 0 then Empty
      else if |active| == 1 then active[0].filter
      else JObj([("_and", JArr(Filters(active)))])
  }

  /** The quick filter is `{}` without an active preset or without a preset of that id, the
      preset's filter for exactly one match, and the conjunction of all matches in preset
      order otherwise. */
  lemma QuickFilterCases(layout: LayoutOptions)
    ensures ActivePresetIds(layout) == [] ==> QuickFilterFor(layout) == Empty
    ensures forall id :: ActivePresetIds(layout) == [id] ==>
      var matches := PresetsWithIds(AllPresets(layout), [id]);
      && (|matches| == 0 ==> QuickFilterFor(layout) == Empty)
      && (|matches| == 1 ==> QuickFilterFor(layout) == matches[0].filter)
      && (|matches| > 1 ==> QuickFilterFor(layout) == JObj([("_and", JArr(Filters(matches)))]))
      && (forall p :: p in matches <==> p in AllPresets(layout) && p.id == id)
  {
  }

  /** `mergedFilters`: none when both filters are empty, the non-empty one when only one
      is set, and otherwise both under the chosen connective, quick filter first. */
  function MergedFilters(quick: Json, manual: Json, logic: Logic): (r: Option<Json>)
    ensures KeyCount(quick) == 0 && KeyCount(manual) == 0 ==> r == None
    ensures KeyCount(quick) > 0 && KeyCount(manual) == 0 ==> r == Some(quick)
    ensures KeyCount(quick) == 0 && KeyCount(manual) > 0 ==> r == Some(manual)
    ensures KeyCount(quick) > 0 && KeyCount(manual) > 0 ==>
      r == Some(JObj([(if logic == Or then "_or" else "_and", JArr([quick, manual]))]))
  {
    var filters := (if KeyCount(quick) > 0 then [quick] else []) + (if KeyCount(manual) > 0 then [manual] else []);
    assert KeyCount(quick) > 0 && KeyCount(manual) > 0 ==> filters == [quick, manual];
    if |filters| == 0 then None
    else if |filters| == 1 then Some(filters[0])
    else if logic == Or then Some(JObj([("_or", JArr(filters))]))
    else Some(JObj([("_and", JArr(filters))]))
  }

  /** `presets.find(p => p.id === id)` */
  function FindPreset(presets: seq<QuickFilter>, id: string): (r: Option<QuickFilter>)
    ensures r.Some? ==> r.value in presets && r.value.id == id
    ensures r.None? ==> forall p :: p in presets ==> p.id != id
    ensures r.Some? ==>
      exists i :: 0 <= i < |presets| && presets[i] == r.value && forall j :: 0 <= j < i ==> presets[j].id != id
  {
    if |presets| == 0 then None
    else if presets[0].id == id then Some(presets[0])
    else FindPreset(presets[1..], id)
  }

  /** `quickFilterChips`: a chip for the active preset when a preset has that id. */
  function QuickFilterChips(layout: LayoutOptions): (chips: seq<FilterChip>)
    ensures |chips| <= 1
    ensures |chips| == 1 <==>
      exists p :: p in AllPresets(layout) && ActivePresetIds(layout) == [p.id]
    ensures |chips| == 1 ==>
      && ActivePresetIds(layout) == [chips[0].id]
      && FindPreset(AllPresets(layout), chips[0].id).Some?
      && chips[0] == QuickChip(FindPreset(AllPresets(layout), chips[0].id).value)
  {
    var ids := ActivePresetIds(layout);
    if |ids| == 0 then []
    else
      match FindPreset(AllPresets(layout), ids[0])
      case None => []
      case Some(p) => [FilterChip(ids[0], p.name, None, None, None, Quick, Some(p.filter), Some(p.id))]
  }

  /** The chip of an active preset: its name as label, its filter, and its id twice. */
  function QuickChip(p: QuickFilter): FilterChip {
    FilterChip(p.id, p.name, None, None, None, Quick, Some(p.filter), Some(p.id))
  }

  /** `${field}-${operator}` */
  function ChipId(field: string, operator: string): string {
    field + "-" + operator
  }

  /** The chip for one manual condition. */
  function ManualChip(field: string, operator: string, value: Json): FilterChip {
    FilterChip(ChipId(field, operator), FormatFilterLabel(field, operator, value), Some(field),
               Some(operator), Some(value), Manual, None, None)
  }

  /** The chips for the first `|conds|` operator entries of a field, in order. */
  function ConditionChips(field: string, conds: seq<(string, Json)>): (r: seq<FilterChip>)
    ensures |r| == |conds|
    ensures forall i :: 0 <= i < |r| ==> r[i] == ManualChip(field, conds[i].0, conds[i].1)
    decreases |conds|
  {
    if |conds| == 0 then []
    else
      var init := conds[..|conds| - 1];
      var last := conds[|conds| - 1];
      assert forall i :: 0 <= i < |init| ==> init[i] == conds[i];
      ConditionChips(field, init) + [ManualChip(field, last.0, last.1)]
  }

  /** The chips of one field: one per operator entry when the conditions are an object or an
      array, none otherwise. */
  function FieldChips(field: string, conditions: Json): seq<FilterChip> {
    if IsObjectLike(conditions) then ConditionChips(field, Entries(conditions)) else []
  }

  /** The chips of the first `|entries|` fields, in order. */
  function EntriesChips(entries: seq<(string, Json)>): seq<FilterChip>
    decreases |entries|
  {
    if |entries| == 0 then []
    else EntriesChips(entries[..|entries| - 1]) + FieldChips(entries[|entries| - 1].0, entries[|entries| - 1].1)
  }

  /** The chips `manualFilterChips` lists for a manual filter. */
  function ManualChips(manual: Json): seq<FilterChip> {
    EntriesChips(Entries(manual))
  }

  /** `manualFilterChips`: one chip per operator of every object-valued condition, fields
      in order and operators in order within a field. */
  method ManualFilterChips(manual: Json) returns (chips: seq<FilterChip>)
    ensures chips == ManualChips(manual)
  {
    chips := [];
    var entries := Entries(manual);
    var i := 0;
    while i < |entries|
      invariant 0 <= i <= |entries|
      invariant chips == EntriesChips(entries[..i])
    {
      chips := AppendFieldChips(chips, entries[i].0, entries[i].1);
      assert entries[..i + 1][..i] == entries[..i];
      i := i + 1;
    }
    assert entries[..i] == entries;
  }

  /** One more operator entry adds its chip at the end. */
  lemma ConditionChipsSnoc(field: string, conds: seq<(string, Json)>, j: nat)
    requires j < |conds|
    ensures ConditionChips(field, conds[..j + 1]) == ConditionChips(field, conds[..j]) + [ManualChip(field, conds[j].0, conds[j].1)]
  {
    assert conds[..j + 1][..j] == conds[..j];
  }

  /** The inner loop over one field's conditions. */
  method AppendFieldChips(chips: seq<FilterChip>, field: string, conditions: Json)
    returns (r: seq<FilterChip>)
    ensures r == chips + FieldChips(field, conditions)
  {
    r := chips;
    if !IsObjectLike(conditions) {
      return;
    }
    var conds := Entries(conditions);
    var j := 0;
    while j < |conds|
      invariant 0 <= j <= |conds|
      invariant r == chips + ConditionChips(field, conds[..j])
    {
      ConditionChipsSnoc(field, conds, j);
      r := r + [ManualChip(field, conds[j].0, conds[j].1)];
      j := j + 1;
    }
    assert conds[..j] == conds;
  }

  /** What a manual chip carries: its field, operator and value, the label made from them,
      and the id joining field and operator with `-`. */
  predicate IsConditionChip(c: FilterChip) {
    && c.source == Manual && c.field.Some? && c.operator.Some? && c.value.Some?
    && c.filter.None? && c.presetId.None?
    && c.id == ChipId(c.field.value, c.operator.value)
    && c.text == FormatFilterLabel(c.field.value, c.operator.value, c.value.value)
  }

  /** Every chip of the manual filter is a condition chip. */
  lemma {:induction false} ManualChipsShape(entries: seq<(string, Json)>)
    ensures forall i :: 0 <= i < |EntriesChips(entries)| ==> IsConditionChip(EntriesChips(entries)[i])
    decreases |entries|
  {
    if |entries| > 0 {
      ManualChipsShape(entries[..|entries| - 1]);
    }
  }

  /** A filter with one field holding one condition shows exactly that condition's chip. */
  lemma SingleConditionChip(field: string, operator: string, value: Json)
    ensures ManualChips(JObj([(field, JObj([(operator, value)]))])) == [ManualChip(field, operator, value)]
  {
    var entries := [(field, JObj([(operator, value)]))];
    assert Entries(JObj(entries)) == entries;
    assert entries[..0] == [];
    assert EntriesChips(entries) == FieldChips(field, JObj([(operator, value)]));
    var conds := [(operator, value)];
    assert Entries(JObj(conds)) == conds;
    assert conds[..0] == [];
    assert ConditionChips(field, conds) == [ManualChip(field, operator, value)];
  }

  /** `chipId.split('-')`, the field and the operator as the remover reads them; `""`
      stands for a missing piece. */
  function ChipField(chipId: string): (r: string)
    ensures '-' !in r && StartsWith(chipId, r)
    ensures '-' !in chipId ==> r == chipId
  {
    var parts := Split(chipId, '-');
    JoinHead(parts, '-');
    parts[0]
  }

  function ChipOperator(chipId: string): (r: string)
    ensures '-' !in r
    ensures '-' !in chipId ==> r == ""
  {
    var parts := Split(chipId, '-');
    if |parts| > 1 then parts[1] else ""
  }

  /** A chip id is read back as its field and operator when neither contains `-`. */
  lemma ChipIdRoundTrip(field: string, operator: string)
    requires '-' !in field && '-' !in operator
    ensures ChipField(ChipId(field, operator)) == field
    ensures ChipOperator(ChipId(field, operator)) == operator
  {
    assert Join([field, operator], '-') == ChipId(field, operator);
    SplitJoin([field, operator], '-');
  }

  /** A field name containing `-` is misread: the chip of `first-name` with `_eq` is read as
      field `first` and operator `name`. */
  lemma HyphenatedFieldMisread()
    ensures ChipField(ChipId("first-name", "_eq")) == "first"
    ensures ChipOperator(ChipId("first-name", "_eq")) == "name"
  {
    assert Join(["first", "name", "_eq"], '-') == ChipId("first-name", "_eq");
    SplitJoin(["first", "name", "_eq"], '-');
  }

  /** So the condition behind that chip survives the chip-id removal ... */
  lemma HyphenatedConditionKept(value: Json)
    ensures var manual := JObj([("first-name", JObj([("_eq", value)]))]);
      WithoutCondition(manual, ChipField(ChipId("first-name", "_eq")), ChipOperator(ChipId("first-name", "_eq")))
        == manual
  {
    HyphenatedFieldMisread();
    assert "first" != "first-name";
  }

  /** ... while removal by the chip's own field and operator takes it out. */
  lemma HyphenatedConditionRemoved(value: Json)
    ensures WithoutCondition(JObj([("first-name", JObj([("_eq", value)]))]), "first-name", "_eq") == JObj([])
  {
  }

  /** The manual filter without operator `operator` of field `field`, dropping the field once
      no operator is left; unchanged unless the field's conditions are an object holding that
      operator (an empty operator never matches). */
  function WithoutCondition(manual: Json, field: string, operator: string): (r: Json)
    ensures r.JObj? == manual.JObj?
    ensures !manual.JObj? ==> r == manual
  {
    if !manual.JObj? then manual
    else
      match Get(manual.members, field)
      case None => manual
      case Some(conditions) =>
        if conditions.JObj? && operator != "" && Get(conditions.members, operator).Some? then
          var rest := Remove(conditions.members, operator);
          if |rest| == 0 then JObj(Remove(manual.members, field))
          else JObj(Put(manual.members, field, JObj(rest)))
        else manual
  }

  /** The field's conditions are an object holding the operator: only then is there
      something to remove. */
  predicate HoldsCondition(members: seq<(string, Json)>, field: string, operator: string) {
    && Get(members, field).Some? && Get(members, field).value.JObj? && operator != ""
    && Get(Get(members, field).value.members, operator).Some?
  }

  /** On an object with distinct keys, removal takes the operator out of the field's
      conditions, drops the field when none is left, and touches no other field; it does
      nothing when the field does not hold the operator. */
  lemma WithoutConditionFacts(members: seq<(string, Json)>, field: string, operator: string)
    requires DistinctKeys(members)
    ensures var r := WithoutCondition(JObj(members), field, operator);
      && DistinctKeys(r.members)
      && (forall g :: g != field ==> Get(r.members, g) == Get(members, g))
      && (HoldsCondition(members, field, operator) ==>
            var rest := Remove(Get(members, field).value.members, operator);
            && operator !in KeysOf(rest)
            && Get(r.members, field) == (if |rest| == 0 then None else Some(JObj(rest))))
      && (!HoldsCondition(members, field, operator) ==> r == JObj(members))
  {
    if HoldsCondition(members, field, operator) {
      var rest := Remove(Get(members, field).value.members, operator);
      if |rest| == 0 {
        RemoveKeepsOthers(members, field);
      } else {
        GetAfterPut(members, field, JObj(rest));
        GetPut(members, field, JObj(rest));
      }
    }
  }

  /** The label table of `formatFilterLabel`. */
  function OperatorLabel(operator: string): (r: Option<string>)
    ensures r.Some? ==> |operator| > 1 && operator[0] == '_' && r.value != ""
  {
    match operator
    case "_eq" => Some("equals")
    case "_neq" => Some("not equals")
    case "_contains" => Some("contains")
    case "_ncontains" => Some("does not contain")
    case "_starts_with" => Some("starts with")
    case "_ends_with" => Some("ends with")
    case "_gt" => Some("greater than")
    case "_gte" => Some("greater than or equal")
    case "_lt" => Some("less than")
    case "_lte" => Some("less than or equal")
    case "_in" => Some("is one of")
    case "_nin" => Some("is not one of")
    case "_between" => Some("is between")
    case "_nbetween" => Some("is not between")
    case "_empty" => Some("is empty")
    case "_nempty" => Some("is not empty")
    case "_null" => Some("is null")
    case "_nnull" => Some("is not null")
    case _ => None
  }

  /** The value as the label shows it: dynamic variables in words, booleans as yes/no. */
  function FormatValue(value: Json): (r: string)
    ensures value.JStr? && StartsWith(value.s, "$NOW") ==> r == "now" + value.s[4..]
    ensures value.JStr? && !StartsWith(value.s, "$NOW") && value.s != "$CURRENT_USER" ==> r == value.s
    ensures value == JStr("$CURRENT_USER") ==> r == "current user"
    ensures value.JBool? ==> r == (if value.b then "yes" else "no")
  {
    assert !StartsWith("$CURRENT_USER", "$NOW") by { assert "$CURRENT_USER"[1] != "$NOW"[1]; }
    if value == JStr("$NOW") then "now"
    else if value.JStr? && StartsWith(value.s, "$NOW") then "now" + value.s[4..]
    else if value == JStr("$CURRENT_USER") then "current user"
    else if value.JBool? then (if value.b then "yes" else "no")
    else Render(value)
  }

  /** Every value that is neither a string nor a boolean is shown as a template literal
      renders it. */
  lemma FormatValueRendersOthers(value: Json)
    requires !value.JStr? && !value.JBool?
    ensures FormatValue(value) == Render(value)
  {
  }

  /** `word.charAt(0).toUpperCase() + word.slice(1)` */
  function Capitalize(word: string): (r: string)
    ensures |r| == |word|
    ensures |word| > 0 ==> r[0] == UpperChar(word[0]) && r[1..] == word[1..]
  {
    if word == "" then "" else [UpperChar(word[0])] + word[1..]
  }

  function CapitalizeAll(words: seq<string>): (r: seq<string>)
    ensures |r| == |words|
    ensures forall i :: 0 <= i < |r| ==> r[i] == Capitalize(words[i])
  {
    seq(|words|, i requires 0 <= i < |words| => Capitalize(words[i]))
  }

  /** The field as the label shows it: split at `_`, each word capitalised, joined with spaces. */
  function TitleCase(field: string): string {
    Join(CapitalizeAll(Split(field, '_')), ' ')
  }

  /** Title case character by character: `_` becomes a space and a letter at the start or
      right after `_` is upper-cased. */
  function TitleCaseByChar(field: string): (r: string)
    ensures |r| == |field|
  {
    seq(|field|, i requires 0 <= i < |field| =>
      if field[i] == '_' then ' '
      else if i == 0 || field[i - 1] == '_' then UpperChar(field[i])
      else field[i])
  }

  /** Without `_`, title case capitalises the one word. */
  lemma ByCharOneWord(word: string)
    requires '_' !in word
    ensures TitleCaseByChar(word) == Capitalize(word)
  {
    var r := TitleCaseByChar(word);
    if |word| > 0 {
      assert forall i :: 0 <= i < |word| ==> word[i] != '_';
      assert r[0] == UpperChar(word[0]);
      assert r[1..] == word[1..];
    }
  }

  /** Title case of `head_rest` with no `_` in `head` is the capitalised head, a space and
      the title case of `rest`. */
  lemma ByCharSplit(head: string, rest: string)
    requires '_' !in head
    ensures TitleCaseByChar(head + "_" + rest) == Capitalize(head) + " " + TitleCaseByChar(rest)
  {
    var field := head + "_" + rest;
    var k := |head|;
    var r := TitleCaseByChar(field);
    var rr := TitleCaseByChar(rest);
    ByCharOneWord(head);
    assert r[..k] == TitleCaseByChar(head);
    assert r[k] == ' ';
    forall i | k + 1 <= i < |field|
      ensures r[i] == rr[i - k - 1]
    {
      assert field[i] == rest[i - k - 1];
      if i > k + 1 {
        assert field[i - 1] == rest[i - k - 2];
      }
    }
    assert r[k + 1..] == rr;
    assert r == r[..k] + [r[k]] + r[k + 1..];
  }

  /** Title case of `head_rest` with no `_` in `head`, by the split-capitalise-join. */
  lemma TitleCaseCons(head: string, rest: string)
    requires '_' !in head
    ensures TitleCase(head + "_" + rest) == Capitalize(head) + " " + TitleCase(rest)
  {
    var parts := Split(rest, '_');
    SplitCons(head, '_', rest);
    var caps := CapitalizeAll([head] + parts);
    assert caps == [Capitalize(head)] + CapitalizeAll(parts);
    JoinCons(Capitalize(head), CapitalizeAll(parts), ' ');
  }

  /** The split-capitalise-join of the source agrees with the character-wise description. */
  lemma {:induction false} TitleCaseIsByChar(field: string)
    ensures TitleCase(field) == TitleCaseByChar(field)
    decreases |field|
  {
    if '_' !in field {
      ByCharOneWord(field);
    } else {
      var k := IndexOf(field, '_');
      var head := field[..k];
      var rest := field[k + 1..];
      assert field == head + "_" + rest;
      TitleCaseCons(head, rest);
      TitleCaseIsByChar(rest);
      ByCharSplit(head, rest);
    }
  }

  /** The operators whose label has no value part. */
  predicate OmitsValue(operator: string) {
    operator == "_empty" || operator == "_nempty" || operator == "_null" || operator == "_nnull"
  }

  /** `formatFilterLabel(field, operator, value)` */
  function FormatFilterLabel(field: string, operator: string, value: Json): (text: string)
    ensures OmitsValue(operator) ==>
      text == TitleCaseByChar(field) + " " + OperatorLabel(operator).GetOr(operator)
    ensures !OmitsValue(operator) ==>
      text == TitleCaseByChar(field) + " " + OperatorLabel(operator).GetOr(operator) + " " + FormatValue(value)
  {
    TitleCaseIsByChar(field);
    var op := OperatorLabel(operator).GetOr(operator);
    if OmitsValue(operator) then TitleCase(field) + " " + op
    else TitleCase(field) + " " + op + " " + FormatValue(value)
  }

  /** `date_created` is shown as "Date Created". */
  lemma DateCreatedTitle()
    ensures TitleCaseByChar("date_created") == "Date Created"
  {
    assert "date" + "_" + "created" == "date_created";
    ByCharSplit("date", "created");
    ByCharOneWord("created");
    assert UpperChar('d') == 'D' && UpperChar('c') == 'C';
    assert Capitalize("date") == "Date";
    assert Capitalize("created") == "Created";
  }

  /** `date_created` equals `$NOW` reads "Date Created equals now". */
  lemma LabelExample()
    ensures FormatFilterLabel("date_created", "_eq", JStr("$NOW")) == "Date Created equals now"
  {
    DateCreatedTitle();
    assert OperatorLabel("_eq") == Some("equals");
    assert FormatValue(JStr("$NOW")) == "now";
    assert !OmitsValue("_eq");
    assert "Date Created" + " " + "equals" + " " + "now" == "Date Created equals now";
  }

  /** The index of the first preset with the id. */
  function FindIndex(presets: seq<QuickFilter>, id: string): (r: Option<nat>)
    ensures r.Some? ==> r.value < |presets| && presets[r.value].id == id
    ensures r.Some? ==> forall j :: 0 <= j < r.value ==> presets[j].id != id
    ensures r.None? ==> forall j :: 0 <= j < |presets| ==> presets[j].id != id
  {
    if |presets| == 0 then None
    else if presets[0].id == id then Some(0)
    else match FindIndex(presets[1..], id)
      case None => None
      case Some(i) => Some(i + 1)
  }

  /** The list `movePreset` stores, or none when it does nothing. */
  function Moved(presets: seq<QuickFilter>, id: string, direction: int): (r: Option<seq<QuickFilter>>)
    ensures r.Some? ==> |r.value| == |presets|
  {
    match FindIndex(presets, id)
    case None => None
    case Some(i) =>
      var j := i + direction;
      if j < 0 || j >= |presets| then None
      else Some(presets[i := presets[j].(order := Some(i))][j := presets[i].(order := Some(j))])
  }

  /** Moving swaps the preset with its neighbour at `index + direction`, stamps both with
      their new positions and leaves every other entry alone; an unknown id or a move past
      either end does nothing. */
  lemma MovedFacts(presets: seq<QuickFilter>, id: string, direction: int)
    ensures FindIndex(presets, id).None? ==> Moved(presets, id, direction).None?
    ensures FindIndex(presets, id).Some? ==>
      var i := FindIndex(presets, id).value;
      var j := i + direction;
      && (j < 0 || j >= |presets| <==> Moved(presets, id, direction).None?)
      && (0 <= j < |presets| ==>
            var r := Moved(presets, id, direction).value;
            && r[j] == presets[i].(order := Some(j))
            && (i != j ==> r[i] == presets[j].(order := Some(i)))
            && (forall k :: 0 <= k < |presets| && k != i && k != j ==> r[k] == presets[k]))
  {
  }

  function Ids(presets: seq<QuickFilter>): (r: seq<string>)
    ensures |r| == |presets|
    ensures forall i :: 0 <= i < |r| ==> r[i] == presets[i].id
  {
    seq(|presets|, i requires 0 <= i < |presets| => presets[i].id)
  }

  /** With distinct ids, moving a preset one way and then back restores the preset order. */
  lemma MoveAndBack(presets: seq<QuickFilter>, id: string, direction: int)
    requires forall i, j :: 0 <= i < j < |presets| ==> presets[i].id != presets[j].id
    requires Moved(presets, id, direction).Some?
    ensures Moved(Moved(presets, id, direction).value, id, -direction).Some?
    ensures Ids(Moved(Moved(presets, id, direction).value, id, -direction).value) == Ids(presets)
  {
    var i := FindIndex(presets, id).value;
    var j := i + direction;
    var r := Moved(presets, id, direction).value;
    assert r[j].id == id;
    assert forall k :: 0 <= k < |r| && k != j ==> r[k].id != id;
    assert FindIndex(r, id) == Some(j);
    var back := Moved(r, id, -direction).value;
    assert forall k :: 0 <= k < |presets| ==> back[k].id == presets[k].id;
  }

  /** `Partial<FilterPreset>`: each present key with the value it sets (optional keys may be
      set to undefined). */
  datatype PresetUpdate = PresetUpdate(
    id: Option<string>,
    name: Option<string>,
    filter: Option<Json>,
    description: Option<Option<string>>,
    icon: Option<Option<string>>,
    color: Option<Option<string>>,
    isPinned: Option<Option<bool>>,
    order: Option<Option<int>>)

  /** `{...preset, ...updates}` */
  function ApplyUpdate(p: QuickFilter, u: PresetUpdate): QuickFilter {
    QuickFilter(u.id.GetOr(p.id), u.name.GetOr(p.name), u.filter.GetOr(p.filter),
                u.description.GetOr(p.description), u.icon.GetOr(p.icon), u.color.GetOr(p.color),
                u.isPinned.GetOr(p.isPinned), u.order.GetOr(p.order))
  }

  /** Applying the same update again changes nothing, and an update that sets no key
      leaves the preset as it was. */
  lemma ApplyUpdateFacts(p: QuickFilter, u: PresetUpdate)
    ensures ApplyUpdate(ApplyUpdate(p, u), u) == ApplyUpdate(p, u)
    ensures ApplyUpdate(p, PresetUpdate(None, None, None, None, None, None, None, None)) == p
  {
  }

  /** The filter state of one table. `layout` stands for the host's layout options (absent
      options are `NoLayoutOptions`). */
  class FilterState {
    var layout: LayoutOptions
    var quickFilters: Json
    var manualFilters: Json
    var filterLogic: Logic

    constructor (layout: LayoutOptions)
      ensures this.layout == layout && quickFilters == Empty && manualFilters == Empty
      ensures filterLogic == And
    {
      this.layout := layout;
      quickFilters := Empty;
      manualFilters := Empty;
      filterLogic := And;
    }

    /** The quick filter agrees with the active preset. */
    predicate Synced()
      reads this
    {
      quickFilters == QuickFilterFor(layout)
    }

    /** `rebuildQuickFilters()` */
    method RebuildQuickFilters()
      modifies this
      ensures layout == old(layout) && manualFilters == old(manualFilters)
      ensures filterLogic == old(filterLogic)
      ensures Synced()
    {
      var ids := ActivePresetIds(layout);
      if |ids| == 0 {
        quickFilters := Empty;
        return;
      }
      var active := PresetsWithIds(AllPresets(layout), ids);
      if |active| == 0 {
        quickFilters := Empty;
      } else if |active| == 1 {
        quickFilters := active[0].filter;
      } else {
        quickFilters := JObj([("_and", JArr(Filters(active)))]);
      }
    }

    /** `loadPresets()`: the presets come with the options, so this only rebuilds. */
    method LoadPresets()
      modifies this
      ensures layout == old(layout) && manualFilters == old(manualFilters)
      ensures filterLogic == old(filterLogic)
      ensures Synced()
    {
      RebuildQuickFilters();
    }

    /** `updateLayoutOptions(updates)`, with `updates` already spread over the options,
        followed by the rebuild its watcher triggers. */
    method UpdateLayoutOptions(newLayout: LayoutOptions)
      modifies this
      ensures layout == newLayout && manualFilters == old(manualFilters)
      ensures filterLogic == old(filterLogic)
      ensures Synced()
    {
      layout := newLayout;
      RebuildQuickFilters();
    }

    /** The `activePresetIds` setter. */
    method SetActivePresetIds(ids: seq<string>)
      modifies this
      ensures layout == WithActiveIds(old(layout), ids) && manualFilters == old(manualFilters)
      ensures filterLogic == old(filterLogic)
      ensures Synced()
    {
      UpdateLayoutOptions(WithActiveIds(layout, ids));
    }

    /** `savePreset(preset)` without the call to the presets endpoint: append the preset
        under the id made from the clock reading `now`, and activate it when pinned. */
    method SavePreset(preset: QuickFilter, now: int)
      modifies this
      ensures var saved := preset.(id := "filter-" + IntToString(now));
        && layout.quickFilters == Some(AllPresets(old(layout)) + [saved])
        && layout.activeQuickFilterId ==
             (if preset.isPinned == Some(true) then Some(saved.id) else old(layout).activeQuickFilterId)
        && layout == old(layout).(quickFilters := layout.quickFilters,
                                  activeQuickFilterId := layout.activeQuickFilterId)
      ensures preset.isPinned == Some(true) ==>
        var id := "filter-" + IntToString(now);
        ActivePresetIds(layout) == [id] && FindPreset(AllPresets(layout), id).Some?
      ensures manualFilters == old(manualFilters) && filterLogic == old(filterLogic)
      ensures Synced()
    {
      var newPreset := preset.(id := "filter-" + IntToString(now));
      var updated := AllPresets(layout) + [newPreset];
      UpdateLayoutOptions(layout.(quickFilters := Some(updated)));
      if preset.isPinned == Some(true) {
        SetActivePresetIds([newPreset.id]);
      }
    }

    /** `deletePreset(preset)`: drop every preset with the id, and clear the active id only
        when it was that preset. */
    method DeletePreset(id: string)
      modifies this
      ensures layout == old(layout).(
        quickFilters := Some(WithoutId(AllPresets(old(layout)), id)),
        activeQuickFilterId :=
          if ActivePresetIds(old(layout)) == [id] then None else old(layout).activeQuickFilterId)
      ensures FindPreset(AllPresets(layout), id).None? && id !in ActivePresetIds(layout)
      ensures manualFilters == old(manualFilters) && filterLogic == old(filterLogic)
      ensures Synced()
    {
      var updated := WithoutId(AllPresets(layout), id);
      var ids := ActivePresetIds(layout);
      var active := if |ids| > 0 && ids[0] == id then None else layout.activeQuickFilterId;
      UpdateLayoutOptions(layout.(quickFilters := Some(updated), activeQuickFilterId := active));
      if id in ids {
        SetActivePresetIds([]);
        quickFilters := Empty;
      }
    }

    /** `togglePreset(preset)`: deactivate the active preset, or make this one the only
        active preset. */
    method TogglePreset(id: string)
      modifies this
      ensures id in ActivePresetIds(old(layout)) ==>
        layout == old(layout).(activeQuickFilterId := None) && quickFilters == Empty
      ensures id !in ActivePresetIds(old(layout)) ==>
        layout == old(layout).(activeQuickFilterId := Some(id))
      ensures manualFilters == old(manualFilters) && filterLogic == old(filterLogic)
      ensures Synced()
    {
      if id in ActivePresetIds(layout) {
        SetActivePresetIds([]);
        quickFilters := Empty;
      } else {
        SetActivePresetIds([id]);
        RebuildQuickFilters();
      }
    }

    /** `removeQuickFilter(chipId)` */
    method RemoveQuickFilter(chipId: string)
      modifies this
      ensures layout == WithActiveIds(old(layout), Without(ActivePresetIds(old(layout)), chipId))
      ensures manualFilters == old(manualFilters) && filterLogic == old(filterLogic)
      ensures Synced()
    {
      SetActivePresetIds(Without(ActivePresetIds(layout), chipId));
      RebuildQuickFilters();
    }

    /** `removeManualFilter(chipId)`: remove the condition named by the chip id, read by
        splitting it at `-`. */
    method RemoveManualFilter(chipId: string)
      modifies this
      ensures manualFilters == WithoutCondition(old(manualFilters), ChipField(chipId), ChipOperator(chipId))
      ensures layout == old(layout) && quickFilters == old(quickFilters)
      ensures filterLogic == old(filterLogic)
    {
      manualFilters := WithoutCondition(manualFilters, ChipField(chipId), ChipOperator(chipId));
    }

    /** Removal of a manual chip's condition by the chip's own field and operator. */
    method RemoveManualCondition(chip: FilterChip)
      modifies this
      ensures chip.field.Some? && chip.operator.Some? ==>
        manualFilters == WithoutCondition(old(manualFilters), chip.field.value, chip.operator.value)
      ensures chip.field.None? || chip.operator.None? ==> manualFilters == old(manualFilters)
      ensures layout == old(layout) && quickFilters == old(quickFilters)
      ensures filterLogic == old(filterLogic)
    {
      if chip.field.Some? && chip.operator.Some? {
        manualFilters := WithoutCondition(manualFilters, chip.field.value, chip.operator.value);
      }
    }

    /** `clearAllFilters()` */
    method ClearAllFilters()
      modifies this
      ensures layout == old(layout).(activeQuickFilterId := None)
      ensures quickFilters == Empty && manualFilters == Empty
      ensures filterLogic == old(filterLogic)
      ensures Synced()
    {
      SetActivePresetIds([]);
      quickFilters := Empty;
      manualFilters := Empty;
    }

    /** `movePreset(preset, direction)` */
    method MovePreset(id: string, direction: int)
      modifies this
      ensures Moved(AllPresets(old(layout)), id, direction).None? ==>
        layout == old(layout) && quickFilters == old(quickFilters)
      ensures Moved(AllPresets(old(layout)), id, direction).Some? ==>
        layout == old(layout).(quickFilters := Moved(AllPresets(old(layout)), id, direction)) && Synced()
      ensures manualFilters == old(manualFilters) && filterLogic == old(filterLogic)
    {
      var current := AllPresets(layout);
      var found := FindIndex(current, id);
      if found.None? {
        return;
      }
      var index := found.value;
      var newIndex := index + direction;
      if newIndex < 0 || newIndex >= |current| {
        return;
      }
      var updated := current;
      updated := updated[index := current[newIndex]][newIndex := current[index]];
      updated := updated[index := updated[index].(order := Some(index))];
      updated := updated[newIndex := updated[newIndex].(order := Some(newIndex))];
      assert updated == current[index := current[newIndex].(order := Some(index))]
                               [newIndex := current[index].(order := Some(newIndex))];
      UpdateLayoutOptions(layout.(quickFilters := Some(updated)));
    }

    /** `updatePreset(preset, updates)`: merge the updates into the first preset with the id,
        in place; nothing for an unknown id. */
    method UpdatePreset(id: string, updates: PresetUpdate)
      modifies this
      ensures FindIndex(AllPresets(old(layout)), id).None? ==>
        layout == old(layout) && quickFilters == old(quickFilters)
      ensures FindIndex(AllPresets(old(layout)), id).Some? ==>
        var i := FindIndex(AllPresets(old(layout)), id).value;
        && layout == old(layout).(quickFilters :=
             Some(AllPresets(old(layout))[i := ApplyUpdate(AllPresets(old(layout))[i], updates)]))
        && Synced()
      ensures manualFilters == old(manualFilters) && filterLogic == old(filterLogic)
    {
      var current := AllPresets(layout);
      var found := FindIndex(current, id);
      if found.None? {
        return;
      }
      var index := found.value;
      var updated := current[index := ApplyUpdate(current[index], updates)];
      UpdateLayoutOptions(layout.(quickFilters := Some(updated)));
    }

    /** `updateManualFilters(filters)`: a missing or key-less filter becomes `{}`. */
    method UpdateManualFilters(filters: Option<Json>)
      modifies this
      ensures manualFilters == if filters.None? || KeyCount(filters.value) == 0 then Empty else filters.value
      ensures layout == old(layout) && quickFilters == old(quickFilters)
      ensures filterLogic == old(filterLogic)
    {
      if filters.None? || KeyCount(filters.value) == 0 {
        manualFilters := Empty;
      } else {
        manualFilters := filters.value;
      }
    }
  }

  /** The options the parent holds after `deletePreset(preset)` when the options passed in
      keep their old value until the call returns: both emits spread the options as they were
      on entry, and the second one, made only for the active preset, is the one kept. */
  function DeferredDelete(layout: LayoutOptions, id: string): (r: LayoutOptions)
    ensures id !in ActivePresetIds(layout) ==>
      r == layout.(quickFilters := Some(WithoutId(AllPresets(layout), id)))
    ensures id in ActivePresetIds(layout) ==> r == WithActiveIds(layout, [])
  {
    var ids := ActivePresetIds(layout);
    var first := layout.(quickFilters := Some(WithoutId(AllPresets(layout), id)),
                         activeQuickFilterId := if |ids| > 0 && ids[0] == id then None else layout.activeQuickFilterId);
    if id in ids then WithActiveIds(layout, []) else first
  }

  /** With deferred options, deleting the active preset only deactivates it: the preset is
      still stored. */
  lemma DeferredDeleteKeepsActivePreset(layout: LayoutOptions, id: string)
    requires ActivePresetIds(layout) == [id]
    ensures AllPresets(DeferredDelete(layout, id)) == AllPresets(layout)
    ensures ActivePresetIds(DeferredDelete(layout, id)) == []
    ensures FindPreset(AllPresets(layout), id).Some? ==>
      FindPreset(AllPresets(DeferredDelete(layout, id)), id).Some?
  {
  }

  /** The options the parent holds after `savePreset(preset)` when the options passed in keep
      their old value until the call returns: for a pinned preset the second emit, which
      activates it, spreads the options from before the preset was appended. */
  function DeferredSave(layout: LayoutOptions, preset: QuickFilter, now: int): (r: LayoutOptions)
    ensures preset.isPinned != Some(true) ==>
      r == layout.(quickFilters := Some(AllPresets(layout) + [preset.(id := "filter-" + IntToString(now))]))
    ensures preset.isPinned == Some(true) ==> r == WithActiveIds(layout, ["filter-" + IntToString(now)])
  {
    var saved := preset.(id := "filter-" + IntToString(now));
    var first := layout.(quickFilters := Some(AllPresets(layout) + [saved]));
    if preset.isPinned == Some(true) then WithActiveIds(layout, [saved.id]) else first
  }

  /** With deferred options, saving a pinned preset under a new id loses the preset and
      leaves the active id naming no preset, so no quick filter applies. */
  lemma DeferredPinnedSaveLosesPreset(layout: LayoutOptions, preset: QuickFilter, now: int)
    requires preset.isPinned == Some(true)
    requires forall p :: p in AllPresets(layout) ==> p.id != "filter-" + IntToString(now)
    ensures var r := DeferredSave(layout, preset, now);
      && AllPresets(r) == AllPresets(layout)
      && ActivePresetIds(r) == ["filter-" + IntToString(now)]
      && FindPreset(AllPresets(r), "filter-" + IntToString(now)).None?
      && QuickFilterFor(r) == Empty
  {
    var id := "filter-" + IntToString(now);
    var r := DeferredSave(layout, preset, now);
    assert ActivePresetIds(r) == [id];
    NoneWithIds(AllPresets(r), [id]);
  }

  /** The presets without the id, others in order. */
  function WithoutId(presets: seq<QuickFilter>, id: string): (r: seq<QuickFilter>)
    ensures forall p :: p in r <==> p in presets && p.id != id
  {
    if |presets| == 0 then []
    else if presets[0].id == id then WithoutId(presets[1..], id)
    else [presets[0]] + WithoutId(presets[1..], id)
  }

  /** Deleting keeps the other presets in their order: it distributes over concatenation
      and leaves a list without the id as it is. */
  lemma {:induction false} WithoutIdKeepsOrder(a: seq<QuickFilter>, b: seq<QuickFilter>, id: string)
    ensures WithoutId(a + b, id) == WithoutId(a, id) + WithoutId(b, id)
    ensures (forall p :: p in a ==> p.id != id) ==> WithoutId(a, id) == a
    decreases |a|
  {
    if |a| > 0 {
      assert (a + b)[1..] == a[1..] + b;
      WithoutIdKeepsOrder(a[1..], b, id);
    } else {
      assert a + b == b;
    }
  }
}
