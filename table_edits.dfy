/** Inline edits waiting to be saved. Edits are kept per item and per field; a flush sends
    the edits of the item whose key comes last in the record's key order (the most recently
    added item, unless item ids are integer-like, which an object lists first) as one
    payload, where an edit destined for a translation row is folded into a rewritten
    `translations` list, upserted by language code. The update requests and the reload are the host's; their outcome is a parameter. */
module TableEdits {
  import opened Strings
  import opened Options
  import opened Json
  import opened OrderedMaps
  import opened TableTypes

  /** Every item record is a well-formed record holding at least one field. */
  ghost predicate ValidEdits(e: Edits) {
    && e.Valid()
    && forall id :: id in e.values ==> e.values[id].Valid() && |e.values[id].keys| > 0
  }

  /** The pending value of a field of an item, if any. */
  function Pending(e: Edits, id: string, field: string): Option<EditValue> {
    if id in e.values && field in e.values[id].values then Some(e.values[id].values[field]) else None
  }

  /** `edits[itemId]`, or `{}` when the item has none yet. */
  function ItemEdits(e: Edits, id: string): (r: EditValues)
    requires ValidEdits(e)
    ensures r.Valid()
  {
    if id in e.values then e.values[id] else OrderedMaps.Empty()
  }

  /** The edits after `updateFieldValue(id, field, v)`. */
  function WithEdit(e: Edits, id: string, field: string, v: EditValue): (r: Edits)
    requires ValidEdits(e)
    ensures ValidEdits(r)
    ensures id in e.keys ==> r.keys == e.keys
    ensures id !in e.keys ==> r.keys == e.keys + [id]
  {
    e.Put(id, ItemEdits(e, id).Put(field, v))
  }

  /** The last write to a field wins, and every other field of every item reads as before. */
  lemma LastWriteWins(e: Edits, id: string, field: string, v: EditValue, id': string, field': string)
    requires ValidEdits(e)
    ensures Pending(WithEdit(e, id, field, v), id', field') ==
      if id' == id && field' == field then Some(v) else Pending(e, id', field')
  {
  }

  /** The edits after a flush of the last item: its record is gone when the update went
      through, and everything is kept otherwise. */
  function AfterFlush(e: Edits, updated: bool): (r: Edits)
    requires ValidEdits(e)
    ensures ValidEdits(r)
  {
    if |e.keys| > 0 && updated then e.Remove(e.keys[|e.keys| - 1]) else e
  }

  /** A flush removes exactly the flushed item's edits and leaves every other item as it was. */
  lemma FlushRemovesOnlyLastItem(e: Edits, updated: bool)
    requires ValidEdits(e) && |e.keys| > 0
    ensures var last := e.keys[|e.keys| - 1];
      && (updated ==> forall f :: Pending(AfterFlush(e, updated), last, f).None?)
      && (updated ==> |AfterFlush(e, updated).keys| == |e.keys| - 1)
      && (!updated ==> AfterFlush(e, updated) == e)
      && (forall id, f :: id != last ==> Pending(AfterFlush(e, updated), id, f) == Pending(e, id, f))
  {
    var last := e.keys[|e.keys| - 1];
    if updated {
      var init := e.keys[..|e.keys| - 1];
      assert e.keys == init + [last];
      assert forall i :: 0 <= i < |init| ==> init[i] == e.keys[i] && e.keys[i] != last;
      RemoveKeyOfLast(init, last);
    }
  }

  /** Removing the last of distinct keys leaves the others. */
  lemma RemoveKeyOfLast(init: seq<string>, last: string)
    requires last !in init
    ensures RemoveKey(init + [last], last) == init
    decreases |init|
  {
    if |init| > 0 {
      assert (init + [last])[1..] == init[1..] + [last];
      RemoveKeyOfLast(init[1..], last);
    }
  }

  /** `i[pk] == itemId`: an id stored as a string matches that string, one stored as a
      number matches its decimal form. */
  predicate MatchesId(item: Json, pk: string, itemId: string) {
    var v := Prop(item, pk);
    v == Some(JStr(itemId)) || (v.Some? && v.value.JNum? && IntToString(v.value.n) == itemId)
  }

  /** An item matches at most one id. */
  lemma MatchesOneId(item: Json, pk: string, a: string, b: string)
    requires MatchesId(item, pk, a) && MatchesId(item, pk, b)
    ensures a == b
  {
  }

  /** `items.find(...)`: the first item with the id. */
  function FindItem(items: seq<Json>, pk: string, itemId: string): (r: Option<Json>)
    ensures r.Some? ==> r.value in items && MatchesId(r.value, pk, itemId)
    ensures r.None? ==> forall i :: 0 <= i < |items| ==> !MatchesId(items[i], pk, itemId)
  {
    if |items| == 0 then None
    else if MatchesId(items[0], pk, itemId) then Some(items[0])
    else FindItem(items[1..], pk, itemId)
  }

  /** The item found is the first that matches. */
  lemma {:induction false} FindItemFirst(items: seq<Json>, pk: string, itemId: string)
    ensures var r := FindItem(items, pk, itemId);
      r.Some? ==> exists i :: 0 <= i < |items| && items[i] == r.value &&
                    forall j :: 0 <= j < i ==> !MatchesId(items[j], pk, itemId)
    decreases |items|
  {
    if |items| > 0 && MatchesId(items[0], pk, itemId) {
      assert items[0] == FindItem(items, pk, itemId).value;
    } else if |items| > 0 {
      var first := !MatchesId(items[0], pk, itemId);
      assert first;
      var tail := items[1..];
      FindItemFirst(tail, pk, itemId);
      var r := FindItem(tail, pk, itemId);
      if r.Some? {
        var i :| 0 <= i < |tail| && tail[i] == r.value && forall j :: 0 <= j < i ==> !MatchesId(tail[j], pk, itemId);
        assert items[i + 1] == r.value;
        forall j | 0 <= j < i + 1
          ensures !MatchesId(items[j], pk, itemId)
        {
          if j == 0 {
            assert first;
          } else {
            assert items[j] == tail[j - 1];
            assert !MatchesId(tail[j - 1], pk, itemId);
          }
        }
      }
    }
  }

  /** `item.translations || []`, as `find` and `map` walk it. None when walking it throws:
      a truthy value that is not an array, or an array holding `null`. */
  function ExistingRows(item: Json): (r: Option<seq<Json>>)
    ensures Prop(item, "translations").None? ==> r == Some([])
    ensures r.Some? ==> r.value == [] || Prop(item, "translations") == Some(JArr(r.value))
    ensures r.Some? ==> forall k :: 0 <= k < |r.value| ==> !r.value[k].JNull?
    ensures var t := Prop(item, "translations");
      (t.Some? && t.value.JArr? && exists k :: 0 <= k < |t.value.items| && t.value.items[k].JNull?) ==> r.None?
  {
    var t := Prop(item, "translations");
    if t.None? || !Truthy(t.value) then Some([])
    else if t.value.JArr? && forall k :: 0 <= k < |t.value.items| ==> !t.value.items[k].JNull? then
      Some(t.value.items)
    else None
  }

  /** `t.languages_code === language` */
  predicate IsRowFor(row: Json, language: string) {
    Prop(row, "languages_code") == Some(JStr(language))
  }

  predicate HasRowFor(rows: seq<Json>, language: string) {
    exists k :: 0 <= k < |rows| && IsRowFor(rows[k], language)
  }

  /** `{...t, [field]: value}` */
  function SetField(row: Json, field: string, v: Json): Json {
    JObj(Put(Entries(row), field, v))
  }

  /** `{languages_code: language, [field]: value}` */
  function NewRow(u: TranslationUpdate): Json {
    JObj(Put([("languages_code", JStr(u.language))], u.translationField, u.value))
  }

  /** The translation list a translation edit writes: every row of its language updated, or
      a new row appended when there is none. */
  function Upsert(rows: seq<Json>, u: TranslationUpdate): seq<Json> {
    if HasRowFor(rows, u.language) then
      seq(|rows|, k requires 0 <= k < |rows| => UpdateRow(rows[k], u))
    else rows + [NewRow(u)]
  }

  /** The callback of the `map`: the row with the field set when it is for the language. */
  function UpdateRow(row: Json, u: TranslationUpdate): Json {
    if IsRowFor(row, u.language) then SetField(row, u.translationField, u.value) else row
  }

  /** A row keeps its language through the update, and a row for the language holds the new
      value; updating twice is updating once. */
  lemma UpdateRowFacts(row: Json, u: TranslationUpdate)
    requires u.translationField != "languages_code"
    ensures IsRowFor(UpdateRow(row, u), u.language) <==> IsRowFor(row, u.language)
    ensures IsRowFor(row, u.language) ==> Prop(UpdateRow(row, u), u.translationField) == Some(u.value)
    ensures !IsRowFor(row, u.language) ==> UpdateRow(row, u) == row
    ensures UpdateRow(UpdateRow(row, u), u) == UpdateRow(row, u)
  {
    SetFieldFacts(row, u.translationField, u.value, u.language);
    if IsRowFor(row, u.language) {
      PutTwice(Entries(row), u.translationField, u.value);
    }
  }

  /** Setting a field other than the language code keeps the row's language. */
  lemma SetFieldFacts(row: Json, field: string, v: Json, language: string)
    requires field != "languages_code"
    ensures IsRowFor(SetField(row, field, v), language) <==> IsRowFor(row, language)
    ensures Prop(SetField(row, field, v), field) == Some(v)
  {
    GetPut(Entries(row), field, v);
  }

  lemma NewRowFacts(u: TranslationUpdate)
    requires u.translationField != "languages_code"
    ensures IsRowFor(NewRow(u), u.language)
    ensures Prop(NewRow(u), u.translationField) == Some(u.value)
  {
    GetPut([("languages_code", JStr(u.language))], u.translationField, u.value);
  }

  /** After the upsert the language has a row, every row of that language holds the new
      value, rows of other languages are untouched, and a row is added only when the
      language had none. */
  lemma UpsertFacts(rows: seq<Json>, u: TranslationUpdate)
    requires u.translationField != "languages_code"
    ensures var r := Upsert(rows, u);
      && HasRowFor(r, u.language)
      && (forall k :: 0 <= k < |r| && IsRowFor(r[k], u.language) ==> Prop(r[k], u.translationField) == Some(u.value))
      && (forall k :: 0 <= k < |rows| && !IsRowFor(rows[k], u.language) ==> r[k] == rows[k])
      && |r| == if HasRowFor(rows, u.language) then |rows| else |rows| + 1
  {
    if HasRowFor(rows, u.language) {
      UpsertExisting(rows, u);
    } else {
      UpsertNew(rows, u);
    }
  }

  lemma UpsertExisting(rows: seq<Json>, u: TranslationUpdate)
    requires u.translationField != "languages_code"
    requires HasRowFor(rows, u.language)
    ensures var r := Upsert(rows, u);
      && |r| == |rows|
      && (forall k :: 0 <= k < |rows| ==> (IsRowFor(r[k], u.language) <==> IsRowFor(rows[k], u.language)))
      && (forall k :: 0 <= k < |r| && IsRowFor(r[k], u.language) ==> Prop(r[k], u.translationField) == Some(u.value))
      && (forall k :: 0 <= k < |rows| && !IsRowFor(rows[k], u.language) ==> r[k] == rows[k])
      && HasRowFor(r, u.language)
  {
    var r := Upsert(rows, u);
    forall k | 0 <= k < |rows|
      ensures IsRowFor(r[k], u.language) <==> IsRowFor(rows[k], u.language)
      ensures IsRowFor(r[k], u.language) ==> Prop(r[k], u.translationField) == Some(u.value)
      ensures !IsRowFor(rows[k], u.language) ==> r[k] == rows[k]
    {
      assert r[k] == UpdateRow(rows[k], u);
      UpdateRowFacts(rows[k], u);
    }
    var k :| 0 <= k < |rows| && IsRowFor(rows[k], u.language);
    assert IsRowFor(r[k], u.language);
  }

  lemma UpsertNew(rows: seq<Json>, u: TranslationUpdate)
    requires u.translationField != "languages_code"
    requires !HasRowFor(rows, u.language)
    ensures var r := Upsert(rows, u);
      && r == rows + [NewRow(u)]
      && (forall k :: 0 <= k < |r| && IsRowFor(r[k], u.language) ==> k == |rows|)
      && (forall k :: 0 <= k < |r| && IsRowFor(r[k], u.language) ==> Prop(r[k], u.translationField) == Some(u.value))
      && HasRowFor(r, u.language)
  {
    var r := Upsert(rows, u);
    NewRowFacts(u);
    assert forall k :: 0 <= k < |rows| ==> r[k] == rows[k];
    assert IsRowFor(r[|rows|], u.language);
  }

  /** Upserting the same update twice is upserting it once. */
  lemma UpsertIdempotent(rows: seq<Json>, u: TranslationUpdate)
    requires u.translationField != "languages_code"
    ensures Upsert(Upsert(rows, u), u) == Upsert(rows, u)
  {
    var r := Upsert(rows, u);
    UpsertHasRow(rows, u);
    forall k | 0 <= k < |r|
      ensures UpdateRow(r[k], u) == r[k]
    {
      UpsertRowStable(rows, u, k);
    }
    assert Upsert(r, u) == seq(|r|, k requires 0 <= k < |r| => UpdateRow(r[k], u));
  }

  /** After an upsert there is a row for the language. */
  lemma UpsertHasRow(rows: seq<Json>, u: TranslationUpdate)
    requires u.translationField != "languages_code"
    ensures HasRowFor(Upsert(rows, u), u.language)
  {
    if HasRowFor(rows, u.language) {
      var k :| 0 <= k < |rows| && IsRowFor(rows[k], u.language);
      UpdateRowFacts(rows[k], u);
      assert Upsert(rows, u)[k] == UpdateRow(rows[k], u);
    } else {
      NewRowFacts(u);
      assert Upsert(rows, u)[|rows|] == NewRow(u);
    }
  }

  /** Every row of an upsert is left as it is by the same update. */
  lemma UpsertRowStable(rows: seq<Json>, u: TranslationUpdate, k: nat)
    requires u.translationField != "languages_code"
    requires k < |Upsert(rows, u)|
    ensures UpdateRow(Upsert(rows, u)[k], u) == Upsert(rows, u)[k]
  {
    if HasRowFor(rows, u.language) {
      UpdateRowFacts(rows[k], u);
    } else if k < |rows| {
      UpdateRowFacts(rows[k], u);
    } else {
      NewRowFacts(u);
      PutTwice([("languages_code", JStr(u.language))], u.translationField, u.value);
    }
  }

  /** The `[field, value]` pairs of an item's record, in key order. */
  function EntriesOf(m: EditValues): (r: seq<(string, EditValue)>)
    requires m.Valid()
    ensures |r| == |m.keys|
    ensures forall i :: 0 <= i < |r| ==> r[i] == (m.keys[i], m.values[m.keys[i]])
  {
    seq(|m.keys|, i requires 0 <= i < |m.keys| => (m.keys[i], m.values[m.keys[i]]))
  }

  /** One pass of the payload loop; none once a pass has thrown. */
  function PayloadStep(payload: Option<seq<(string, Json)>>, field: string, value: EditValue,
                       item: Option<Json>): Option<seq<(string, Json)>> {
    match payload
    case None => None
    case Some(p) =>
      if IsTranslationEdit(value) then
        if item.None? then payload
        else
          match ExistingRows(item.value)
          case None => None
          case Some(rows) => Some(Put(p, "translations", JArr(Upsert(rows, UpdateOf(value)))))
      else Some(Put(p, field, EditAsJson(value)))
  }

  /** One pass: a thrown pass stays thrown; a regular edit is written under its field; a
      translation edit is skipped when the item is missing, throws exactly when the item's
      rows cannot be read, and otherwise writes the upserted rows under `translations`; no
      other key changes. */
  lemma PayloadStepFacts(payload: Option<seq<(string, Json)>>, field: string, value: EditValue,
                         item: Option<Json>)
    ensures var r := PayloadStep(payload, field, value, item);
      && (payload.None? ==> r.None?)
      && (payload.Some? && !IsTranslationEdit(value) ==> r.Some? && Get(r.value, field) == Some(EditAsJson(value)))
      && (payload.Some? && IsTranslationEdit(value) && item.None? ==> r == payload)
      && (payload.Some? && IsTranslationEdit(value) && item.Some? ==> (r.None? <==> ExistingRows(item.value).None?))
      && (r.Some? && IsTranslationEdit(value) && item.Some? ==>
            Get(r.value, "translations") == Some(JArr(Upsert(ExistingRows(item.value).value, UpdateOf(value)))))
      && (r.Some? ==> forall g :: g != field && g != "translations" ==> Get(r.value, g) == Get(payload.value, g))
  {
    if payload.Some? {
      var p := payload.value;
      if !IsTranslationEdit(value) {
        GetPut(p, field, EditAsJson(value));
      } else if item.Some? && ExistingRows(item.value).Some? {
        GetPut(p, "translations", JArr(Upsert(ExistingRows(item.value).value, UpdateOf(value))));
      }
    }
  }

  /** A pass treats a translation update the same whether it was recorded as such or as
      the plain object it is: routing is decided on the value. */
  lemma PayloadStepByValue(payload: Option<seq<(string, Json)>>, field: string, u: TranslationUpdate,
                           item: Option<Json>)
    ensures PayloadStep(payload, field, Plain(UpdateAsJson(u)), item) == PayloadStep(payload, field, Translation(u), item)
  {
    PlainUpdateReadsBack(u);
    TranslationEditByValue(u);
  }

  /** A plain object such as `{isTranslation: true, language: "de", translationField: "title",
      value: "x"}`, pending under any field, becomes a `translations` entry and nothing
      under that field. */
  lemma PlainTranslationObjectRouted(item: Json, rows: seq<Json>, field: string, u: TranslationUpdate)
    requires ExistingRows(item) == Some(rows)
    requires u.isTranslation
    ensures PayloadOf([(field, Plain(UpdateAsJson(u)))], Some(item)) == Some([("translations", JArr(Upsert(rows, u)))])
  {
    var entries := [(field, Plain(UpdateAsJson(u)))];
    assert entries[..0] == [];
    PayloadStepByValue(Some([]), field, u, Some(item));
    TranslationEditByValue(u);
    assert Put([], "translations", JArr(Upsert(rows, u))) == [("translations", JArr(Upsert(rows, u)))];
  }

  /** The payload after the loop has run over `entries`, none when it threw. */
  function PayloadOf(entries: seq<(string, EditValue)>, item: Option<Json>): Option<seq<(string, Json)>>
    decreases |entries|
  {
    if |entries| == 0 then Some([])
    else PayloadStep(PayloadOf(entries[..|entries| - 1], item), entries[|entries| - 1].0,
                     entries[|entries| - 1].1, item)
  }

  /** Once the loop has thrown it stays thrown. */
  lemma {:induction false} ThrownStaysThrown(entries: seq<(string, EditValue)>, n: nat, item: Option<Json>)
    requires n <= |entries|
    requires PayloadOf(entries[..n], item).None?
    ensures PayloadOf(entries, item).None?
    decreases |entries| - n
  {
    if n == |entries| {
      assert entries[..n] == entries;
    } else {
      assert entries[..n + 1][..n] == entries[..n];
      ThrownStaysThrown(entries, n + 1, item);
    }
  }

  /** Each regular edit as the payload entry it is copied to. */
  function Copied(entries: seq<(string, EditValue)>): (r: seq<(string, Json)>)
    ensures |r| == |entries|
    ensures forall i :: 0 <= i < |r| ==> r[i] == (entries[i].0, EditAsJson(entries[i].1))
  {
    seq(|entries|, i requires 0 <= i < |entries| => (entries[i].0, EditAsJson(entries[i].1)))
  }

  /** Regular edits with distinct fields are copied one to one, in order. */
  lemma {:induction false} RegularPayload(entries: seq<(string, EditValue)>, item: Option<Json>)
    requires forall i :: 0 <= i < |entries| ==> !IsTranslationEdit(entries[i].1)
    requires forall i, j :: 0 <= i < j < |entries| ==> entries[i].0 != entries[j].0
    ensures PayloadOf(entries, item) == Some(Copied(entries))
    decreases |entries|
  {
    if |entries| > 0 {
      var init := entries[..|entries| - 1];
      RegularPayload(init, item);
      var p := Copied(init);
      var last := entries[|entries| - 1];
      forall i | 0 <= i < |p|
        ensures KeysOf(p)[i] != last.0
      {
        assert init[i] == entries[i];
      }
      assert last.0 !in KeysOf(p);
      assert Copied(entries) == p + [(last.0, EditAsJson(last.1))];
    }
  }

  /** Some regular edit of the list writes `f`. */
  predicate WritesField(entries: seq<(string, EditValue)>, f: string) {
    exists i :: 0 <= i < |entries| && entries[i].0 == f && !IsTranslationEdit(entries[i].1)
  }

  lemma WritesFieldSnoc(entries: seq<(string, EditValue)>, f: string)
    requires |entries| > 0
    ensures var last := entries[|entries| - 1];
      WritesField(entries, f) <==>
        WritesField(entries[..|entries| - 1], f) || (last.0 == f && !IsTranslationEdit(last.1))
  {
    var init := entries[..|entries| - 1];
    assert forall i :: 0 <= i < |init| ==> init[i] == entries[i];
  }

  /** With the item missing, translation edits contribute nothing: building the payload
      cannot throw, and it holds exactly the fields of the regular edits. */
  lemma {:induction false} MissingItemPayload(entries: seq<(string, EditValue)>)
    ensures PayloadOf(entries, None).Some?
    ensures forall f :: Get(PayloadOf(entries, None).value, f).Some? <==> WritesField(entries, f)
    decreases |entries|
  {
    if |entries| > 0 {
      var init := entries[..|entries| - 1];
      MissingItemPayload(init);
      var p := PayloadOf(init, None).value;
      var last := entries[|entries| - 1];
      if !IsTranslationEdit(last.1) {
        GetPut(p, last.0, EditAsJson(last.1));
      }
      forall f
        ensures Get(PayloadOf(entries, None).value, f).Some? <==> WritesField(entries, f)
      {
        WritesFieldSnoc(entries, f);
      }
    }
  }

  /** The payload's `translations` is the upsert of the last translation edit alone when no
      later edit writes `translations`: each translation edit starts again from the item's
      rows, so earlier translation edits are lost. */
  lemma {:induction false} LastTranslationWins(entries: seq<(string, EditValue)>, k: nat, item: Json, rows: seq<Json>)
    requires k < |entries| && IsTranslationEdit(entries[k].1)
    requires ExistingRows(item) == Some(rows)
    requires forall j :: k < j < |entries| ==> !IsTranslationEdit(entries[j].1) && entries[j].0 != "translations"
    requires PayloadOf(entries, Some(item)).Some?
    ensures Get(PayloadOf(entries, Some(item)).value, "translations") == Some(JArr(Upsert(rows, UpdateOf(entries[k].1))))
    decreases |entries|
  {
    var init := entries[..|entries| - 1];
    var last := entries[|entries| - 1];
    assert PayloadOf(init, Some(item)).Some?;
    var p := PayloadOf(init, Some(item)).value;
    if |entries| == k + 1 {
      GetPut(p, "translations", JArr(Upsert(rows, UpdateOf(last.1))));
    } else {
      assert forall j :: k < j < |init| ==> init[j] == entries[j];
      LastTranslationWins(init, k, item, rows);
      GetPut(p, last.0, EditAsJson(last.1));
    }
  }

  /** Two translation edits of the same item, one per language, leave only the later one's
      row change: the earlier language's row keeps its old value. */
  lemma SecondTranslationEditDropsFirst(item: Json, rows: seq<Json>, first: TranslationUpdate,
                                        second: TranslationUpdate, f1: string, f2: string)
    requires ExistingRows(item) == Some(rows)
    requires first.isTranslation && second.isTranslation
    requires PayloadOf([(f1, Translation(first)), (f2, Translation(second))], Some(item)).Some?
    ensures Get(PayloadOf([(f1, Translation(first)), (f2, Translation(second))], Some(item)).value, "translations")
      == Some(JArr(Upsert(rows, second)))
  {
    LastTranslationWins([(f1, Translation(first)), (f2, Translation(second))], 1, item, rows);
  }

  /** The loop's body for one pending field. */
  method AddToPayload(p: seq<(string, Json)>, field: string, value: EditValue, item: Option<Json>)
    returns (r: Option<seq<(string, Json)>>)
    ensures r == PayloadStep(Some(p), field, value, item)
  {
    if IsTranslationEdit(value) {
      if item.None? {
        return Some(p);
      }
      var rows := ExistingRows(item.value);
      if rows.None? {
        return None;
      }
      return Some(Put(p, "translations", JArr(Upsert(rows.value, UpdateOf(value)))));
    }
    return Some(Put(p, field, EditAsJson(value)));
  }

  /** The payload loop of `autoSaveEdits`; none when it throws. */
  method BuildPayload(changes: EditValues, item: Option<Json>) returns (payload: Option<seq<(string, Json)>>)
    requires changes.Valid()
    ensures payload == PayloadOf(EntriesOf(changes), item)
  {
    var entries := EntriesOf(changes);
    var p: seq<(string, Json)> := [];
    var i := 0;
    while i < |entries|
      invariant 0 <= i <= |entries|
      invariant PayloadOf(entries[..i], item) == Some(p)
    {
      var next := AddToPayload(p, entries[i].0, entries[i].1, item);
      assert entries[..i + 1][..i] == entries[..i];
      if next.None? {
        ThrownStaysThrown(entries, i + 1, item);
        return None;
      }
      p := next.value;
      i := i + 1;
    }
    assert entries[..i] == entries;
    return Some(p);
  }

  /** One `tableApi.updateItem` call. */
  datatype UpdateRequest = UpdateRequest(collection: string, itemId: string, field: string, value: Json)

  /** The call made for one payload entry; `translations` goes as a full-list update. */
  function Request(collection: string, itemId: string, field: string, value: Json): (r: UpdateRequest)
    ensures r.collection == collection && r.itemId == itemId && r.field == field
    ensures field != "translations" ==> r.value == value
    ensures field == "translations" ==>
      && r.value.JObj?
      && Get(r.value.members, "isFullTranslations") == Some(JBool(true))
      && Get(r.value.members, "translations") == Some(value)
  {
    if field == "translations" then
      UpdateRequest(collection, itemId, "translations",
                    JObj([("isFullTranslations", JBool(true)), ("translations", value)]))
    else UpdateRequest(collection, itemId, field, value)
  }

  /** The calls made for a payload, one per entry, in order. */
  function Requests(collection: string, itemId: string, payload: seq<(string, Json)>): (r: seq<UpdateRequest>)
    ensures |r| == |payload|
    ensures forall i :: 0 <= i < |r| ==> r[i] == Request(collection, itemId, payload[i].0, payload[i].1)
  {
    seq(|payload|, i requires 0 <= i < |payload| => Request(collection, itemId, payload[i].0, payload[i].1))
  }

  /** `${itemId}_${field}` */
  function CellKey(itemId: string, field: string): string {
    itemId + "_" + field
  }

  /** The saving-state keys of an item's edited fields. */
  function CellKeys(itemId: string, fields: seq<string>): set<string> {
    set f | f in fields :: CellKey(itemId, f)
  }

  /** The keys marked while an item saves are exactly its edited fields' cell keys. */
  lemma CellKeysMembers(itemId: string, fields: seq<string>)
    ensures forall f :: f in fields ==> CellKey(itemId, f) in CellKeys(itemId, fields)
    ensures forall c :: c in CellKeys(itemId, fields) ==> exists f :: f in fields && c == CellKey(itemId, f)
  {
  }

  /** The `try` block up to the calls: build the payload of an item's edits and, when that
      does not throw, the update calls it makes. */
  method PlanUpdates(collection: string, itemId: string, changes: EditValues, item: Option<Json>)
    returns (built: bool, requests: seq<UpdateRequest>)
    requires changes.Valid()
    ensures var payload := PayloadOf(EntriesOf(changes), item);
      && built == payload.Some?
      && requests == (if payload.Some? then Requests(collection, itemId, payload.value) else [])
  {
    var payload := BuildPayload(changes, item);
    built := payload.Some?;
    requests := [];
    if payload.Some? {
      requests := Requests(collection, itemId, payload.value);
    }
  }

  /** How the host's calls came out: all updates and the reload went through, the update
      call at index `call` threw, or the updates went through and the reload threw. */
  datatype SaveOutcome = Saved | UpdateFailed(call: nat) | RefreshFailed

  /** No planned update call throws: the outcome names no failing call among them. */
  predicate UpdatesWentThrough(planned: seq<UpdateRequest>, outcome: SaveOutcome) {
    !(outcome.UpdateFailed? && outcome.call < |planned|)
  }

  /** The update calls the sequential loop makes: every planned one, or those up to and
      including the one that throws, after which the loop stops. */
  function CallsMade(planned: seq<UpdateRequest>, outcome: SaveOutcome): (made: seq<UpdateRequest>)
    ensures made <= planned
    ensures UpdatesWentThrough(planned, outcome) ==> made == planned
    ensures !UpdatesWentThrough(planned, outcome) ==>
      |made| == outcome.call + 1 && made[outcome.call] == planned[outcome.call]
    ensures |planned| == 0 ==> made == []
  {
    if UpdatesWentThrough(planned, outcome) then planned else planned[..outcome.call + 1]
  }

  /** The pending edits of one table and the cells being saved. */
  class PendingEdits {
    var edits: Edits
    var savingCells: set<string>

    ghost predicate Valid()
      reads this
    {
      ValidEdits(edits)
    }

    constructor ()
      ensures Valid() && edits == OrderedMaps.Empty() && savingCells == {}
    {
      edits := OrderedMaps.Empty();
      savingCells := {};
    }

    /** `hasEdits`: some field of some item is pending. */
    function HasEdits(): (r: bool)
      requires Valid()
      reads this
      ensures r <==> exists id, f :: Pending(edits, id, f).Some?
    {
      if |edits.keys| > 0 then
        var id := edits.keys[0];
        var f := edits.values[id].keys[0];
        assert Pending(edits, id, f).Some?;
        true
      else false
    }

    /** `updateFieldValue(itemId, field, value)` */
    method UpdateFieldValue(itemId: string, field: string, value: EditValue)
      requires Valid()
      modifies this
      ensures Valid()
      ensures edits == WithEdit(old(edits), itemId, field, value)
      ensures savingCells == old(savingCells)
    {
      var record := ItemEdits(edits, itemId);
      edits := edits.Put(itemId, record.Put(field, value));
    }

    /** `resetEdits()` */
    method ResetEdits()
      modifies this
      ensures Valid() && edits == OrderedMaps.Empty() && savingCells == old(savingCells)
    {
      edits := OrderedMaps.Empty();
    }

    /** `autoSaveEdits()` for the given items, primary-key field (`undefined` when absent)
        and outcome of the host's calls. Returns the update calls made and the cells marked
        as saving while they ran. */
    method AutoSaveEdits(collection: string, items: seq<Json>, pk: Option<string>, outcome: SaveOutcome)
      returns (requests: seq<UpdateRequest>, marked: set<string>)
      requires Valid()
      modifies this
      ensures Valid()
      ensures |old(edits).keys| == 0 ==>
        edits == old(edits) && savingCells == old(savingCells) && requests == [] && marked == {}
      ensures |old(edits).keys| > 0 ==>
        var itemId := old(edits).keys[|old(edits).keys| - 1];
        var changes := old(edits).values[itemId];
        var payload := PayloadOf(EntriesOf(changes), FindItem(items, pk.GetOr("undefined"), itemId));
        var planned := (if payload.Some? then Requests(collection, itemId, payload.value) else []);
        && marked == CellKeys(itemId, changes.keys)
        && savingCells == old(savingCells) - marked
        && requests == CallsMade(planned, outcome)
        && edits == AfterFlush(old(edits), payload.Some? && UpdatesWentThrough(planned, outcome))
    {
      if |edits.keys| == 0 {
        return [], {};
      }
      var e := edits;
      var itemId := e.keys[|e.keys| - 1];
      var changes := e.values[itemId];
      marked := CellKeys(itemId, changes.keys);
      savingCells := savingCells + marked;
      var item := FindItem(items, pk.GetOr("undefined"), itemId);
      var built: bool;
      var planned: seq<UpdateRequest>;
      built, planned := PlanUpdates(collection, itemId, changes, item);
      requests := CallsMade(planned, outcome);
      // The item's edits are dropped once every update call went through.
      edits := AfterFlush(e, built && UpdatesWentThrough(planned, outcome));
      savingCells := savingCells - marked;
    }
  }
}
