/** The list of field paths to fetch for the shown columns: each column key, the root
    segment of a dotted key, and `translations` when the fields store marks the root as a
    translations relation. The store may be unavailable and its lookups may throw; both
    are caught and only skip the translations handling. */
module AdjustFields {
  import opened Strings

  /** The outcome of `fieldsStore.getField(collection, root)`. `special` is the field's
      `meta.special` list, `[]` when absent. */
  datatype FieldLookup = Threw | NotFound | Found(special: seq<string>)

  /** The fields store, as far as this function uses it; `Unavailable` when obtaining the
      store throws. */
  datatype FieldsStore = Unavailable | Available(getField: (string, string) -> FieldLookup)

  /** The store says `root` of `collection` is a translations field. */
  predicate FlagsTranslations(store: FieldsStore, collection: string, root: string) {
    store.Available? && store.getField(collection, root).Found?
      && "translations" in store.getField(collection, root).special
  }

  /** `set.add(x)` on a set kept as its insertion-ordered list. */
  function Add(acc: seq<string>, x: string): (r: seq<string>)
    ensures forall y :: y in r <==> y in acc || y == x
    ensures (forall i, j :: 0 <= i < j < |acc| ==> acc[i] != acc[j]) ==>
      (forall i, j :: 0 <= i < j < |r| ==> r[i] != r[j])
  {
    if x in acc then acc else acc + [x]
  }

  /** `fieldKey.split('.')[0]` of a dotted key. */
  predicate RootOf(key: string, root: string) {
    '.' in key && BeforeFirst(key, '.') == root
  }

  /** The additions the loop body makes for one key. */
  function Step(acc: seq<string>, key: string, collection: string, store: FieldsStore): seq<string> {
    var withKey := Add(acc, key);
    if '.' in key then
      var root := BeforeFirst(key, '.');
      var withRoot := Add(withKey, root);
      if FlagsTranslations(store, collection, root) then Add(Add(withRoot, "translations"), key)
      else withRoot
    else withKey
  }

  /** An element of the result: a key, the root of a dotted key, or `translations` because
      the store flags the root of some dotted key. */
  predicate Produced(fields: seq<string>, collection: string, store: FieldsStore, x: string) {
    || x in fields
    || (exists k :: k in fields && RootOf(k, x))
    || (x == "translations"
        && exists k :: k in fields && '.' in k && FlagsTranslations(store, collection, BeforeFirst(k, '.')))
  }

  /** The set after the loop has run over `fields`, in insertion order, without repeats. */
  function Adjusted(fields: seq<string>, collection: string, store: FieldsStore): (r: seq<string>)
    ensures forall i, j :: 0 <= i < j < |r| ==> r[i] != r[j]
    decreases |fields|
  {
    if |fields| == 0 then []
    else Step(Adjusted(fields[..|fields| - 1], collection, store), fields[|fields| - 1], collection, store)
  }

  /** A key list with one more key produces what the shorter list and that key produce. */
  lemma ProducedSnoc(init: seq<string>, key: string, collection: string, store: FieldsStore, x: string)
    ensures Produced(init + [key], collection, store, x) <==>
      Produced(init, collection, store, x) || Produced([key], collection, store, x)
  {
    assert forall k :: k in init + [key] <==> k in init || k == key;
  }

  /** The elements of the result are exactly the keys, the roots of dotted keys, and
      `translations` when the store flags the root of some dotted key. */
  lemma {:induction false} AdjustedMembers(fields: seq<string>, collection: string, store: FieldsStore)
    ensures forall x :: x in Adjusted(fields, collection, store) <==> Produced(fields, collection, store, x)
    decreases |fields|
  {
    if |fields| > 0 {
      var init := fields[..|fields| - 1];
      var key := fields[|fields| - 1];
      assert fields == init + [key];
      AdjustedMembers(init, collection, store);
      forall x ensures x in Adjusted(fields, collection, store) <==> Produced(fields, collection, store, x) {
        ProducedSnoc(init, key, collection, store, x);
      }
    }
  }

  /** `adjustFieldsForDisplays(fields, collection)` */
  method AdjustFieldsForDisplays(fields: seq<string>, collection: string, store: FieldsStore)
    returns (adjusted: seq<string>)
    ensures adjusted == Adjusted(fields, collection, store)
  {
    adjusted := [];
    var i := 0;
    while i < |fields|
      invariant 0 <= i <= |fields|
      invariant adjusted == Adjusted(fields[..i], collection, store)
    {
      var key := fields[i];
      adjusted := Add(adjusted, key);
      if '.' in key {
        var root := BeforeFirst(key, '.');
        adjusted := Add(adjusted, root);
        if store.Available? {
          var field := store.getField(collection, root);
          if field.Found? && "translations" in field.special {
            adjusted := Add(adjusted, "translations");
            adjusted := Add(adjusted, key);
          }
        }
      }
      assert fields[..i + 1][..i] == fields[..i];
      i := i + 1;
    }
    assert fields[..i] == fields;
  }

  /** Every key is kept and every dotted key brings its root. */
  lemma KeysAndRootsKept(fields: seq<string>, collection: string, store: FieldsStore)
    ensures forall k :: k in fields ==> k in Adjusted(fields, collection, store)
    ensures forall k :: k in fields && '.' in k ==>
      BeforeFirst(k, '.') in Adjusted(fields, collection, store)
  {
    AdjustedMembers(fields, collection, store);
  }

  /** `translations` appears exactly when it is a key, the root of a dotted key, or the
      store flags the root of a dotted key. */
  lemma TranslationsIff(fields: seq<string>, collection: string, store: FieldsStore)
    ensures "translations" in Adjusted(fields, collection, store) <==>
      || "translations" in fields
      || (exists k :: k in fields && RootOf(k, "translations"))
      || (exists k :: k in fields && '.' in k && FlagsTranslations(store, collection, BeforeFirst(k, '.')))
  {
    AdjustedMembers(fields, collection, store);
  }

  /** A store that is unavailable, or whose every lookup throws, leaves just the keys and
      their roots. */
  lemma WithoutStoreOnlyKeysAndRoots(fields: seq<string>, collection: string, store: FieldsStore)
    requires store.Unavailable? || forall c, r :: store.getField(c, r) == Threw
    ensures forall x :: x in Adjusted(fields, collection, store) <==>
      x in fields || exists k :: k in fields && RootOf(k, x)
  {
    AdjustedMembers(fields, collection, store);
  }

  /** Distinct keys without a dot pass through unchanged and in order. */
  lemma {:induction false} FlatKeysUnchanged(fields: seq<string>, collection: string, store: FieldsStore)
    requires forall i :: 0 <= i < |fields| ==> '.' !in fields[i]
    requires forall i, j :: 0 <= i < j < |fields| ==> fields[i] != fields[j]
    ensures Adjusted(fields, collection, store) == fields
    decreases |fields|
  {
    if |fields| > 0 {
      var init := fields[..|fields| - 1];
      var key := fields[|fields| - 1];
      FlatPrefix(fields);
      FlatKeysUnchanged(init, collection, store);
      FlatKeyAppended(init, key, collection, store);
    }
  }

  /** Without its last key, a list of distinct keys without dots is still one, and the
      last key is new to it. */
  lemma FlatPrefix(fields: seq<string>)
    requires |fields| > 0
    requires forall i :: 0 <= i < |fields| ==> '.' !in fields[i]
    requires forall i, j :: 0 <= i < j < |fields| ==> fields[i] != fields[j]
    ensures var init := fields[..|fields| - 1];
      && (forall i :: 0 <= i < |init| ==> '.' !in init[i])
      && (forall i, j :: 0 <= i < j < |init| ==> init[i] != init[j])
      && '.' !in fields[|fields| - 1] && fields[|fields| - 1] !in init
      && fields == init + [fields[|fields| - 1]]
  {
    var init := fields[..|fields| - 1];
    forall i | 0 <= i < |init|
      ensures init[i] == fields[i] && init[i] != fields[|fields| - 1]
    {
    }
  }

  /** A new key without a dot, after keys that came back unchanged, is appended. */
  lemma FlatKeyAppended(init: seq<string>, key: string, collection: string, store: FieldsStore)
    requires Adjusted(init, collection, store) == init
    requires '.' !in key && key !in init
    ensures Adjusted(init + [key], collection, store) == init + [key]
  {
    assert (init + [key])[..|init|] == init;
    assert Step(init, key, collection, store) == init + [key];
  }

}
