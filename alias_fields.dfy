/** Per-column fetch descriptions. For each shown column key the layout records the root
    relation, the paths to fetch (through AdjustFields) and whether the column is aliased.
    Keys sharing a root are grouped and a `needsAliasing` flag is computed per root, but both
    branches that consult it build the same unaliased entry, so no alias is ever produced.
    Values are read back by dotted path, with `$`-prefixed path segments dropped. */
module AliasFields {
  import opened Strings
  import opened OrderedMaps
  import opened AdjustFields
  import opened Options

  /** `AliasFields`: an aliased entry carries the alias under which its root is fetched. */
  datatype AliasField =
    | Unaliased(fieldName: string, fields: seq<string>, key: string)
    | Aliased(fieldName: string, fieldAlias: string, fields: seq<string>, key: string)

  /** `(field.split('.'))[0]`: the root relation of a key (the whole key when it has no dot). */
  function RootName(key: string): (r: string)
    ensures '.' !in r && StartsWith(key, r)
    ensures '.' !in key ==> r == key
  {
    BeforeFirst(key, '.')
  }

  /** The keys with root `root`, in input order, repeats included. */
  function KeysWithRoot(fields: seq<string>, root: string): (r: seq<string>)
    ensures forall k :: k in r <==> k in fields && RootName(k) == root
  {
    if |fields| == 0 then []
    else if RootName(fields[0]) == root then [fields[0]] + KeysWithRoot(fields[1..], root)
    else KeysWithRoot(fields[1..], root)
  }

  /** Some key has root `root`. */
  predicate HasRoot(fields: seq<string>, root: string) {
    exists k :: k in fields && RootName(k) == root
  }

  /** The root of every key, repeats included. */
  function Roots(fields: seq<string>): (r: seq<string>)
    ensures forall root :: root in r <==> HasRoot(fields, root)
  {
    if |fields| == 0 then [] else [RootName(fields[0])] + Roots(fields[1..])
  }

  /** `fieldsByRoot`: the roots in order of first appearance, each with its keys. */
  function FieldsByRoot(fields: seq<string>): (r: OMap<seq<string>>)
    ensures r.Valid()
    ensures r.keys == Dedup(Roots(fields))
    ensures forall root :: root in r.values <==> HasRoot(fields, root)
    ensures forall root :: root in r.values ==> r.values[root] == KeysWithRoot(fields, root)
  {
    var roots := Dedup(Roots(fields));
    OMap(roots, map root | root in roots :: KeysWithRoot(fields, root))
  }

  /** `[...new Set(group)].length > 1 && group.some(f => f.includes('.'))` */
  function NeedsAliasingFor(group: seq<string>): bool {
    |Dedup(group)| > 1 && exists f :: f in group && '.' in f
  }

  /** `needsAliasing`, indexed by root. */
  function NeedsAliasing(fields: seq<string>): map<string, bool> {
    var groups := FieldsByRoot(fields);
    map root | root in groups.values :: NeedsAliasingFor(groups.values[root])
  }

  /** Every root has a flag, and a root needs aliasing exactly when two different keys share
      it and one of its keys has a dot. */
  lemma NeedsAliasingIff(fields: seq<string>, root: string)
    ensures root in NeedsAliasing(fields) <==> HasRoot(fields, root)
    ensures root in NeedsAliasing(fields) ==> (NeedsAliasing(fields)[root] <==>
      (exists a, b :: a in fields && b in fields && a != b && RootName(a) == root && RootName(b) == root)
      && (exists f :: f in fields && RootName(f) == root && '.' in f))
  {
    var group := KeysWithRoot(fields, root);
    DedupMoreThanOne(group);
    if root in NeedsAliasing(fields) {
      assert NeedsAliasing(fields)[root] == NeedsAliasingFor(group);
    }
  }

  /** The entry both branches of the loop build for `key`. */
  function EntryFor(key: string, collection: string, store: FieldsStore): AliasField {
    Unaliased(RootName(key), Adjusted([key], collection, store), key)
  }

  /** `aliasedFields`: one entry per distinct key in order of first appearance, or no entry
      at all for an empty key list or an absent collection (`""` stands for null). */
  method AliasedFields(fields: seq<string>, collection: string, store: FieldsStore)
    returns (r: OMap<AliasField>)
    ensures r.Valid()
    ensures |fields| == 0 || collection == "" ==> r.keys == [] && r.values == map[]
    ensures |fields| > 0 && collection != "" ==> r.keys == Dedup(fields)
    ensures forall k :: k in r.values ==> r.values[k] == EntryFor(k, collection, store)
  {
    r := Empty();
    if |fields| == 0 || collection == "" {
      return;
    }
    var needs := NeedsAliasing(fields);
    var i := 0;
    while i < |fields|
      invariant 0 <= i <= |fields|
      invariant r.Valid()
      invariant r.keys == Dedup(fields[..i])
      invariant forall k :: k in r.values ==> r.values[k] == EntryFor(k, collection, store)
    {
      RecordedPrefix(r, fields, i, collection, store);
      r := RecordField(r, fields[i], collection, store, needs);
      i := i + 1;
    }
    assert fields[..i] == fields;
  }

  /** Recording one more key keeps the loop's invariant. */
  lemma RecordedPrefix(p: OMap<AliasField>, fields: seq<string>, i: nat, collection: string, store: FieldsStore)
    requires i < |fields| && p.Valid() && p.keys == Dedup(fields[..i])
    requires forall k :: k in p.values ==> p.values[k] == EntryFor(k, collection, store)
    ensures var r := p.Put(fields[i], EntryFor(fields[i], collection, store));
      && r.Valid() && r.keys == Dedup(fields[..i + 1])
      && (forall k :: k in r.values ==> r.values[k] == EntryFor(k, collection, store))
  {
    PrefixSnoc(fields, i);
    DedupSnoc(fields[..i], fields[i]);
  }

  /** One pass of the loop: `aliasedFields[field] = { ... }` on either branch. */
  method RecordField(r: OMap<AliasField>, field: string, collection: string, store: FieldsStore,
                     needs: map<string, bool>)
    returns (r': OMap<AliasField>)
    requires r.Valid()
    ensures r' == r.Put(field, EntryFor(field, collection, store))
  {
    var fieldName := RootName(field);
    var paths := AdjustFieldsForDisplays([field], collection, store);
    if !(fieldName in needs && needs[fieldName]) {
      r' := r.Put(field, Unaliased(fieldName, paths, field));
    } else {
      r' := r.Put(field, Unaliased(fieldName, paths, field));
    }
  }

  /** `Object.values(record)` in key order. */
  function Values(r: OMap<AliasField>): (vs: seq<AliasField>)
    requires r.Valid()
    ensures |vs| == |r.keys|
    ensures forall i :: 0 <= i < |vs| ==> vs[i] == r.values[r.keys[i]]
  {
    seq(|r.keys|, i requires 0 <= i < |r.keys| => r.values[r.keys[i]])
  }

  /** `aliasedKeys`: the aliases of the aliased entries, in order. */
  function AliasedKeys(vs: seq<AliasField>): (r: seq<string>)
    ensures forall a :: a in r <==> exists i :: 0 <= i < |vs| && vs[i].Aliased? && vs[i].fieldAlias == a
    ensures (forall i :: 0 <= i < |vs| ==> vs[i].Unaliased?) ==> r == []
  {
    if |vs| == 0 then []
    else
      var rest := AliasedKeys(vs[1..]);
      assert forall i :: 1 <= i < |vs| ==> vs[i] == vs[1..][i - 1];
      if vs[0].Aliased? then [vs[0].fieldAlias] + rest else rest
  }

  /** `aliasQuery`: alias to root name, later aliased entries overwriting earlier ones. */
  function AliasQuery(vs: seq<AliasField>): (r: map<string, string>)
    ensures forall a :: a in r <==> exists i :: 0 <= i < |vs| && vs[i].Aliased? && vs[i].fieldAlias == a
    ensures (forall i :: 0 <= i < |vs| ==> vs[i].Unaliased?) ==> r == map[]
    decreases |vs|
  {
    if |vs| == 0 then map[]
    else
      var init := vs[..|vs| - 1];
      var last := vs[|vs| - 1];
      var prev := AliasQuery(init);
      assert forall i :: 0 <= i < |init| ==> init[i] == vs[i];
      if last.Aliased? then prev[last.fieldAlias := last.fieldName] else prev
  }

  /** Entries built for the columns carry no aliases, so nothing is aliased. */
  lemma NoAliases(r: OMap<AliasField>, collection: string, store: FieldsStore)
    requires r.Valid()
    requires forall k :: k in r.values ==> r.values[k] == EntryFor(k, collection, store)
    ensures AliasedKeys(Values(r)) == []
    ensures AliasQuery(Values(r)) == map[]
  {
    var vs := Values(r);
    assert forall i :: 0 <= i < |vs| ==> vs[i].Unaliased?;
  }

  /** The segments of a dotted key that do not start with `$`. */
  function KeepPlainSegments(parts: seq<string>): (r: seq<string>)
    ensures forall i :: 0 <= i < |r| ==> !StartsWith(r[i], "$")
    ensures forall p :: p in r <==> p in parts && !StartsWith(p, "$")
    ensures (forall i :: 0 <= i < |parts| ==> !StartsWith(parts[i], "$")) ==> r == parts
  {
    if |parts| == 0 then []
    else if StartsWith(parts[0], "$") then KeepPlainSegments(parts[1..])
    else [parts[0]] + KeepPlainSegments(parts[1..])
  }

  /** The key after `$`-prefixed segments are skipped; a key without a dot is kept. */
  function StripDollarSegments(key: string): string {
    if '.' in key then Join(KeepPlainSegments(Split(key, '.')), '.') else key
  }

  /** Stripping keeps keys without a dot and keys without `$` segments, and leaves no `$`
      segment behind: the segments of the result are exactly the kept ones. */
  lemma StripDollarSegmentsFacts(key: string)
    ensures '.' !in key ==> StripDollarSegments(key) == key
    ensures (forall i :: 0 <= i < |Split(key, '.')| ==> !StartsWith(Split(key, '.')[i], "$")) ==>
      StripDollarSegments(key) == key
    ensures '.' in key && |KeepPlainSegments(Split(key, '.'))| > 0 ==>
      Split(StripDollarSegments(key), '.') == KeepPlainSegments(Split(key, '.'))
  {
    var kept := KeepPlainSegments(Split(key, '.'));
    if '.' in key && |kept| > 0 {
      SplitJoin(kept, '.');
    }
  }

  /** `record.find(f => f.key === key)` */
  function FindByKey(vs: seq<AliasField>, key: string): (r: Option<AliasField>)
    ensures r.Some? ==> r.value in vs && r.value.key == key
    ensures r.None? ==> forall i :: 0 <= i < |vs| ==> vs[i].key != key
  {
    if |vs| == 0 then None
    else if vs[0].key == key then Some(vs[0])
    else FindByKey(vs[1..], key)
  }

  /** `getFromAliasedItem(item, key)` with `get` the dotted-path lookup of the utilities
      library. */
  function GetFromAliasedItem<T, V>(vs: seq<AliasField>, item: T, key: string, get: (T, string) -> V): V {
    var info := FindByKey(vs, key);
    var k := StripDollarSegments(key);
    if info.None? || info.value.Unaliased? then get(item, k)
    else if '.' !in k then get(item, info.value.fieldAlias)
    else get(item, info.value.fieldAlias + "." + Join(Split(k, '.')[1..], '.'))
  }

  /** For the entries built for the columns, every value is a plain lookup of the stripped key. */
  lemma GetIsPlainLookup<T, V>(r: OMap<AliasField>, collection: string, store: FieldsStore,
                               item: T, key: string, get: (T, string) -> V)
    requires r.Valid()
    requires forall k :: k in r.values ==> r.values[k] == EntryFor(k, collection, store)
    ensures GetFromAliasedItem(Values(r), item, key, get) == get(item, StripDollarSegments(key))
  {
    var vs := Values(r);
    var info := FindByKey(vs, key);
    if info.Some? {
      var i :| 0 <= i < |vs| && vs[i] == info.value;
    }
  }

  /** A `$`-prefixed last segment is skipped: `image.$thumbnail` reads `image`. */
  lemma DollarSuffixSkipped(root: string, segment: string)
    requires '.' !in root && '.' !in segment
    requires !StartsWith(root, "$") && StartsWith(segment, "$")
    ensures StripDollarSegments(root + "." + segment) == root
  {
    var parts := [root, segment];
    assert Join(parts, '.') == root + "." + segment;
    SplitJoin(parts, '.');
    assert parts[1..] == [segment];
    assert KeepPlainSegments([segment]) == [];
  }
}
