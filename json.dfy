/** JSON values as they appear in filter predicates, translation rows and edit values,
    with the parts of JavaScript's object model the layout relies on: `Object.entries`,
    `Object.keys(...).length`, truthiness, property read, spread-and-set and `delete`. */
module Json {
  import opened Options
  import opened Strings

  /** A JSON value. Numbers are integers; an object keeps its members in insertion order. */
  datatype Json =
    | JNull
    | JBool(b: bool)
    | JNum(n: int)
    | JStr(s: string)
    | JArr(items: seq<Json>)
    | JObj(members: seq<(string, Json)>)

  /** The empty object `{}`. */
  const Empty: Json := JObj([])

  /** Keys of a member list. */
  function KeysOf(members: seq<(string, Json)>): (ks: seq<string>)
    ensures |ks| == |members|
    ensures forall i :: 0 <= i < |members| ==> ks[i] == members[i].0
  {
    seq(|members|, i requires 0 <= i < |members| => members[i].0)
  }

  /** A JavaScript object never holds the same key twice. */
  predicate DistinctKeys(members: seq<(string, Json)>) {
    forall i, j :: 0 <= i < j < |members| ==> members[i].0 != members[j].0
  }

  /** `Object.entries(j)`: the members of an object, the indexed elements of an array,
      the indexed characters of a string, and nothing for the other values. */
  function Entries(j: Json): (es: seq<(string, Json)>)
    ensures j.JObj? ==> es == j.members
    ensures j.JArr? ==> |es| == |j.items|
    ensures j.JStr? ==> |es| == |j.s|
    ensures !j.JObj? && !j.JArr? && !j.JStr? ==> es == []
  {
    match j
    case JObj(ms) => ms
    case JArr(items) => seq(|items|, i requires 0 <= i < |items| => (NatToString(i), items[i]))
    case JStr(s) => seq(|s|, i requires 0 <= i < |s| => (NatToString(i), JStr([s[i]])))
    case _ => []
  }

  /** `Object.keys(j).length`. */
  function KeyCount(j: Json): nat {
    |Entries(j)|
  }

  /** `typeof j === 'object' && j !== null`: objects and arrays. */
  predicate IsObjectLike(j: Json) {
    j.JObj? || j.JArr?
  }

  /** JavaScript truthiness of a JSON value. */
  predicate Truthy(j: Json) {
    match j
    case JNull => false
    case JBool(b) => b
    case JNum(n) => n != 0
    case JStr(s) => s != ""
    case _ => true
  }

  /** `members[key]` on an object: the value of the first member with that key. */
  function Get(members: seq<(string, Json)>, key: string): (r: Option<Json>)
    ensures r.None? <==> key !in KeysOf(members)
    ensures r.Some? ==> (key, r.value) in members
  {
    if |members| == 0 then None
    else if members[0].0 == key then Some(members[0].1)
    else Get(members[1..], key)
  }

  /** Looking a key up in a member list: the head's value, or the tail's lookup. */
  lemma GetCons(k: string, v: Json, rest: seq<(string, Json)>, key: string)
    ensures Get([(k, v)] + rest, key) == (if k == key then Some(v) else Get(rest, key))
  {
    assert ([(k, v)] + rest)[1..] == rest;
  }

  /** `{...obj, [key]: v}`: an existing key keeps its position and takes the new value;
      a new key is appended. */
  function Put(members: seq<(string, Json)>, key: string, v: Json): (r: seq<(string, Json)>)
    ensures key in KeysOf(members) ==> |r| == |members|
    ensures key !in KeysOf(members) ==> r == members + [(key, v)]
    ensures forall i :: 0 <= i < |members| && members[i].0 != key ==> r[i] == members[i]
    ensures forall i :: 0 <= i < |members| && members[i].0 == key ==> r[i] == (key, v)
  {
    if key in KeysOf(members) then
      seq(|members|, i requires 0 <= i < |members| =>
        if members[i].0 == key then (key, v) else members[i])
    else members + [(key, v)]
  }

  /** `delete obj[key]`: every other member stays, in order. */
  function Remove(members: seq<(string, Json)>, key: string): (r: seq<(string, Json)>)
    ensures key !in KeysOf(r)
    ensures forall m :: m in r <==> m in members && m.0 != key
    ensures |r| <= |members|
  {
    if |members| == 0 then []
    else if members[0].0 == key then Remove(members[1..], key)
    else [members[0]] + Remove(members[1..], key)
  }

  /** The position of the first member with the key. */
  function FirstIndex(members: seq<(string, Json)>, key: string): (i: nat)
    requires key in KeysOf(members)
    ensures i < |members| && members[i].0 == key
    ensures forall j :: 0 <= j < i ==> members[j].0 != key
  {
    if members[0].0 == key then 0
    else
      assert KeysOf(members) == [members[0].0] + KeysOf(members[1..]);
      1 + FirstIndex(members[1..], key)
  }

  /** Reading a key after setting it gives the value set, and every other key reads as
      before. */
  lemma GetPut(members: seq<(string, Json)>, key: string, v: Json)
    ensures Get(Put(members, key, v), key) == Some(v)
    ensures forall g :: g != key ==> Get(Put(members, key, v), g) == Get(members, g)
  {
    if key in KeysOf(members) {
      GetFirst(Put(members, key, v), key, FirstIndex(members, key));
    } else {
      GetFirst(Put(members, key, v), key, |members|);
    }
    forall g | g != key
      ensures Get(Put(members, key, v), g) == Get(members, g)
    {
      GetPutOther(members, key, v, g);
    }
  }

  /** Setting one key leaves the reading of another. */
  lemma GetPutOther(members: seq<(string, Json)>, key: string, v: Json, g: string)
    requires g != key
    ensures Get(Put(members, key, v), g) == Get(members, g)
  {
    var r := Put(members, key, v);
    if g in KeysOf(members) {
      var i := FirstIndex(members, g);
      GetFirst(members, g, i);
      GetFirst(r, g, i);
    } else {
      assert forall i :: 0 <= i < |r| ==> r[i].0 != g;
      assert g !in KeysOf(r);
    }
  }

  /** Setting a key of an object with distinct keys keeps them distinct. */
  lemma GetAfterPut(members: seq<(string, Json)>, key: string, v: Json)
    requires DistinctKeys(members)
    ensures Get(Put(members, key, v), key) == Some(v)
    ensures DistinctKeys(Put(members, key, v))
  {
    GetPut(members, key, v);
  }

  /** In an object with distinct keys, `Get` finds the one member with the key. */
  lemma {:induction false} GetFirst(members: seq<(string, Json)>, key: string, i: nat)
    requires i < |members| && members[i].0 == key
    requires forall j :: 0 <= j < i ==> members[j].0 != key
    ensures Get(members, key) == Some(members[i].1)
  {
    if i > 0 {
      GetFirst(members[1..], key, i - 1);
    }
  }

  /** Deleting a key keeps the other keys' values and the keys distinct. */
  lemma {:induction false} RemoveKeepsOthers(members: seq<(string, Json)>, key: string)
    requires DistinctKeys(members)
    ensures DistinctKeys(Remove(members, key))
    ensures forall g :: g != key ==> Get(Remove(members, key), g) == Get(members, g)
    decreases |members|
  {
    if |members| > 0 {
      var head := members[0];
      var tail := members[1..];
      DistinctTail(members);
      RemoveKeepsOthers(tail, key);
      var rest := Remove(tail, key);
      if head.0 != key {
        assert Remove(members, key) == [head] + rest;
        forall m | m in rest ensures m.0 != head.0 {
          KeyOfMember(tail, m);
        }
        DistinctCons(head, rest);
      }
    }
  }

  /** The members after the first have distinct keys, none of them the first key. */
  lemma DistinctTail(members: seq<(string, Json)>)
    requires |members| > 0 && DistinctKeys(members)
    ensures DistinctKeys(members[1..])
    ensures members[0].0 !in KeysOf(members[1..])
  {
    assert forall j :: 1 <= j < |members| ==> members[j] == members[1..][j - 1];
  }

  /** A member's key is one of the keys. */
  lemma KeyOfMember(members: seq<(string, Json)>, m: (string, Json))
    requires m in members
    ensures m.0 in KeysOf(members)
  {
    var i :| 0 <= i < |members| && members[i] == m;
    assert KeysOf(members)[i] == m.0;
  }

  /** A member with a new key in front keeps the keys distinct. */
  lemma DistinctCons(head: (string, Json), rest: seq<(string, Json)>)
    requires DistinctKeys(rest)
    requires forall m :: m in rest ==> m.0 != head.0
    ensures DistinctKeys([head] + rest)
  {
    var s := [head] + rest;
    forall i, j | 0 <= i < j < |s|
      ensures s[i].0 != s[j].0
    {
      assert s[j] == rest[j - 1];
      if i > 0 {
        assert s[i] == rest[i - 1];
      }
    }
  }

  /** Setting a key twice to the same value is setting it once. */
  lemma PutTwice(members: seq<(string, Json)>, key: string, v: Json)
    ensures Put(Put(members, key, v), key, v) == Put(members, key, v)
  {
    var r := Put(members, key, v);
    assert key in KeysOf(r) by {
      if key !in KeysOf(members) {
        assert KeysOf(r)[|members|] == key;
      } else {
        var i := FirstIndex(members, key);
        assert KeysOf(r)[i] == key;
      }
    }
  }

  /** `j[key]` for a value whose property read cannot throw: its entry with that key. */
  function Prop(j: Json, key: string): (r: Option<Json>)
    ensures j.JObj? ==> r == Get(j.members, key)
    ensures !j.JObj? && !j.JArr? && !j.JStr? ==> r == None
  {
    Get(Entries(j), key)
  }

  /** `String(v)`, as a template literal renders a value: arrays join their elements with
      `,` and render `null` elements as empty text; objects render as `[object Object]`. */
  function Render(j: Json): string
    decreases j
  {
    match j
    case JNull => "null"
    case JBool(b) => if b then "true" else "false"
    case JNum(n) => IntToString(n)
    case JStr(s) => s
    case JObj(_) => "[object Object]"
    case JArr(items) =>
      Join(seq(|items|, i requires 0 <= i < |items| =>
        if items[i].JNull? then "" else Render(items[i])), ',')
  }
}
