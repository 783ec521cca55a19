/** String helpers with the semantics of the JavaScript string methods the layout uses:
    `split` on one character, `join`, `startsWith`, `includes`, ASCII case mapping and
    decimal rendering of integers. */
module Strings {

  /** `s.startsWith(p)` */
  predicate StartsWith(s: string, p: string) {
    |p| <= |s| && s[..|p|] == p
  }

  /** `s.includes(sub)` */
  predicate Contains(s: string, sub: string)
    decreases |s|
  {
    StartsWith(s, sub) || (|s| > 0 && Contains(s[1..], sub))
  }

  /** `sub` occurs in `s` starting at position `i`. */
  predicate OccursAt(s: string, sub: string, i: int) {
    0 <= i <= |s| - |sub| && s[i..i + |sub|] == sub
  }

  /** Contains agrees with the existence of an occurrence at some position. */
  lemma {:induction false} ContainsAt(s: string, sub: string)
    ensures Contains(s, sub) <==> exists i :: OccursAt(s, sub, i)
    decreases |s|
  {
    if StartsWith(s, sub) {
      assert OccursAt(s, sub, 0);
    } else if |s| > 0 {
      ContainsAt(s[1..], sub);
      if Contains(s[1..], sub) {
        var i :| OccursAt(s[1..], sub, i);
        assert s[i + 1..i + 1 + |sub|] == s[1..][i..i + |sub|];
        assert OccursAt(s, sub, i + 1);
      }
      if exists i :: OccursAt(s, sub, i) {
        var i :| OccursAt(s, sub, i);
        assert s[1..][i - 1..i - 1 + |sub|] == s[i..i + |sub|];
        assert OccursAt(s[1..], sub, i - 1);
      }
    }
  }

  /** Position of the first occurrence of `c` in `s`. */
  function IndexOf(s: string, c: char): (i: nat)
    requires c in s
    ensures i < |s| && s[i] == c && c !in s[..i]
  {
    if s[0] == c then 0 else 1 + IndexOf(s[1..], c)
  }

  /** `parts.join(c)` */
  function Join(parts: seq<string>, c: char): string
  {
    if |parts| == 0 then ""
    else if |parts| == 1 then parts[0]
    else parts[0] + [c] + Join(parts[1..], c)
  }

  /** `s.split(c)`: the maximal pieces between occurrences of `c`; there is always one more
      piece than there are occurrences, so `"".split(c)` is `[""]`. */
  function Split(s: string, c: char): (parts: seq<string>)
    ensures |parts| >= 1
    ensures forall i :: 0 <= i < |parts| ==> c !in parts[i]
    ensures Join(parts, c) == s
    ensures c !in s ==> parts == [s]
    decreases |s|
  {
    if c !in s then [s]
    else
      var i := IndexOf(s, c);
      var rest := Split(s[i + 1..], c);
      assert s == s[..i] + [c] + s[i + 1..];
      [s[..i]] + rest
  }

  /** Splitting undoes joining pieces that do not contain the separator. */
  lemma {:induction false} SplitJoin(parts: seq<string>, c: char)
    requires |parts| >= 1
    requires forall i :: 0 <= i < |parts| ==> c !in parts[i]
    ensures Split(Join(parts, c), c) == parts
    decreases |parts|
  {
    if |parts| == 1 {
    } else {
      var s := Join(parts, c);
      assert s == parts[0] + [c] + Join(parts[1..], c);
      var i := IndexOf(s, c);
      assert s[|parts[0]|] == c;
      assert s[..i] == parts[0];
      assert s[i + 1..] == Join(parts[1..], c);
      SplitJoin(parts[1..], c);
    }
  }

  /** Splitting at a first separator gives the piece before it and the pieces of the rest. */
  lemma SplitCons(head: string, c: char, rest: string)
    requires c !in head
    ensures Split(head + [c] + rest, c) == [head] + Split(rest, c)
  {
    var s := head + [c] + rest;
    assert s[|head|] == c;
    assert s[..|head|] == head;
    assert IndexOf(s, c) == |head|;
    assert s[|head| + 1..] == rest;
  }

  /** Joining a piece in front of at least one more puts a separator between them. */
  lemma JoinCons(x: string, parts: seq<string>, c: char)
    requires |parts| >= 1
    ensures Join([x] + parts, c) == x + [c] + Join(parts, c)
  {
    assert ([x] + parts)[1..] == parts;
  }

  /** `s.split(c)[0]`: everything before the first `c`, or all of `s`. */
  function BeforeFirst(s: string, c: char): (r: string)
    ensures c !in r
    ensures StartsWith(s, r)
    ensures c in s ==> |r| < |s| && s[|r|] == c
    ensures c !in s ==> r == s
  {
    var parts := Split(s, c);
    JoinHead(parts, c);
    parts[0]
  }

  /** The first piece of a join is a prefix of it, followed by the separator when there are more. */
  lemma JoinHead(parts: seq<string>, c: char)
    requires |parts| >= 1
    ensures StartsWith(Join(parts, c), parts[0])
    ensures |parts| > 1 ==> |parts[0]| < |Join(parts, c)| && Join(parts, c)[|parts[0]|] == c
  {
    if |parts| > 1 {
      assert Join(parts, c) == parts[0] + [c] + Join(parts[1..], c);
      assert Join(parts, c)[..|parts[0]|] == parts[0];
    }
  }

  /** The prefix before the first `c`, characterised without reference to Split. */
  lemma BeforeFirstOfConcat(k: string, c: char, rest: string)
    requires c !in k
    ensures BeforeFirst(k + [c] + rest, c) == k
  {
    var s := k + [c] + rest;
    var r := BeforeFirst(s, c);
    assert s[|k|] == c;
    assert r == s[..|r|] == k;
  }

  /** Lower-case an ASCII letter; every other character is kept. */
  function LowerChar(ch: char): char {
    if 'A' <= ch <= 'Z' then (ch as int + 32) as char else ch
  }

  /** Upper-case an ASCII letter; every other character is kept. */
  function UpperChar(ch: char): char {
    if 'a' <= ch <= 'z' then (ch as int - 32) as char else ch
  }

  /** `s.toLowerCase()`, restricted to ASCII letters. */
  function ToLower(s: string): (r: string)
    ensures |r| == |s|
    ensures forall i :: 0 <= i < |s| ==> r[i] == LowerChar(s[i])
  {
    seq(|s|, i requires 0 <= i < |s| => LowerChar(s[i]))
  }

  /** `s.toUpperCase()`, restricted to ASCII letters. */
  function ToUpper(s: string): (r: string)
    ensures |r| == |s|
    ensures forall i :: 0 <= i < |s| ==> r[i] == UpperChar(s[i])
  {
    seq(|s|, i requires 0 <= i < |s| => UpperChar(s[i]))
  }

  /** A string with no upper-case ASCII letter. */
  predicate IsLower(s: string) {
    forall i :: 0 <= i < |s| ==> !('A' <= s[i] <= 'Z')
  }

  /** Lower-casing yields a lower-case string and leaves lower-case strings alone. */
  lemma ToLowerFacts(s: string)
    ensures IsLower(ToLower(s))
    ensures IsLower(s) ==> ToLower(s) == s
    ensures ToLower(ToLower(s)) == ToLower(s)
  {
  }

  function DigitChar(d: nat): (ch: char)
    requires d < 10
    ensures '0' <= ch <= '9'
  {
    "0123456789"[d]
  }

  function DigitValue(ch: char): nat
    requires '0' <= ch <= '9'
  {
    ch as int - '0' as int
  }

  predicate IsDigits(s: string) {
    forall i :: 0 <= i < |s| ==> '0' <= s[i] <= '9'
  }

  /** The decimal reading of a string of digits. */
  function ParseDecimal(s: string): nat
    requires IsDigits(s)
  {
    if s == [] then 0 else ParseDecimal(s[..|s| - 1]) * 10 + DigitValue(s[|s| - 1])
  }

  /** `String(n)` for a non-negative integer: shortest decimal form. */
  function NatToString(n: nat): (s: string)
    ensures |s| >= 1 && IsDigits(s)
    ensures ParseDecimal(s) == n
    ensures s[0] == '0' ==> n == 0
  {
    if n < 10 then [DigitChar(n)]
    else
      var prefix := NatToString(n / 10);
      var s := prefix + [DigitChar(n % 10)];
      assert s[..|s| - 1] == prefix;
      s
  }

  /** `String(i)` for an integer. */
  function IntToString(i: int): string {
    if i < 0 then "-" + NatToString(-i) else NatToString(i)
  }

  /** Different numbers render differently, so a rendering can be read back unambiguously. */
  lemma NatToStringInjective(m: nat, n: nat)
    requires NatToString(m) == NatToString(n)
    ensures m == n
  {
  }

  /** `xs` with later repeats removed: the iteration order of `[...new Set(xs)]`. */
  function Dedup(xs: seq<string>): (r: seq<string>)
    ensures forall i, j :: 0 <= i < j < |r| ==> r[i] != r[j]
    ensures forall x :: x in r <==> x in xs
    ensures (forall i, j :: 0 <= i < j < |xs| ==> xs[i] != xs[j]) ==> r == xs
    decreases |xs|
  {
    if |xs| == 0 then []
    else
      var init := xs[..|xs| - 1];
      var d := Dedup(init);
      var last := xs[|xs| - 1];
      assert xs == init + [last];
      if last in d then d else d + [last]
  }

  /** Deduplicating `xs + [x]` appends `x` unless it was already seen. */
  lemma DedupSnoc(xs: seq<string>, x: string)
    ensures Dedup(xs + [x]) == if x in Dedup(xs) then Dedup(xs) else Dedup(xs) + [x]
  {
    assert (xs + [x])[..|xs + [x]| - 1] == xs;
  }

  /** More than one element survives deduplication exactly when two different values occur. */
  lemma DedupMoreThanOne(xs: seq<string>)
    ensures |Dedup(xs)| > 1 <==> exists a, b :: a in xs && b in xs && a != b
  {
    var d := Dedup(xs);
    if |d| > 1 {
      assert d[0] in xs && d[1] in xs && d[0] != d[1];
    }
    if exists a, b :: a in xs && b in xs && a != b {
      var a, b :| a in xs && b in xs && a != b;
      assert a in d && b in d;
      var i :| 0 <= i < |d| && d[i] == a;
      var j :| 0 <= j < |d| && d[j] == b;
      assert i != j;
    }
  }

  /** The index of the first occurrence of `x` in `xs`. */
  function Position(xs: seq<string>, x: string): (k: nat)
    requires x in xs
    ensures k < |xs| && xs[k] == x
    ensures forall j :: 0 <= j < k ==> xs[j] != x
  {
    if xs[0] == x then 0 else 1 + Position(xs[1..], x)
  }

  /** Appending an element moves no earlier first occurrence. */
  lemma PositionSnoc(xs: seq<string>, x: string, y: string)
    requires y in xs
    ensures Position(xs + [x], y) == Position(xs, y)
  {
    var k := Position(xs, y);
    assert (xs + [x])[k] == y;
    assert forall j :: 0 <= j < k ==> (xs + [x])[j] == xs[j];
    var k' := Position(xs + [x], y);
    assert k' <= k;
    assert k' == k;
  }

  /** Deduplication lists values in the order of their first occurrence in `xs`. */
  lemma {:induction false} DedupKeepsFirstOrder(xs: seq<string>)
    ensures forall i, j :: 0 <= i < j < |Dedup(xs)| ==>
      Position(xs, Dedup(xs)[i]) < Position(xs, Dedup(xs)[j])
    decreases |xs|
  {
    if |xs| > 0 {
      var init := xs[..|xs| - 1];
      var last := xs[|xs| - 1];
      assert xs == init + [last];
      DedupKeepsFirstOrder(init);
      DedupSnoc(init, last);
      var d := Dedup(init);
      forall y | y in d
        ensures Position(xs, y) == Position(init, y)
      {
        PositionSnoc(init, last, y);
      }
      if last !in d {
        assert last !in init;
        assert Position(xs, last) == |init|;
      }
    }
  }

  /** Extending a prefix by one element. */
  lemma PrefixSnoc(xs: seq<string>, i: nat)
    requires i < |xs|
    ensures xs[..i + 1] == xs[..i] + [xs[i]]
  {
  }

  /** The list with every copy of `key` dropped, as `filter(x => x !== key)`. */
  function Without(fields: seq<string>, key: string): (r: seq<string>)
    ensures forall x :: x in r <==> x in fields && x != key
    ensures |r| <= |fields|
  {
    if |fields| == 0 then []
    else if fields[0] == key then Without(fields[1..], key)
    else [fields[0]] + Without(fields[1..], key)
  }

  /** Removing keeps the order: it distributes over concatenation and leaves a list without
      the key as it is. */
  lemma {:induction false} WithoutKeepsOrder(a: seq<string>, b: seq<string>, key: string)
    ensures Without(a + b, key) == Without(a, key) + Without(b, key)
    ensures key !in a ==> Without(a, key) == a
    decreases |a|
  {
    if |a| > 0 {
      assert (a + b)[1..] == a[1..] + b;
      WithoutKeepsOrder(a[1..], b, key);
    } else {
      assert a + b == b;
    }
  }
}
