/**
 * `records.sort((a, b) => a.name.localeCompare(b.name))`, with code-point order standing
 * in for the locale's collation. A record without a name sorts as the string "undefined".
 */
module Order {
  import opened Wrappers
  import opened Js

  /** Lexicographic order on strings. */
  predicate Le(a: string, b: string)
    decreases |a|
  {
    a == [] || (b != [] && (a[0] < b[0] || (a[0] == b[0] && Le(a[1..], b[1..]))))
  }

  lemma {:induction false} LeReflexive(a: string)
    ensures Le(a, a)
    decreases |a|
  {
    if a != [] {
      LeReflexive(a[1..]);
    }
  }

  lemma {:induction false} LeTotal(a: string, b: string)
    ensures Le(a, b) || Le(b, a)
    decreases |a|
  {
    if a != [] && b != [] && a[0] == b[0] {
      LeTotal(a[1..], b[1..]);
    }
  }

  lemma {:induction false} LeTransitive(a: string, b: string, c: string)
    requires Le(a, b) && Le(b, c)
    ensures Le(a, c)
    decreases |a|
  {
    if a != [] && a[0] == b[0] && b[0] == c[0] {
      LeTransitive(a[1..], b[1..], c[1..]);
    }
  }

  lemma {:induction false} LeAntisymmetric(a: string, b: string)
    requires Le(a, b) && Le(b, a)
    ensures a == b
    decreases |a|
  {
    if a != [] {
      LeAntisymmetric(a[1..], b[1..]);
      assert a == [a[0]] + a[1..];
      assert b == [b[0]] + b[1..];
    }
  }

  /** The string the comparator reads for a record's name. */
  function NameKey(d: Doc): string {
    Show(d.name)
  }

  predicate SortedByName(s: seq<Doc>) {
    forall i, j :: 0 <= i < j < |s| ==> Le(NameKey(s[i]), NameKey(s[j]))
  }

  /** A record that sorts no later than the head of a sorted list can go in front of it. */
  lemma InsertBeforeHead(x: Doc, s: seq<Doc>)
    requires SortedByName(s) && s != [] && Le(NameKey(x), NameKey(s[0]))
    ensures SortedByName([x] + s)
  {
    var r := [x] + s;
    forall i, j | 0 <= i < j < |r|
      ensures Le(NameKey(r[i]), NameKey(r[j]))
    {
      if i == 0 && j > 1 {
        LeTransitive(NameKey(x), NameKey(s[0]), NameKey(s[j - 1]));
      }
    }
  }

  /** The head of a sorted list stays in front of the rest with a later record inserted. */
  lemma InsertAfterHead(x: Doc, s: seq<Doc>, rest: seq<Doc>)
    requires SortedByName(s) && s != [] && Le(NameKey(s[0]), NameKey(x))
    requires SortedByName(rest) && multiset(rest) == multiset(s[1..]) + multiset{x}
    ensures SortedByName([s[0]] + rest)
  {
    var r := [s[0]] + rest;
    forall j | 0 < j < |r|
      ensures Le(NameKey(s[0]), NameKey(r[j]))
    {
      assert r[j] == rest[j - 1];
      assert r[j] in multiset(rest);
      if r[j] != x {
        assert r[j] in multiset(s[1..]);
        var k :| 0 <= k < |s[1..]| && s[1..][k] == r[j];
        assert s[k + 1] == r[j];
      }
    }
    forall i, j | 0 <= i < j < |r|
      ensures Le(NameKey(r[i]), NameKey(r[j]))
    {
      if i > 0 {
        assert r[i] == rest[i - 1] && r[j] == rest[j - 1];
      }
    }
  }

  /** Places x before the first record whose name sorts after it. */
  function Insert(x: Doc, s: seq<Doc>): (r: seq<Doc>)
    requires SortedByName(s)
    ensures SortedByName(r)
    ensures multiset(r) == multiset(s) + multiset{x}
  {
    if s == [] then [x]
    else if Le(NameKey(x), NameKey(s[0])) then
      InsertBeforeHead(x, s);
      [x] + s
    else
      LeTotal(NameKey(x), NameKey(s[0]));
      assert s == [s[0]] + s[1..];
      var rest := Insert(x, s[1..]);
      InsertAfterHead(x, s, rest);
      [s[0]] + rest
  }

  /** The records ordered by name: sorted, and a permutation of the input. */
  function SortByName(s: seq<Doc>): (r: seq<Doc>)
    ensures SortedByName(r)
    ensures multiset(r) == multiset(s)
    ensures |r| == |s|
  {
    if s == [] then []
    else
      assert s == [s[0]] + s[1..];
      Insert(s[0], SortByName(s[1..]))
  }

  /** The first record of a sorted non-empty list has the least name. */
  lemma {:induction false} FirstIsLeast(s: seq<Doc>, d: Doc)
    requires SortedByName(s) && d in s
    ensures Le(NameKey(s[0]), NameKey(d))
  {
    var j :| 0 <= j < |s| && s[j] == d;
    if j == 0 {
      LeReflexive(NameKey(d));
    }
  }
}
