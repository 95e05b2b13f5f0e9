/** The ordering the SQL queries ask of SQLite: `ORDER BY <text column>, id`,
    ascending or descending. TEXT columns use SQLite's BINARY collation, which
    compares the UTF-8 bytes and therefore the code points, left to right, a
    proper prefix first. Sorting is an insertion sort proved to return a
    sorted permutation of its input; the engine's own algorithm is not
    modelled, only the order it promises. */
module Ordering {
  import opened Common

  /** BINARY collation: `a` sorts no later than `b`. */
  predicate TextLe(a: string, b: string) {
    if a == [] then true
    else if b == [] then false
    else if a[0] != b[0] then a[0] < b[0]
    else TextLe(a[1..], b[1..])
  }

  lemma {:induction false} TextLeTotal(a: string, b: string)
    ensures TextLe(a, b) || TextLe(b, a)
  {
    if a != [] && b != [] && a[0] == b[0] {
      TextLeTotal(a[1..], b[1..]);
    }
  }

  lemma {:induction false} TextLeAntisymmetric(a: string, b: string)
    requires TextLe(a, b) && TextLe(b, a)
    ensures a == b
  {
    if a != [] {
      TextLeAntisymmetric(a[1..], b[1..]);
      assert a == [a[0]] + a[1..] && b == [b[0]] + b[1..];
    }
  }

  lemma {:induction false} TextLeTransitive(a: string, b: string, c: string)
    requires TextLe(a, b) && TextLe(b, c)
    ensures TextLe(a, c)
  {
    if a != [] && a[0] == b[0] && b[0] == c[0] {
      TextLeTransitive(a[1..], b[1..], c[1..]);
    }
  }

  /** The sort key of a row: the text column, then the id. */
  datatype SortKey = SortKey(text: string, id: int)

  /** Ascending order on keys: by text, ties broken by id. */
  predicate KeyLe(x: SortKey, y: SortKey) {
    if x.text == y.text then x.id <= y.id else TextLe(x.text, y.text)
  }

  /** `x` may come before `y` in an ascending (`desc` false) or descending listing. */
  predicate Precedes(x: SortKey, y: SortKey, desc: bool) {
    if desc then KeyLe(y, x) else KeyLe(x, y)
  }

  lemma KeyLeTotal(x: SortKey, y: SortKey)
    ensures KeyLe(x, y) || KeyLe(y, x)
  {
    TextLeTotal(x.text, y.text);
  }

  lemma KeyLeTransitive(x: SortKey, y: SortKey, z: SortKey)
    requires KeyLe(x, y) && KeyLe(y, z)
    ensures KeyLe(x, z)
  {
    if x.text != y.text && y.text != z.text {
      TextLeTransitive(x.text, y.text, z.text);
      if x.text == z.text {
        TextLeAntisymmetric(x.text, y.text);
      }
    }
  }

  /** Two rows with the same key are the same place in the order. */
  lemma KeyLeAntisymmetric(x: SortKey, y: SortKey)
    requires KeyLe(x, y) && KeyLe(y, x)
    ensures x == y
  {
    if x.text != y.text {
      TextLeAntisymmetric(x.text, y.text);
    }
  }

  ghost predicate SortedBy<T>(s: seq<T>, key: T -> SortKey, desc: bool) {
    forall i, j :: 0 <= i < j < |s| ==> Precedes(key(s[i]), key(s[j]), desc)
  }

  /** Insert `x` before the first element it precedes. */
  function Insert<T>(x: T, s: seq<T>, key: T -> SortKey, desc: bool): seq<T> {
    if s == [] then [x]
    else if Precedes(key(x), key(s[0]), desc) then [x] + s
    else [s[0]] + Insert(x, s[1..], key, desc)
  }

  /** The rows of `s` in the order an `ORDER BY` on `key` returns them. */
  function SortBy<T>(s: seq<T>, key: T -> SortKey, desc: bool): seq<T> {
    if s == [] then [] else Insert(s[0], SortBy(s[1..], key, desc), key, desc)
  }

  lemma {:induction false} InsertPermutes<T>(x: T, s: seq<T>, key: T -> SortKey, desc: bool)
    ensures multiset(Insert(x, s, key, desc)) == multiset(s) + multiset{x}
  {
    if s != [] && !Precedes(key(x), key(s[0]), desc) {
      InsertPermutes(x, s[1..], key, desc);
      assert s == [s[0]] + s[1..];
    }
  }

  lemma {:induction false} InsertSorted<T>(x: T, s: seq<T>, key: T -> SortKey, desc: bool)
    requires SortedBy(s, key, desc)
    ensures SortedBy(Insert(x, s, key, desc), key, desc)
  {
    var r := Insert(x, s, key, desc);
    if s == [] {
    } else if Precedes(key(x), key(s[0]), desc) {
      forall i, j | 0 <= i < j < |r|
        ensures Precedes(key(r[i]), key(r[j]), desc)
      {
        if i == 0 && j > 1 {
          PrecedesTransitive(key(x), key(s[0]), key(s[j - 1]), desc);
        }
      }
    } else {
      var tail := Insert(x, s[1..], key, desc);
      InsertSorted(x, s[1..], key, desc);
      InsertPermutes(x, s[1..], key, desc);
      PrecedesTotal(key(x), key(s[0]), desc);
      forall j | 0 <= j < |tail|
        ensures Precedes(key(s[0]), key(tail[j]), desc)
      {
        assert tail[j] in multiset(tail);
        assert tail[j] == x || tail[j] in multiset(s[1..]);
        if tail[j] != x {
          var k :| 0 <= k < |s[1..]| && s[1..][k] == tail[j];
          assert s[k + 1] == tail[j];
        }
      }
      assert r == [s[0]] + tail;
    }
  }

  lemma PrecedesTotal(x: SortKey, y: SortKey, desc: bool)
    ensures Precedes(x, y, desc) || Precedes(y, x, desc)
  {
    KeyLeTotal(x, y);
  }

  lemma PrecedesTransitive(x: SortKey, y: SortKey, z: SortKey, desc: bool)
    requires Precedes(x, y, desc) && Precedes(y, z, desc)
    ensures Precedes(x, z, desc)
  {
    if desc {
      KeyLeTransitive(z, y, x);
    } else {
      KeyLeTransitive(x, y, z);
    }
  }

  /** The sort returns a sorted rearrangement of its input. */
  lemma {:induction false} SortByCorrect<T>(s: seq<T>, key: T -> SortKey, desc: bool)
    ensures multiset(SortBy(s, key, desc)) == multiset(s)
    ensures SortedBy(SortBy(s, key, desc), key, desc)
  {
    if s != [] {
      SortByCorrect(s[1..], key, desc);
      InsertPermutes(s[0], SortBy(s[1..], key, desc), key, desc);
      InsertSorted(s[0], SortBy(s[1..], key, desc), key, desc);
      assert s == [s[0]] + s[1..];
    }
  }

  /** `SELECT ... WHERE where ORDER BY key`: the rows that satisfy `where`,
      sorted. */
  function Select<T>(rows: seq<T>, where: T -> bool, key: T -> SortKey, desc: bool): (r: seq<T>)
    ensures multiset(r) == multiset(Filter(rows, where))
    ensures SortedBy(r, key, desc)
    ensures forall i :: 0 <= i < |r| ==> r[i] in rows && where(r[i])
    ensures forall i :: 0 <= i < |rows| && where(rows[i]) ==> rows[i] in r
  {
    var f := Filter(rows, where);
    SortByCorrect(f, key, desc);
    var r := SortBy(f, key, desc);
    assert forall i :: 0 <= i < |r| ==> r[i] in multiset(f);
    assert forall i :: 0 <= i < |rows| && where(rows[i]) ==> rows[i] in multiset(r);
    r
  }
}
