/**
 * The comparison sort the dashboard applies to a copy of a list
 * (`Array.prototype.sort`, stable since ECMAScript 2019), specified as a
 * stable insertion sort over a sort key. The sort keys are what the client's
 * comparators compare: a number, or a lower-cased string compared by UTF-16
 * code unit (JavaScript `<` on strings).
 */
module StableSort {
  import opened Seqs

  datatype Key = Num(n: int) | Str(s: string)

  /** The UTF-16 code units of one character: the character itself up to U+FFFF, a
      surrogate pair (high, then low) above it. */
  function Utf16(c: char): (u: seq<int>)
    ensures |u| == (if c as int < 0x10000 then 1 else 2)
    ensures c as int < 0x10000 ==> u[0] == c as int && !(0xD800 <= u[0] < 0xE000)
    ensures c as int >= 0x10000 ==> 0xD800 <= u[0] < 0xDC00 && 0xDC00 <= u[1] < 0xE000
  {
    var v := c as int;
    if v < 0x10000 then [v]
    else [0xD800 + (v - 0x10000) / 0x400, 0xDC00 + (v - 0x10000) % 0x400]
  }

  /** A JavaScript string: the code units of its characters, in order. */
  function CodeUnits(s: string): seq<int> {
    if s == [] then [] else Utf16(s[0]) + CodeUnits(s[1..])
  }

  /** Lexicographic order on code-unit sequences, a proper prefix first. */
  predicate UnitsLt(a: seq<int>, b: seq<int>)
    decreases |a|
  {
    if a == [] then b != []
    else if b == [] then false
    else if a[0] < b[0] then true
    else if a[0] == b[0] then UnitsLt(a[1..], b[1..])
    else false
  }

  /** JavaScript `<` on strings: lexicographic by UTF-16 code unit, a proper prefix first. */
  predicate StrLt(a: string, b: string) {
    UnitsLt(CodeUnits(a), CodeUnits(b))
  }

  /** One character's code units followed by more determine the character and the rest. */
  lemma Utf16Prefix(c: char, d: char, s: seq<int>, t: seq<int>)
    requires Utf16(c) + s == Utf16(d) + t
    ensures c == d && s == t
  {
    var u, w := Utf16(c), Utf16(d);
    assert (u + s)[0] == u[0] && (w + t)[0] == w[0];
    if c as int < 0x10000 {
      assert d as int < 0x10000;
    } else {
      assert d as int >= 0x10000;
      assert (u + s)[1] == u[1] && (w + t)[1] == w[1];
      var x, y := c as int - 0x10000, d as int - 0x10000;
      assert x == (x / 0x400) * 0x400 + x % 0x400;
      assert y == (y / 0x400) * 0x400 + y % 0x400;
    }
    assert s == (u + s)[|u|..];
    assert t == (w + t)[|w|..];
  }

  /** Different strings have different code units, so the string order is total. */
  lemma {:induction false} CodeUnitsInjective(a: string, b: string)
    requires CodeUnits(a) == CodeUnits(b)
    ensures a == b
    decreases |a|
  {
    if a != [] && b != [] {
      Utf16Prefix(a[0], b[0], CodeUnits(a[1..]), CodeUnits(b[1..]));
      CodeUnitsInjective(a[1..], b[1..]);
      assert a == [a[0]] + a[1..] && b == [b[0]] + b[1..];
    }
  }

  /** A character above U+FFFF (here U+1F600) sorts before U+FFFD: its high surrogate
      0xD83D is the smaller code unit, although its code point is the larger. */
  lemma AstralBeforeHighBmp()
    ensures StrLt("\U{1F600}", "\U{FFFD}") && !StrLt("\U{FFFD}", "\U{1F600}")
  {
    assert CodeUnits("\U{1F600}") == [0xD83D, 0xDE00] by {
      assert "\U{1F600}"[1..] == [];
    }
    assert CodeUnits("\U{FFFD}") == [0xFFFD] by {
      assert "\U{FFFD}"[1..] == [];
    }
  }

  /** Strict order on keys; a comparator only ever sees keys of one kind. */
  predicate KeyLt(a: Key, b: Key) {
    match (a, b)
    case (Num(x), Num(y)) => x < y
    case (Str(x), Str(y)) => StrLt(x, y)
    case (Num(_), Str(_)) => true
    case (Str(_), Num(_)) => false
  }

  lemma {:induction false} UnitsLtIrreflexive(a: seq<int>)
    ensures !UnitsLt(a, a)
  {
    if a != [] {
      UnitsLtIrreflexive(a[1..]);
    }
  }

  lemma {:induction false} UnitsLtTransitive(a: seq<int>, b: seq<int>, c: seq<int>)
    requires UnitsLt(a, b) && UnitsLt(b, c)
    ensures UnitsLt(a, c)
    decreases |a|
  {
    if a != [] && b != [] && c != [] && a[0] == b[0] && b[0] == c[0] {
      UnitsLtTransitive(a[1..], b[1..], c[1..]);
    }
  }

  lemma {:induction false} UnitsLtTotal(a: seq<int>, b: seq<int>)
    requires a != b
    ensures UnitsLt(a, b) || UnitsLt(b, a)
    decreases |a|
  {
    if a != [] && b != [] && a[0] == b[0] {
      assert a[1..] != b[1..] by {
        assert a == [a[0]] + a[1..] && b == [b[0]] + b[1..];
      }
      UnitsLtTotal(a[1..], b[1..]);
    }
  }

  lemma StrLtTotal(a: string, b: string)
    requires a != b
    ensures StrLt(a, b) || StrLt(b, a)
  {
    if CodeUnits(a) == CodeUnits(b) {
      CodeUnitsInjective(a, b);
    }
    UnitsLtTotal(CodeUnits(a), CodeUnits(b));
  }

  lemma KeyLtIrreflexive(a: Key)
    ensures !KeyLt(a, a)
  {
    if a.Str? {
      UnitsLtIrreflexive(CodeUnits(a.s));
    }
  }

  lemma KeyLtTransitive(a: Key, b: Key, c: Key)
    requires KeyLt(a, b) && KeyLt(b, c)
    ensures KeyLt(a, c)
  {
    if a.Str? && b.Str? && c.Str? {
      UnitsLtTransitive(CodeUnits(a.s), CodeUnits(b.s), CodeUnits(c.s));
    }
  }

  lemma KeyLtTotal(a: Key, b: Key)
    requires a != b
    ensures KeyLt(a, b) || KeyLt(b, a)
  {
    if a.Str? && b.Str? {
      StrLtTotal(a.s, b.s);
    }
  }

  /** `x` goes strictly before `y`: the comparator returns a negative number. */
  predicate Before<T>(key: T -> Key, desc: bool, x: T, y: T) {
    if desc then KeyLt(key(y), key(x)) else KeyLt(key(x), key(y))
  }

  /** Ordered by the comparator: no element goes strictly before an earlier one. */
  predicate Sorted<T>(key: T -> Key, desc: bool, s: seq<T>) {
    forall i, j :: 0 <= i < j < |s| ==> !Before(key, desc, s[j], s[i])
  }

  /** The elements of `s` whose key is `k`, in order. */
  function WithKey<T>(key: T -> Key, k: Key, s: seq<T>): seq<T> {
    Filter(x => key(x) == k, s)
  }

  /** Inserts `x` in front of the first element that does not go strictly before it. */
  function Insert<T>(key: T -> Key, desc: bool, x: T, s: seq<T>): seq<T> {
    if s == [] then [x]
    else if Before(key, desc, s[0], x) then [s[0]] + Insert(key, desc, x, s[1..])
    else [x] + s
  }

  function SortBy<T>(key: T -> Key, desc: bool, s: seq<T>): seq<T> {
    if s == [] then [] else Insert(key, desc, s[0], SortBy(key, desc, s[1..]))
  }

  lemma {:induction false} InsertMultiset<T>(key: T -> Key, desc: bool, x: T, s: seq<T>)
    ensures multiset(Insert(key, desc, x, s)) == multiset(s) + multiset{x}
  {
    if s != [] && Before(key, desc, s[0], x) {
      InsertMultiset(key, desc, x, s[1..]);
      assert s == [s[0]] + s[1..];
    }
  }

  /** "Not strictly before" is transitive, because the key order is a strict total order. */
  lemma NotBeforeTransitive<T>(key: T -> Key, desc: bool, x: T, y: T, z: T)
    requires !Before(key, desc, y, x) && !Before(key, desc, z, y)
    ensures !Before(key, desc, z, x)
  {
    if Before(key, desc, z, x) {
      if desc {
        if key(x) == key(y) {
        } else {
          KeyLtTotal(key(x), key(y));
          KeyLtTransitive(key(y), key(x), key(z));
        }
      } else {
        if key(x) == key(y) {
        } else {
          KeyLtTotal(key(x), key(y));
          KeyLtTransitive(key(z), key(x), key(y));
        }
      }
    }
  }

  lemma {:induction false} InsertSorted<T>(key: T -> Key, desc: bool, x: T, s: seq<T>)
    requires Sorted(key, desc, s)
    ensures Sorted(key, desc, Insert(key, desc, x, s))
  {
    var r := Insert(key, desc, x, s);
    if s == [] {
    } else if Before(key, desc, s[0], x) {
      InsertSorted(key, desc, x, s[1..]);
      var t := Insert(key, desc, x, s[1..]);
      InsertMultiset(key, desc, x, s[1..]);
      assert r == [s[0]] + t;
      forall j | 1 <= j < |r| ensures !Before(key, desc, r[j], s[0]) {
        assert r[j] in multiset(t);
        if r[j] == x {
          KeyOrderAsymmetric(key, desc, s[0], x);
        } else {
          assert r[j] in multiset(s[1..]);
          var m :| 0 <= m < |s[1..]| && s[1..][m] == r[j];
          assert s[m + 1] == r[j];
        }
      }
    } else {
      assert r == [x] + s;
      forall j | 1 <= j < |r| ensures !Before(key, desc, r[j], x) {
        assert r[j] == s[j - 1];
        if j > 1 {
          assert !Before(key, desc, s[j - 1], s[0]);
        } else {
          KeyLtIrreflexive(key(s[0]));
        }
        NotBeforeTransitive(key, desc, x, s[0], r[j]);
      }
    }
  }

  lemma KeyOrderAsymmetric<T>(key: T -> Key, desc: bool, x: T, y: T)
    requires Before(key, desc, x, y)
    ensures !Before(key, desc, y, x)
  {
    if Before(key, desc, y, x) {
      if desc {
        KeyLtTransitive(key(x), key(y), key(x));
        KeyLtIrreflexive(key(x));
      } else {
        KeyLtTransitive(key(x), key(y), key(x));
        KeyLtIrreflexive(key(x));
      }
    }
  }

  /** Inserting `x` puts it first among the elements that share its key. */
  lemma {:induction false} InsertWithKey<T>(key: T -> Key, desc: bool, x: T, s: seq<T>, k: Key)
    ensures WithKey(key, k, Insert(key, desc, x, s)) ==
            (if key(x) == k then [x] else []) + WithKey(key, k, s)
  {
    if s != [] && Before(key, desc, s[0], x) {
      InsertWithKey(key, desc, x, s[1..], k);
      KeyLtIrreflexive(key(x));
      assert Insert(key, desc, x, s) == [s[0]] + Insert(key, desc, x, s[1..]);
    }
  }

  /** The sorted list is ordered by the comparator. */
  lemma {:induction false} SortBySorted<T>(key: T -> Key, desc: bool, s: seq<T>)
    ensures Sorted(key, desc, SortBy(key, desc, s))
  {
    if s != [] {
      SortBySorted(key, desc, s[1..]);
      InsertSorted(key, desc, s[0], SortBy(key, desc, s[1..]));
    }
  }

  /** The sorted list is a permutation of the input. */
  lemma {:induction false} SortByPermutation<T>(key: T -> Key, desc: bool, s: seq<T>)
    ensures multiset(SortBy(key, desc, s)) == multiset(s)
  {
    if s != [] {
      SortByPermutation(key, desc, s[1..]);
      InsertMultiset(key, desc, s[0], SortBy(key, desc, s[1..]));
      assert s == [s[0]] + s[1..];
    }
  }

  /** Stability: the elements of any one key keep their relative input order. */
  lemma {:induction false} SortByStable<T>(key: T -> Key, desc: bool, s: seq<T>, k: Key)
    ensures WithKey(key, k, SortBy(key, desc, s)) == WithKey(key, k, s)
  {
    if s != [] {
      SortByStable(key, desc, s[1..], k);
      InsertWithKey(key, desc, s[0], SortBy(key, desc, s[1..]), k);
    }
  }

  lemma SortByLength<T>(key: T -> Key, desc: bool, s: seq<T>)
    ensures |SortBy(key, desc, s)| == |s|
  {
    SortByPermutation(key, desc, s);
    assert |multiset(SortBy(key, desc, s))| == |multiset(s)|;
  }
}
