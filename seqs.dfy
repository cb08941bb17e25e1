/** Sequence filtering (JavaScript `Array.prototype.filter`) and the facts the views rely on. */
module Seqs {

  /** The elements of `s` satisfying `p`, in their original order. */
  function Filter<T>(p: T -> bool, s: seq<T>): (r: seq<T>)
    ensures |r| <= |s|
  {
    if s == [] then [] else (if p(s[0]) then [s[0]] else []) + Filter(p, s[1..])
  }

  /** `a` is obtained from `b` by deleting elements: same order, nothing added. */
  predicate IsSubsequence<T(==)>(a: seq<T>, b: seq<T>)
    decreases |b|
  {
    if a == [] then true
    else if b == [] then false
    else if a[0] == b[0] then IsSubsequence(a[1..], b[1..])
    else IsSubsequence(a, b[1..])
  }

  /** Every sequence is a subsequence of itself. */
  lemma {:induction false} SubsequenceReflexive<T>(s: seq<T>)
    ensures IsSubsequence(s, s)
  {
    if s != [] {
      SubsequenceReflexive(s[1..]);
    }
  }

  lemma {:induction false} FilterMembership<T>(p: T -> bool, s: seq<T>, x: T)
    ensures x in Filter(p, s) <==> x in s && p(x)
  {
    if s != [] {
      FilterMembership(p, s[1..], x);
      assert s == [s[0]] + s[1..];
    }
  }

  lemma {:induction false} FilterIsSubsequence<T>(p: T -> bool, s: seq<T>)
    ensures IsSubsequence(Filter(p, s), s)
  {
    if s != [] {
      FilterIsSubsequence(p, s[1..]);
      var f := Filter(p, s[1..]);
      if p(s[0]) {
        assert Filter(p, s) == [s[0]] + f;
      } else {
        assert Filter(p, s) == f;
        SubsequenceDropHead(f, s);
      }
    }
  }

  /** Dropping the head of the longer sequence keeps the relation from `b[1..]` to `b`. */
  lemma {:induction false} SubsequenceDropHead<T>(a: seq<T>, b: seq<T>)
    requires b != [] && IsSubsequence(a, b[1..])
    ensures IsSubsequence(a, b)
    decreases |b|, 0
  {
    if a != [] && a[0] == b[0] {
      SubsequenceTail(a, b[1..]);
    }
  }

  /** If `a` is a subsequence of `b`, so is `a[1..]`. */
  lemma {:induction false} SubsequenceTail<T>(a: seq<T>, b: seq<T>)
    requires a != [] && IsSubsequence(a, b)
    ensures IsSubsequence(a[1..], b)
    decreases |b|, 1
  {
    assert b != [];
    if a[0] == b[0] {
      if a[1..] != [] {
        SubsequenceTail(a[1..], b[1..]);
        SubsequenceDropHead(a[1..], b);
      }
    } else {
      SubsequenceTail(a, b[1..]);
      SubsequenceDropHead(a[1..], b);
    }
  }

  lemma {:induction false} SubsequenceTransitive<T>(a: seq<T>, b: seq<T>, c: seq<T>)
    requires IsSubsequence(a, b) && IsSubsequence(b, c)
    ensures IsSubsequence(a, c)
    decreases |c|
  {
    if a != [] {
      assert b != [] && c != [];
      if b[0] == c[0] {
        if a[0] == b[0] {
          SubsequenceTransitive(a[1..], b[1..], c[1..]);
        } else {
          SubsequenceTransitive(a, b[1..], c[1..]);
        }
      } else {
        SubsequenceTransitive(a, b, c[1..]);
      }
      SubsequenceDropHeadOrMatch(a, c);
    }
  }

  /** Helper for transitivity: the recursive call on `c[1..]` lifts to `c`. */
  lemma {:induction false} SubsequenceDropHeadOrMatch<T>(a: seq<T>, c: seq<T>)
    requires a != [] && c != []
    requires IsSubsequence(a, c[1..]) || (a[0] == c[0] && IsSubsequence(a[1..], c[1..]))
    ensures IsSubsequence(a, c)
  {
    if !(a[0] == c[0] && IsSubsequence(a[1..], c[1..])) {
      SubsequenceDropHead(a, c);
    }
  }

  lemma {:induction false} FilterAll<T>(p: T -> bool, s: seq<T>)
    requires forall i :: 0 <= i < |s| ==> p(s[i])
    ensures Filter(p, s) == s
  {
    if s != [] {
      FilterAll(p, s[1..]);
      assert s == [s[0]] + s[1..];
    }
  }

  /** When `p` implies `q` on `s`, filtering by `q` first changes nothing. */
  lemma {:induction false} FilterWithin<T>(p: T -> bool, q: T -> bool, s: seq<T>)
    requires forall i :: 0 <= i < |s| && p(s[i]) ==> q(s[i])
    ensures Filter(p, Filter(q, s)) == Filter(p, s)
  {
    if s != [] {
      FilterWithin(p, q, s[1..]);
      var t := Filter(q, s);
      if q(s[0]) {
        assert t == [s[0]] + Filter(q, s[1..]);
        assert t[0] == s[0] && t[1..] == Filter(q, s[1..]);
      } else {
        assert t == Filter(q, s[1..]);
      }
    }
  }

  /** When `p` and `q` exclude each other on `s`, `p` selects nothing of what `q` keeps. */
  lemma {:induction false} FilterDisjoint<T>(p: T -> bool, q: T -> bool, s: seq<T>)
    requires forall i :: 0 <= i < |s| && q(s[i]) ==> !p(s[i])
    ensures Filter(p, Filter(q, s)) == []
  {
    if s != [] {
      FilterDisjoint(p, q, s[1..]);
      var t := Filter(q, s);
      if q(s[0]) {
        assert t == [s[0]] + Filter(q, s[1..]);
        assert t[0] == s[0] && t[1..] == Filter(q, s[1..]);
      } else {
        assert t == Filter(q, s[1..]);
      }
    }
  }

  /** Two predicates that agree on every element of `s` select the same elements. */
  lemma {:induction false} FilterAgree<T>(p: T -> bool, q: T -> bool, s: seq<T>)
    requires forall i :: 0 <= i < |s| ==> p(s[i]) == q(s[i])
    ensures Filter(p, s) == Filter(q, s)
  {
    if s != [] {
      FilterAgree(p, q, s[1..]);
    }
  }

  /** Three pairwise exclusive, jointly exhaustive predicates split `s` without loss. */
  lemma {:induction false} FilterPartition3<T>(p: T -> bool, q: T -> bool, o: T -> bool, s: seq<T>)
    requires forall i :: 0 <= i < |s| ==> (p(s[i]) || q(s[i]) || o(s[i]))
    requires forall i :: 0 <= i < |s| ==> !(p(s[i]) && q(s[i])) && !(p(s[i]) && o(s[i])) && !(q(s[i]) && o(s[i]))
    ensures |Filter(p, s)| + |Filter(q, s)| + |Filter(o, s)| == |s|
  {
    if s != [] {
      FilterPartition3(p, q, o, s[1..]);
    }
  }

  /** Filtering distributes over concatenation. */
  /** Nothing passes the filter when no element satisfies it. */
  lemma {:induction false} FilterNone<T>(p: T -> bool, s: seq<T>)
    requires forall x | x in s :: !p(x)
    ensures Filter(p, s) == []
  {
    if s != [] {
      FilterNone(p, s[1..]);
    }
  }

  lemma {:induction false} FilterAppend<T>(p: T -> bool, a: seq<T>, b: seq<T>)
    ensures Filter(p, a + b) == Filter(p, a) + Filter(p, b)
  {
    if a == [] {
      assert a + b == b;
    } else {
      var head := if p(a[0]) then [a[0]] else [];
      assert (a + b)[0] == a[0] && (a + b)[1..] == a[1..] + b;
      assert Filter(p, a + b) == head + Filter(p, a[1..] + b);
      FilterAppend(p, a[1..], b);
      assert head + (Filter(p, a[1..]) + Filter(p, b)) == (head + Filter(p, a[1..])) + Filter(p, b);
    }
  }

  /** Filtering a sequence with one more element at the end. */
  lemma FilterSnoc<T>(p: T -> bool, s: seq<T>, x: T)
    ensures Filter(p, s + [x]) == Filter(p, s) + (if p(x) then [x] else [])
  {
    FilterAppend(p, s, [x]);
    assert [x][1..] == [];
  }

  /** Appending to a sequence that already extends `base` by `r` extends `base` by `r + e`. */
  lemma AppendExtends<T>(base: seq<T>, s: seq<T>, r: seq<T>, e: seq<T>)
    requires s == base + r
    ensures s + e == base + (r + e)
  {
  }

  /** The prefix of length `i` of the prefix of length `i + 1` is the prefix of length `i`,
      and the longer prefix ends with element `i`. */
  lemma PrefixOfNext<T>(s: seq<T>, i: int)
    requires 0 <= i < |s|
    ensures |s[..i + 1]| == i + 1 && s[..i + 1][..i] == s[..i] && s[..i + 1][i] == s[i]
  {
  }
}
