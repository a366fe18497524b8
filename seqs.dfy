/** Sequence and string helpers shared by the modules of the model. */
module Seqs {

  /** No element occurs twice. */
  ghost predicate Distinct<T>(s: seq<T>) {
    forall i, j :: 0 <= i < j < |s| ==> s[i] != s[j]
  }

  /** No element of `a` is in `b`. */
  ghost predicate Disjoint<T>(a: seq<T>, b: seq<T>) {
    forall x :: x in a ==> x !in b
  }

  /** `a` is obtained from `b` by deleting elements, keeping the order. */
  predicate IsSubseq<T(==)>(a: seq<T>, b: seq<T>)
    decreases |b|
  {
    if a == [] then true
    else if b == [] then false
    else if a[0] == b[0] then IsSubseq(a[1..], b[1..])
    else IsSubseq(a, b[1..])
  }

  lemma {:induction false} SubseqMembers<T>(a: seq<T>, b: seq<T>)
    requires IsSubseq(a, b)
    ensures forall x :: x in a ==> x in b
    decreases |b|
  {
    if a != [] && b != [] {
      if a[0] == b[0] {
        SubseqMembers(a[1..], b[1..]);
        forall x | x in a ensures x in b {
          if x != a[0] { assert x in a[1..]; }
        }
      } else {
        SubseqMembers(a, b[1..]);
      }
    }
  }

  lemma {:induction false} SubseqLength<T>(a: seq<T>, b: seq<T>)
    requires IsSubseq(a, b)
    ensures |a| <= |b|
    decreases |b|
  {
    if a != [] && b != [] {
      if a[0] == b[0] {
        SubseqLength(a[1..], b[1..]);
      } else {
        SubseqLength(a, b[1..]);
      }
    }
  }

  lemma {:induction false} SubseqDistinct<T>(a: seq<T>, b: seq<T>)
    requires IsSubseq(a, b) && Distinct(b)
    ensures Distinct(a)
    decreases |b|
  {
    if a != [] && b != [] {
      if a[0] == b[0] {
        SubseqDistinct(a[1..], b[1..]);
        SubseqMembers(a[1..], b[1..]);
        forall i, j | 0 <= i < j < |a| ensures a[i] != a[j] {
          if i == 0 {
            assert a[j] in a[1..];
            assert a[j] in b[1..];
          } else {
            assert a[i] == a[1..][i - 1] && a[j] == a[1..][j - 1];
          }
        }
      } else {
        SubseqDistinct(a, b[1..]);
      }
    }
  }

  lemma {:induction false} SubseqOfSelf<T>(a: seq<T>)
    ensures IsSubseq(a, a)
    decreases |a|
  {
    if a != [] { SubseqOfSelf(a[1..]); }
  }

  /** Removing the head of the subsequence keeps it a subsequence. */
  lemma {:induction false} SubseqDrop<T>(a: seq<T>, b: seq<T>)
    requires IsSubseq(a, b) && a != []
    ensures IsSubseq(a[1..], b)
    decreases |b|, 0
  {
    if a[0] == b[0] {
      SubseqWeaken(a[1..], b[1..], b[0]);
    } else {
      SubseqDrop(a, b[1..]);
      SubseqWeaken(a[1..], b[1..], b[0]);
    }
  }

  lemma {:induction false} SubseqWeaken<T>(a: seq<T>, b: seq<T>, x: T)
    requires IsSubseq(a, b)
    ensures IsSubseq(a, [x] + b)
    decreases |b|, 1
  {
    if a != [] {
      assert ([x] + b)[1..] == b;
      if a[0] == x {
        SubseqDrop(a, b);
      }
    }
  }

  lemma SubseqCons<T>(a: seq<T>, b: seq<T>, x: T)
    requires IsSubseq(a, b)
    ensures IsSubseq([x] + a, [x] + b)
  {
    assert ([x] + a)[1..] == a && ([x] + b)[1..] == b;
  }

  /** Inserting an element into the longer list keeps a subsequence one. */
  lemma {:induction false} SubseqInsert<T>(a: seq<T>, p: seq<T>, q: seq<T>, x: T)
    requires IsSubseq(a, p + q)
    ensures IsSubseq(a, p + [x] + q)
    decreases |p|
  {
    if p == [] {
      assert p + q == q && p + [x] + q == [x] + q;
      SubseqWeaken(a, q, x);
    } else if a != [] {
      assert (p + q)[0] == p[0] && (p + q)[1..] == p[1..] + q;
      assert (p + [x] + q)[0] == p[0] && (p + [x] + q)[1..] == p[1..] + [x] + q;
      if a[0] == p[0] {
        SubseqInsert(a[1..], p[1..], q, x);
      } else {
        SubseqInsert(a, p[1..], q, x);
      }
    }
  }

  /** Subsequences concatenate. */
  lemma {:induction false} SubseqAppend<T>(a: seq<T>, b: seq<T>, c: seq<T>, d: seq<T>)
    requires IsSubseq(a, b) && IsSubseq(c, d)
    ensures IsSubseq(a + c, b + d)
    decreases |b|
  {
    if a == [] {
      SubseqPrefixDrop(c, d, b);
      assert a + c == c;
    } else {
      assert b != [];
      assert (b + d)[1..] == b[1..] + d;
      if a[0] == b[0] {
        SubseqAppend(a[1..], b[1..], c, d);
        assert (a + c)[1..] == a[1..] + c;
      } else {
        SubseqAppend(a, b[1..], c, d);
      }
    }
  }

  /** A subsequence of `d` is one of `b + d`. */
  lemma {:induction false} SubseqPrefixDrop<T>(c: seq<T>, d: seq<T>, b: seq<T>)
    requires IsSubseq(c, d)
    ensures IsSubseq(c, b + d)
    decreases |b|
  {
    if b != [] {
      SubseqPrefixDrop(c, d, b[1..]);
      assert b + d == [b[0]] + (b[1..] + d);
      SubseqWeaken(c, b[1..] + d, b[0]);
    } else {
      assert b + d == d;
    }
  }

  /** Subsequence is transitive. */
  lemma {:induction false} SubseqChain<T>(a: seq<T>, b: seq<T>, c: seq<T>)
    requires IsSubseq(a, b) && IsSubseq(b, c)
    ensures IsSubseq(a, c)
    decreases |c|
  {
    if a != [] {
      assert b != [] && c != [];
      if b[0] == c[0] {
        if a[0] == b[0] {
          SubseqChain(a[1..], b[1..], c[1..]);
        } else {
          SubseqChain(a, b[1..], c[1..]);
        }
      } else {
        SubseqChain(a, b, c[1..]);
        if a[0] == c[0] { SubseqDrop(a, c[1..]); }
      }
    }
  }

  /** Python's `list.remove(x)` behind an `if x in list` guard: drops the first occurrence. */
  function RemoveFirst<T(==)>(s: seq<T>, x: T): (r: seq<T>)
    ensures x !in s ==> r == s
    ensures x in s ==> |r| == |s| - 1
    ensures IsSubseq(r, s)
    ensures forall y :: y in r ==> y in s
    ensures forall y :: y in s && y != x ==> y in r
    decreases |s|
  {
    if s == [] then []
    else if s[0] == x then (SubseqOfSelf(s[1..]); SubseqWeaken(s[1..], s[1..], x); assert [x] + s[1..] == s; s[1..])
    else
      var rest := RemoveFirst(s[1..], x);
      assert s == [s[0]] + s[1..];
      [s[0]] + rest
  }

  lemma {:induction false} RemoveFirstDistinct<T>(s: seq<T>, x: T)
    requires Distinct(s)
    ensures Distinct(RemoveFirst(s, x)) && x !in RemoveFirst(s, x)
    decreases |s|
  {
    SubseqDistinct(RemoveFirst(s, x), s);
    if s != [] && s[0] != x {
      assert Distinct(s[1..]) by {
        forall i, j | 0 <= i < j < |s[1..]| ensures s[1..][i] != s[1..][j] {
          assert s[1..][i] == s[i + 1] && s[1..][j] == s[j + 1];
        }
      }
      RemoveFirstDistinct(s[1..], x);
    } else if s != [] {
      assert x !in s[1..] by {
        forall j | 0 <= j < |s[1..]| ensures s[1..][j] != x {
          assert s[1..][j] == s[j + 1];
        }
      }
    }
  }

  lemma AppendAssoc<T>(a: seq<T>, b: seq<T>, c: seq<T>)
    ensures (a + b) + c == a + (b + c)
  {
  }

  lemma DistinctTail<T>(s: seq<T>)
    requires Distinct(s) && s != []
    ensures Distinct(s[1..]) && s[0] !in s[1..]
  {
    forall a, b | 0 <= a < b < |s[1..]| ensures s[1..][a] != s[1..][b] {
      assert s[1..][a] == s[a + 1] && s[1..][b] == s[b + 1];
    }
    forall j | 0 <= j < |s[1..]| ensures s[1..][j] != s[0] {
      assert s[1..][j] == s[j + 1];
    }
  }

  lemma DistinctInit<T>(s: seq<T>)
    requires Distinct(s) && s != []
    ensures Distinct(s[..|s| - 1]) && s[|s| - 1] !in s[..|s| - 1]
  {
  }

  lemma DistinctSnoc<T>(s: seq<T>, x: T)
    requires Distinct(s) && x !in s
    ensures Distinct(s + [x])
  {
    forall i, j | 0 <= i < j < |s + [x]| ensures (s + [x])[i] != (s + [x])[j] {
      if j == |s| { assert (s + [x])[i] in s; }
    }
  }

  /** `p` is a prefix of `s` (Python's `s.startswith(p)`). */
  predicate IsPrefix<T(==)>(p: seq<T>, s: seq<T>) {
    |p| <= |s| && s[..|p|] == p
  }

  predicate IsSuffix<T(==)>(p: seq<T>, s: seq<T>) {
    |p| <= |s| && s[|s| - |p|..] == p
  }

  lemma PrefixOfExtended<T>(p: seq<T>, x: T, s: seq<T>)
    requires IsPrefix(p + [x], s)
    ensures IsPrefix(p, s)
  {
    assert s[..|p| + 1][..|p|] == s[..|p|];
  }

  lemma PrefixOfAppend<T>(p: seq<T>, q: seq<T>)
    ensures IsPrefix(p, p + q)
  {
    assert (p + q)[..|p|] == p;
  }

  lemma PrefixChain<T>(p: seq<T>, q: seq<T>, s: seq<T>)
    requires IsPrefix(p, q) && IsPrefix(q, s)
    ensures IsPrefix(p, s)
  {
    assert s[..|q|][..|p|] == s[..|p|];
  }

  lemma PrefixTailMembers<T>(p: seq<T>, s: seq<T>, n: nat)
    requires IsPrefix(p, s) && n <= |p|
    ensures forall x :: x in p[n..] ==> x in s[n..]
  {
    assert forall k :: n <= k < |p| ==> p[k] == s[k];
  }

  lemma SuffixOfTail<T>(p: seq<T>, s: seq<T>)
    requires s != [] && IsSuffix(p, s[1..])
    ensures IsSuffix(p, s)
  {
    assert s[1..][|s[1..]| - |p|..] == s[|s| - |p|..];
  }

  lemma SuffixChain<T>(p: seq<T>, q: seq<T>, s: seq<T>)
    requires IsSuffix(p, q) && IsSuffix(q, s)
    ensures IsSuffix(p, s)
  {
    assert s[|s| - |q|..][|q| - |p|..] == s[|s| - |p|..];
  }

  /** A suffix of a list holds only its elements, and is distinct when the list is. */
  lemma SuffixMembers<T>(p: seq<T>, s: seq<T>)
    requires IsSuffix(p, s)
    ensures forall x :: x in p ==> x in s
    ensures Distinct(s) ==> Distinct(p)
  {
    var k := |s| - |p|;
    forall i | 0 <= i < |p| ensures p[i] == s[k + i] {}
  }

  /** `sub` occurs in `s` at offset `i`. */
  predicate OccursAt(s: string, sub: string, i: nat) {
    i + |sub| <= |s| && s[i..i + |sub|] == sub
  }

  /** Python's substring test `sub in s`. */
  function Contains(s: string, sub: string): (r: bool)
    ensures r <==> exists i: nat :: OccursAt(s, sub, i)
    decreases |s|
  {
    if |s| < |sub| then false
    else if IsPrefix(sub, s) then (assert OccursAt(s, sub, 0); true)
    else
      var rest := Contains(s[1..], sub);
      assert rest ==> exists i: nat :: OccursAt(s, sub, i) by {
        if rest {
          var i: nat :| OccursAt(s[1..], sub, i);
          assert s[1..][i..i + |sub|] == s[i + 1..i + 1 + |sub|];
          assert OccursAt(s, sub, i + 1);
        }
      }
      assert (exists i: nat :: OccursAt(s, sub, i)) ==> rest by {
        if exists i: nat :: OccursAt(s, sub, i) {
          var i: nat :| OccursAt(s, sub, i);
          assert i != 0;
          assert s[1..][i - 1..i - 1 + |sub|] == s[i..i + |sub|];
          assert OccursAt(s[1..], sub, i - 1);
        }
      }
      rest
  }

  /** Python's `sep.join(parts)`. */
  function Join(parts: seq<string>, sep: string): (r: string)
    ensures parts != [] ==> IsPrefix(parts[0], r)
    ensures |parts| == 1 ==> r == parts[0]
    decreases |parts|
  {
    if parts == [] then ""
    else if |parts| == 1 then parts[0]
    else parts[0] + sep + Join(parts[1..], sep)
  }
}
