/** Sequence helpers shared by the cart and the catalog: an optional value
    (a missing storage key, a failed `find`) and the order-preserving filter
    that `Array.prototype.filter` performs. */
module Seqs {

  datatype Option<+T> = None | Some(value: T)

  /** `sub` is obtained from `s` by deleting elements, keeping their order. */
  predicate IsSubsequence<T(==)>(sub: seq<T>, s: seq<T>)
    decreases |s|
  {
    if sub == [] then true
    else if s == [] then false
    else if sub[0] == s[0] then IsSubsequence(sub[1..], s[1..])
    else IsSubsequence(sub, s[1..])
  }

  /** `s.filter(keep)`: the elements of `s` that satisfy `keep`, in order. */
  function Keep<T>(s: seq<T>, keep: T -> bool): (r: seq<T>)
    ensures |r| <= |s|
    ensures forall i :: 0 <= i < |r| ==> keep(r[i])
  {
    if s == [] then []
    else (if keep(s[0]) then [s[0]] else []) + Keep(s[1..], keep)
  }

  /** Every kept element comes from the input, and every input element that
      passes is kept. */
  lemma {:induction false} KeepMembers<T>(s: seq<T>, keep: T -> bool)
    ensures forall i :: 0 <= i < |Keep(s, keep)| ==> Keep(s, keep)[i] in s
    ensures forall i :: 0 <= i < |s| && keep(s[i]) ==> s[i] in Keep(s, keep)
  {
    if s != [] {
      KeepMembers(s[1..], keep);
      var r := Keep(s, keep);
      var rest := Keep(s[1..], keep);
      forall i | 0 <= i < |r|
        ensures r[i] in s
      {
        if keep(s[0]) && i == 0 {
        } else {
          var k := if keep(s[0]) then i - 1 else i;
          assert r[i] == rest[k];
          assert rest[k] in s[1..];
        }
      }
      forall i | 0 <= i < |s| && keep(s[i])
        ensures s[i] in r
      {
        if i > 0 {
          assert s[i] == s[1..][i - 1];
        }
      }
    }
  }

  lemma {:induction false} SubsequenceRefl<T>(s: seq<T>)
    ensures IsSubsequence(s, s)
  {
    if s != [] {
      SubsequenceRefl(s[1..]);
    }
  }

  /** Dropping the first element of a subsequence keeps it a subsequence. */
  lemma {:induction false} SubsequenceDropHead<T>(a: seq<T>, t: seq<T>)
    requires a != [] && IsSubsequence(a, t)
    ensures IsSubsequence(a[1..], t)
    decreases |t|
  {
    if a[0] == t[0] {
      if a[1..] != [] && a[1] == t[0] {
        SubsequenceDropHead(a[1..], t[1..]);
        assert a[1..][1..] == a[2..];
      }
    } else {
      SubsequenceDropHead(a, t[1..]);
      if a[1..] != [] && a[1] == t[0] {
        SubsequenceDropHead(a[1..], t[1..]);
        assert a[1..][1..] == a[2..];
      }
    }
  }

  /** A subsequence of `t` is a subsequence of `[x] + t`. */
  lemma SubsequenceCons<T>(a: seq<T>, x: T, t: seq<T>)
    requires IsSubsequence(a, t)
    ensures IsSubsequence(a, [x] + t)
  {
    assert ([x] + t)[1..] == t;
    if a != [] && a[0] == x {
      SubsequenceDropHead(a, t);
    }
  }

  lemma {:induction false} SubsequenceTrans<T>(a: seq<T>, b: seq<T>, c: seq<T>)
    requires IsSubsequence(a, b) && IsSubsequence(b, c)
    ensures IsSubsequence(a, c)
    decreases |c|
  {
    if a != [] {
      assert b != [] && c != [];
      if b[0] == c[0] {
        if a[0] == b[0] {
          SubsequenceTrans(a[1..], b[1..], c[1..]);
        } else {
          SubsequenceTrans(a, b[1..], c[1..]);
        }
      } else {
        SubsequenceTrans(a, b, c[1..]);
        SubsequenceCons(a, c[0], c[1..]);
        assert [c[0]] + c[1..] == c;
      }
    }
  }

  /** Filtering never reorders: the result is a subsequence of the input. */
  lemma {:induction false} KeepIsSubsequence<T>(s: seq<T>, keep: T -> bool)
    ensures IsSubsequence(Keep(s, keep), s)
  {
    if s != [] {
      KeepIsSubsequence(s[1..], keep);
      if keep(s[0]) {
        assert Keep(s, keep)[1..] == Keep(s[1..], keep);
      } else {
        assert Keep(s, keep) == Keep(s[1..], keep);
        SubsequenceCons(Keep(s[1..], keep), s[0], s[1..]);
        assert [s[0]] + s[1..] == s;
      }
    }
  }

  /** A filter that every element passes leaves the sequence as it was. */
  lemma {:induction false} KeepAll<T>(s: seq<T>, keep: T -> bool)
    requires forall i :: 0 <= i < |s| ==> keep(s[i])
    ensures Keep(s, keep) == s
  {
    if s != [] {
      KeepAll(s[1..], keep);
    }
  }

  /** Filtering distributes over concatenation. */
  lemma {:induction false} KeepAppend<T>(a: seq<T>, b: seq<T>, keep: T -> bool)
    ensures Keep(a + b, keep) == Keep(a, keep) + Keep(b, keep)
  {
    if a == [] {
      assert a + b == b;
    } else {
      assert (a + b)[1..] == a[1..] + b;
      KeepAppend(a[1..], b, keep);
    }
  }

  /** Filtering out one failing element between two runs that pass cuts
      out exactly that element. */
  lemma KeepCut<T>(pre: seq<T>, x: T, post: seq<T>, keep: T -> bool)
    requires forall k :: 0 <= k < |pre| ==> keep(pre[k])
    requires !keep(x)
    requires forall k :: 0 <= k < |post| ==> keep(post[k])
    ensures Keep(pre + [x] + post, keep) == pre + post
  {
    var front := pre + [x];
    KeepAppend(front, post, keep);
    KeepAppend(pre, [x], keep);
    KeepAll(pre, keep);
    KeepAll(post, keep);
    assert Keep([x], keep) == [];
    assert Keep(front, keep) == pre;
  }

  /** Two filters that agree on every element give the same result. */
  lemma {:induction false} KeepExt<T>(s: seq<T>, f: T -> bool, g: T -> bool)
    requires forall x :: f(x) == g(x)
    ensures Keep(s, f) == Keep(s, g)
  {
    if s != [] {
      KeepExt(s[1..], f, g);
    }
  }

  /** Filtering twice is filtering once by the conjunction. */
  lemma {:induction false} KeepKeep<T>(s: seq<T>, f: T -> bool, g: T -> bool, both: T -> bool)
    requires forall x :: both(x) == (f(x) && g(x))
    ensures Keep(Keep(s, f), g) == Keep(s, both)
  {
    if s != [] {
      KeepKeep(s[1..], f, g, both);
      var t := Keep(s[1..], f);
      if f(s[0]) {
        assert Keep(s, f) == [s[0]] + t;
        assert ([s[0]] + t)[1..] == t;
      } else {
        assert Keep(s, f) == t;
      }
    }
  }

  /** Filtering is idempotent. */
  lemma KeepIdempotent<T>(s: seq<T>, keep: T -> bool)
    ensures Keep(Keep(s, keep), keep) == Keep(s, keep)
  {
    var r := Keep(s, keep);
    KeepAll(r, keep);
  }
}
