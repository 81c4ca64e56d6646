/** Sequence helpers standing for JavaScript's `Array.prototype.filter` and `join`. */
module Seqs {

  /** `s.filter(p)`: the elements of `s` that satisfy `p`, in their original order. */
  function Filter<T(!new)>(p: T -> bool, s: seq<T>): (r: seq<T>)
    ensures |r| <= |s|
    ensures forall x :: x in r <==> x in s && p(x)
    ensures (forall k :: 0 <= k < |s| ==> p(s[k])) ==> r == s
  {
    if |s| == 0 then [] else (if p(s[0]) then [s[0]] else []) + Filter(p, s[1..])
  }

  /** Filtering a concatenation filters each part: the order of the survivors is kept. */
  lemma {:induction false} FilterConcat<T(!new)>(p: T -> bool, a: seq<T>, b: seq<T>)
    ensures Filter(p, a + b) == Filter(p, a) + Filter(p, b)
  {
    if |a| == 0 {
      assert a + b == b;
    } else {
      assert (a + b)[1..] == a[1..] + b;
      FilterConcat(p, a[1..], b);
    }
  }

  /** Two predicates that are each other's negation split a sequence between them. */
  lemma {:induction false} FilterComplement<T(!new)>(p: T -> bool, q: T -> bool, s: seq<T>)
    requires forall x :: q(x) == !p(x)
    ensures |Filter(p, s)| + |Filter(q, s)| == |s|
  {
    if |s| > 0 {
      FilterComplement(p, q, s[1..]);
    }
  }

  lemma ConcatAssoc(a: string, b: string, c: string)
    ensures (a + b) + c == a + (b + c)
  {
  }

  /** Where each of four concatenated texts sits. */
  lemma FourPartSlices(a: string, b: string, c: string, d: string)
    ensures var r := a + b + c + d;
            |r| == |a| + |b| + |c| + |d| && r[..|a|] == a &&
            r[|a|..|a| + |b|] == b && r[|a| + |b|..|a| + |b| + |c|] == c &&
            r[|r| - |d|..] == d
  {
    var r := a + b + c + d;
    assert r[..|a|] == a;
    assert r[|a|..|a| + |b|] == b;
    assert r[|a| + |b|..|a| + |b| + |c|] == c;
    assert r[|r| - |d|..] == d;
  }

  /** The texts `f(x)` of the elements `x` of `s`, concatenated in order (a `forEach` that appends). */
  function ConcatMap<T>(f: T -> string, s: seq<T>): string
  {
    if |s| == 0 then "" else ConcatMap(f, s[..|s| - 1]) + f(s[|s| - 1])
  }

  /** Appending the text of one more element. */
  lemma ConcatMapSnoc<T>(f: T -> string, s: seq<T>, i: nat)
    requires i < |s|
    ensures ConcatMap(f, s[..i + 1]) == ConcatMap(f, s[..i]) + f(s[i])
  {
    assert s[..i + 1][..i] == s[..i];
  }

  /** The texts of a concatenation are the texts of each part, in that order. */
  lemma {:induction false} ConcatMapConcat<T>(f: T -> string, a: seq<T>, b: seq<T>)
    ensures ConcatMap(f, a + b) == ConcatMap(f, a) + ConcatMap(f, b)
  {
    if |b| == 0 {
      assert a + b == a;
    } else {
      var ab := a + b;
      assert ab[..|ab| - 1] == a + b[..|b| - 1];
      assert ab[|ab| - 1] == b[|b| - 1];
      ConcatMapConcat(f, a, b[..|b| - 1]);
    }
  }

  /** `parts.join(sep)`: the parts with `sep` between neighbours and nothing at either end. */
  function Join(sep: string, parts: seq<string>): string
  {
    if |parts| == 0 then ""
    else if |parts| == 1 then parts[0]
    else parts[0] + sep + Join(sep, parts[1..])
  }

  /** Joining one more part at the end adds one separator and that part. */
  lemma {:induction false} JoinSnoc(sep: string, parts: seq<string>, x: string)
    requires |parts| > 0
    ensures Join(sep, parts + [x]) == Join(sep, parts) + sep + x
  {
    if |parts| == 1 {
      assert (parts + [x])[1..] == [x];
    } else {
      assert (parts + [x])[1..] == parts[1..] + [x];
      JoinSnoc(sep, parts[1..], x);
    }
  }

  /** Joining a part in front of a non-empty rest puts one separator between them. */
  lemma JoinCons(sep: string, x: string, rest: seq<string>)
    requires |rest| > 0
    ensures Join(sep, [x] + rest) == x + sep + Join(sep, rest)
  {
    assert ([x] + rest)[1..] == rest;
  }

  /**
   * A part that itself holds the separator cannot be told apart from two parts:
   * joining `x + sep + y` gives the same text as joining `x` and `y` separately.
   */
  lemma {:induction false} JoinSplitPart(sep: string, pre: seq<string>, x: string, y: string,
                                         post: seq<string>)
    ensures Join(sep, pre + [x + sep + y] + post) == Join(sep, pre + [x, y] + post)
  {
    if |pre| == 0 {
      assert pre + [x + sep + y] + post == [x + sep + y] + post;
      assert pre + [x, y] + post == [x] + ([y] + post);
      JoinCons(sep, x, [y] + post);
      if |post| > 0 {
        JoinCons(sep, x + sep + y, post);
        JoinCons(sep, y, post);
      }
    } else {
      JoinSplitPart(sep, pre[1..], x, y, post);
      assert pre + [x + sep + y] + post == [pre[0]] + (pre[1..] + [x + sep + y] + post);
      assert pre + [x, y] + post == [pre[0]] + (pre[1..] + [x, y] + post);
      JoinCons(sep, pre[0], pre[1..] + [x + sep + y] + post);
      JoinCons(sep, pre[0], pre[1..] + [x, y] + post);
    }
  }
}
