/**
 Sequence helpers shared by the planners and listers: order-preserving
 filtering and mapping, Python list indexing, and reading a scripted answer
 from a client double.
 */
module Seqs {
  import opened Errors
  import opened Wrappers

  /** `[x for x in s if p(x)]` */
  function Filter<T>(p: T -> bool, s: seq<T>): (r: seq<T>)
    ensures |r| <= |s|
    ensures forall i :: 0 <= i < |r| ==> p(r[i])
    ensures (forall i :: 0 <= i < |s| ==> !p(s[i])) ==> r == []
    ensures (forall i :: 0 <= i < |s| ==> p(s[i])) ==> r == s
  {
    if |s| == 0 then []
    else (if p(s[0]) then [s[0]] else []) + Filter(p, s[1..])
  }

  /** Filtering keeps exactly the elements that pass: every kept element
      comes from the input, and every passing input element is kept. */
  lemma {:induction false} FilterMembers<T>(p: T -> bool, s: seq<T>)
    ensures forall x :: x in Filter(p, s) <==> x in s && p(x)
  {
    if |s| > 0 {
      FilterMembers(p, s[1..]);
      assert s == [s[0]] + s[1..];
    }
  }

  /** Filtering a concatenation filters each part: the kept elements stay in input order. */
  lemma {:induction false} FilterAppend<T>(p: T -> bool, s: seq<T>, t: seq<T>)
    ensures Filter(p, s + t) == Filter(p, s) + Filter(p, t)
  {
    if |s| == 0 {
      assert s + t == t;
    } else {
      assert (s + t)[1..] == s[1..] + t;
      FilterAppend(p, s[1..], t);
    }
  }

  /** `[f(x) for x in s]` */
  function Map<T, U>(f: T -> U, s: seq<T>): (r: seq<U>)
    ensures |r| == |s|
    ensures forall i :: 0 <= i < |s| ==> r[i] == f(s[i])
  {
    if |s| == 0 then [] else [f(s[0])] + Map(f, s[1..])
  }

  lemma {:induction false} MapAppend<T, U>(f: T -> U, s: seq<T>, t: seq<T>)
    ensures Map(f, s + t) == Map(f, s) + Map(f, t)
  {
    if |s| == 0 {
      assert s + t == t;
    } else {
      assert (s + t)[1..] == s[1..] + t;
      MapAppend(f, s[1..], t);
    }
  }

  /** The prefix one longer is the prefix and the next element. */
  lemma TakeSnoc<T>(s: seq<T>, k: nat)
    requires k < |s|
    ensures s[..k + 1] == s[..k] + [s[k]]
  {
  }

  /** Keeping and mapping one more element adds at most that element's image, at the end. */
  lemma FilterMapSnoc<T, U>(p: T -> bool, f: T -> U, s: seq<T>, x: T)
    ensures Map(f, Filter(p, s + [x])) == Map(f, Filter(p, s)) + if p(x) then [f(x)] else []
  {
    FilterAppend(p, s, [x]);
    MapAppend(f, Filter(p, s), Filter(p, [x]));
    assert Filter(p, [x]) == (if p(x) then [x] else []) + Filter(p, []);
  }

  /** Growing a prefix by one element adds that element's image when it is kept. */
  lemma FilterMapPrefix<T, U>(p: T -> bool, f: T -> U, s: seq<T>, k: nat)
    requires k < |s|
    ensures p(s[k]) ==> Map(f, Filter(p, s[..k + 1])) == Map(f, Filter(p, s[..k])) + [f(s[k])]
    ensures !p(s[k]) ==> Map(f, Filter(p, s[..k + 1])) == Map(f, Filter(p, s[..k]))
  {
    TakeSnoc(s, k);
    FilterMapSnoc(p, f, s[..k], s[k]);
    if !p(s[k]) {
      assert Map(f, Filter(p, s[..k])) + [] == Map(f, Filter(p, s[..k]));
    }
  }

  /** Every kept element's image is among the mapped results. */
  lemma KeptIsMapped<T, U>(p: T -> bool, f: T -> U, s: seq<T>, i: int)
    requires 0 <= i < |s| && p(s[i])
    ensures f(s[i]) in Map(f, Filter(p, s))
  {
    var kept := Filter(p, s);
    FilterMembers(p, s);
    assert s[i] in kept;
    var j :| 0 <= j < |kept| && kept[j] == s[i];
    assert Map(f, kept)[j] == f(s[i]);
  }

  /** Python's `s[i]` for an `int` index: negative indices count from the end,
      anything out of range raises IndexError. */
  function PyIndex<T>(s: seq<T>, i: int): (r: Result<T>)
    ensures r.Ok? <==> -|s| <= i < |s|
    ensures 0 <= i < |s| ==> r == Ok(s[i])
    ensures -|s| <= i < 0 ==> r == Ok(s[|s| + i])
    ensures r.Err? ==> r.exc == IndexError
  {
    if 0 <= i < |s| then Ok(s[i])
    else if -|s| <= i < 0 then Ok(s[|s| + i])
    else Err(IndexError)
  }

  /** The answer a client double gives to its `i`-th call of one kind: the
      scripted one, or `Unscripted` when the script has run out. */
  function Answer<T>(script: seq<Result<T>>, i: nat): (r: Result<T>)
    ensures i < |script| ==> r == script[i]
    ensures i >= |script| ==> r == Err(Unscripted)
  {
    if i < |script| then script[i] else Err(Unscripted)
  }

  /** The script after its first answer. */
  function Rest<T>(script: seq<Result<T>>): (r: seq<Result<T>>)
    ensures forall i: nat :: Answer(r, i) == Answer(script, i + 1)
  {
    if |script| > 0 then script[1..] else []
  }
}
