/** Sequence operations shared by the examples: the `Array.prototype.filter`,
    `Array.prototype.map` and `Array.prototype.join` that the scripts call,
    together with what they guarantee. */
module Seqs {

  /** `s.filter(p)`: the elements of `s` that satisfy `p`, in their original order. */
  function Filter<T>(s: seq<T>, p: T -> bool): (r: seq<T>)
    ensures |r| <= |s|
    ensures forall x :: x in r ==> x in s && p(x)
  {
    if s == [] then []
    else (if p(s[0]) then [s[0]] else []) + Filter(s[1..], p)
  }

  /** `s.map(f)`: `f` applied to every element of `s`, position by position. */
  function MapSeq<A, B>(s: seq<A>, f: A -> B): (r: seq<B>)
    ensures |r| == |s|
    ensures forall i :: 0 <= i < |s| ==> r[i] == f(s[i])
  {
    if s == [] then [] else [f(s[0])] + MapSeq(s[1..], f)
  }

  /** `lines.join(sep)`: the elements with `sep` between neighbours; "" for no
      elements. The text starts with the first element. */
  function Join(lines: seq<string>, sep: string): (r: string)
    ensures lines == [] ==> r == ""
    ensures lines != [] ==> lines[0] <= r
  {
    if lines == [] then ""
    else if |lines| == 1 then lines[0]
    else lines[0] + sep + Join(lines[1..], sep)
  }

  /** `idx` picks `r` out of `s`: strictly increasing positions of `s` whose
      elements, in that order, are `r`. */
  ghost predicate Selects<T>(idx: seq<nat>, s: seq<T>, r: seq<T>)
  {
    && |idx| == |r|
    && (forall k :: 0 <= k < |idx| ==> idx[k] < |s| && r[k] == s[idx[k]])
    && (forall k, l :: 0 <= k < l < |idx| ==> idx[k] < idx[l])
  }

  /** The positions, from `from` on, of the elements of `s` that satisfy `p`,
      in increasing order. */
  function PositionsFrom<T>(s: seq<T>, p: T -> bool, from: nat): seq<nat>
    requires from <= |s|
    decreases |s| - from
  {
    if from == |s| then []
    else (if p(s[from]) then [from] else []) + PositionsFrom(s, p, from + 1)
  }

  lemma {:induction false} PositionsFromSelect<T>(s: seq<T>, p: T -> bool, from: nat)
    requires from <= |s|
    ensures Selects(PositionsFrom(s, p, from), s, Filter(s[from..], p))
    ensures forall k :: 0 <= k < |PositionsFrom(s, p, from)| ==> from <= PositionsFrom(s, p, from)[k]
    ensures forall j :: from <= j < |s| ==> (j in PositionsFrom(s, p, from) <==> p(s[j]))
    decreases |s| - from
  {
    if from < |s| {
      PositionsFromSelect(s, p, from + 1);
      var tail := PositionsFrom(s, p, from + 1);
      var rest := Filter(s[from + 1..], p);
      assert s[from..][1..] == s[from + 1..];
      assert from !in tail;
      if p(s[from]) {
        assert PositionsFrom(s, p, from) == [from] + tail;
        assert Filter(s[from..], p) == [s[from]] + rest;
        SelectsCons(from, tail, s, rest);
      } else {
        assert PositionsFrom(s, p, from) == tail;
        assert Filter(s[from..], p) == rest;
      }
    }
  }

  /** A position before all selected ones can be selected in front of them. */
  lemma SelectsCons<T>(i: nat, idx: seq<nat>, s: seq<T>, r: seq<T>)
    requires Selects(idx, s, r) && i < |s|
    requires forall k :: 0 <= k < |idx| ==> i < idx[k]
    ensures Selects([i] + idx, s, [s[i]] + r)
  {
    var idx', r' := [i] + idx, [s[i]] + r;
    assert forall k :: 1 <= k < |idx'| ==> idx'[k] == idx[k - 1] && r'[k] == r[k - 1];
  }

  /** Filtering is exactly selection: `Filter(s, p)` is the subsequence of `s`
      made of precisely the elements that satisfy `p`, in their original order. */
  lemma FilterSelectsSatisfying<T>(s: seq<T>, p: T -> bool)
    ensures exists idx :: Selects(idx, s, Filter(s, p))
                          && forall j :: 0 <= j < |s| ==> (j in idx <==> p(s[j]))
  {
    PositionsFromSelect(s, p, 0);
    assert s[0..] == s;
  }

  /** Filtering a concatenation filters each part. */
  lemma {:induction false} FilterAppend<T>(s: seq<T>, t: seq<T>, p: T -> bool)
    ensures Filter(s + t, p) == Filter(s, p) + Filter(t, p)
  {
    if s != [] {
      assert (s + t)[0] == s[0];
      assert (s + t)[1..] == s[1..] + t;
      FilterAppend(s[1..], t, p);
      var head := if p(s[0]) then [s[0]] else [];
      assert Filter(s + t, p) == head + Filter(s[1..] + t, p);
      assert Filter(s, p) == head + Filter(s[1..], p);
    } else {
      assert s + t == t;
    }
  }

  /** Two tests that agree on every element of `s` filter it alike. */
  lemma {:induction false} FilterAgrees<T>(s: seq<T>, p: T -> bool, q: T -> bool)
    requires forall x :: x in s ==> p(x) == q(x)
    ensures Filter(s, p) == Filter(s, q)
  {
    if s != [] {
      FilterAgrees(s[1..], p, q);
    }
  }

  /** Filtering by a conjunction is filtering by one conjunct and then the other. */
  lemma {:induction false} FilterConjunction<T>(s: seq<T>, p: T -> bool, q: T -> bool, pq: T -> bool)
    requires forall x :: x in s ==> pq(x) == (p(x) && q(x))
    ensures Filter(s, pq) == Filter(Filter(s, p), q)
  {
    if s != [] {
      FilterConjunction(s[1..], p, q, pq);
      var rest := Filter(s[1..], p);
      assert Filter(s, pq) == (if pq(s[0]) then [s[0]] else []) + Filter(s[1..], pq);
      if p(s[0]) {
        assert Filter(s, p) == [s[0]] + rest;
        assert ([s[0]] + rest)[1..] == rest;
        assert Filter([s[0]] + rest, q) == (if q(s[0]) then [s[0]] else []) + Filter(rest, q);
      } else {
        assert Filter(s, p) == rest;
      }
    }
  }

  /** A test every element satisfies keeps the whole sequence. */
  lemma {:induction false} FilterAll<T>(s: seq<T>, p: T -> bool)
    requires forall x :: x in s ==> p(x)
    ensures Filter(s, p) == s
  {
    if s != [] {
      FilterAll(s[1..], p);
    }
  }

  /** Nothing is kept exactly when no element satisfies the test. */
  lemma {:induction false} FilterEmptyIff<T>(s: seq<T>, p: T -> bool)
    ensures Filter(s, p) == [] <==> forall x :: x in s ==> !p(x)
  {
    if s != [] {
      FilterEmptyIff(s[1..], p);
      assert forall x :: x in s <==> x == s[0] || x in s[1..];
    }
  }

  /** Mapping a concatenation maps each part. */
  lemma {:induction false} MapSeqAppend<A, B>(s: seq<A>, t: seq<A>, f: A -> B)
    ensures MapSeq(s + t, f) == MapSeq(s, f) + MapSeq(t, f)
  {
    assert forall i :: 0 <= i < |s + t| ==> (s + t)[i] == if i < |s| then s[i] else t[i - |s|];
  }

  /** Joining one more element adds a separator and that element at the end. */
  lemma {:induction false} JoinSnoc(lines: seq<string>, last: string, sep: string)
    ensures Join(lines + [last], sep) == if lines == [] then last else Join(lines, sep) + sep + last
  {
    var whole := lines + [last];
    if |lines| > 1 {
      assert whole[1..] == lines[1..] + [last];
      JoinSnoc(lines[1..], last, sep);
      var first, rest := lines[0], Join(lines[1..], sep);
      calc {
        Join(whole, sep);
        whole[0] + sep + Join(lines[1..] + [last], sep);
        first + sep + (rest + sep + last);
        { SeqAssoc(first + sep, rest, sep + last); }
        (first + sep + rest) + sep + last;
        Join(lines, sep) + sep + last;
      }
    } else if |lines| == 1 {
      assert whole[1..] == [last];
      assert Join(whole, sep) == lines[0] + sep + last;
    } else {
      assert whole == [last];
    }
  }

  lemma SeqAssoc<T>(a: seq<T>, b: seq<T>, c: seq<T>)
    ensures a + (b + c) == (a + b) + c
  {
  }

  /** A separator that occurs in neither left part splits a concatenation uniquely. */
  lemma SplitAtSeparator<T>(a1: seq<T>, b1: seq<T>, a2: seq<T>, b2: seq<T>, sep: T)
    requires sep !in a1 && sep !in a2
    requires a1 + [sep] + b1 == a2 + [sep] + b2
    ensures a1 == a2 && b1 == b2
  {
    var whole := a1 + [sep] + b1;
    assert whole[|a1|] == sep && forall i :: 0 <= i < |a1| ==> whole[i] == a1[i];
    assert whole[|a2|] == sep && forall i :: 0 <= i < |a2| ==> whole[i] == a2[i];
    assert a1 == whole[..|a1|] == a2;
    assert b1 == whole[|a1| + 1..] == b2;
  }
}
