/** What both scenes share: the absolute value their distance tests use, and
    the stable filter that the idiom
    `v.erase(remove_if(v.begin(), v.end(), pred), v.end())` performs on a
    `std::vector`. */
module Vectors {

  function Abs(n: int): nat { if n < 0 then -n else n }

  /** The elements of `s` for which `pred` is false, in their original order.
      Defined from the back so that a left-to-right compaction loop extends it
      one element at a time. */
  function RemoveIf<T>(s: seq<T>, pred: T -> bool): (r: seq<T>)
    ensures |r| <= |s|
    ensures forall i :: 0 <= i < |r| ==> !pred(r[i])
  {
    if s == [] then []
    else RemoveIf(s[..|s| - 1], pred) + (if pred(s[|s| - 1]) then [] else [s[|s| - 1]])
  }

  /** Dropping the last element peels off exactly its own contribution. */
  lemma RemoveIfSnoc<T>(s: seq<T>, x: T, pred: T -> bool)
    ensures RemoveIf(s + [x], pred) == RemoveIf(s, pred) + (if pred(x) then [] else [x])
  {
    assert (s + [x])[..|s + [x]| - 1] == s;
  }

  /** Extending a prefix by one element extends its filter by that element's
      own contribution: the step of a left-to-right compaction loop. */
  lemma RemoveIfPrefix<T>(s: seq<T>, i: int, pred: T -> bool)
    requires 0 <= i < |s|
    ensures RemoveIf(s[..i + 1], pred) == RemoveIf(s[..i], pred) + (if pred(s[i]) then [] else [s[i]])
  {
    assert s[..i + 1] == s[..i] + [s[i]];
    RemoveIfSnoc(s[..i], s[i], pred);
  }

  /** The filter is stable: it distributes over concatenation, so survivors
      from an earlier part of the vector stay ahead of survivors from a later
      part. */
  lemma {:induction false} RemoveIfAppend<T>(s: seq<T>, t: seq<T>, pred: T -> bool)
    ensures RemoveIf(s + t, pred) == RemoveIf(s, pred) + RemoveIf(t, pred)
    decreases |t|
  {
    if t == [] {
      assert s + t == s;
    } else {
      var t', x := t[..|t| - 1], t[|t| - 1];
      assert t == t' + [x];
      assert s + t == (s + t') + [x];
      RemoveIfAppend(s, t', pred);
      RemoveIfSnoc(s + t', x, pred);
      RemoveIfSnoc(t', x, pred);
    }
  }

  /** An element survives exactly when it was present and `pred` rejects it. */
  lemma {:induction false} RemoveIfMembers<T>(s: seq<T>, pred: T -> bool, x: T)
    ensures x in RemoveIf(s, pred) <==> x in s && !pred(x)
  {
    if s != [] {
      var s', y := s[..|s| - 1], s[|s| - 1];
      assert s == s' + [y];
      RemoveIfMembers(s', pred, x);
    }
  }

  /** Nothing but the elements `pred` selects is removed: what survives and
      what `pred` selects (what `keep`, its complement, does not) together
      make up the whole vector, with multiplicity. */
  lemma {:induction false} RemoveIfPartition<T>(s: seq<T>, pred: T -> bool, keep: T -> bool)
    requires forall x :: keep(x) == !pred(x)
    ensures multiset(s) == multiset(RemoveIf(s, pred)) + multiset(RemoveIf(s, keep))
  {
    if s != [] {
      var s', y := s[..|s| - 1], s[|s| - 1];
      assert s == s' + [y];
      RemoveIfPartition(s', pred, keep);
    }
  }

  /** A vector in which `pred` selects nothing is left as it is. */
  lemma {:induction false} RemoveIfNone<T>(s: seq<T>, pred: T -> bool)
    requires forall i :: 0 <= i < |s| ==> !pred(s[i])
    ensures RemoveIf(s, pred) == s
  {
    if s != [] {
      var s', y := s[..|s| - 1], s[|s| - 1];
      assert s == s' + [y];
      RemoveIfNone(s', pred);
    }
  }
}
