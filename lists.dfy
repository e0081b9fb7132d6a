/**
 Sequence helpers shared by the question list and the submission: Python's
 list reversal and `enumerate(..., start=...)` turned into numbered embed fields.
 */
module Lists {

  /** The sequence in the opposite order. */
  function Reverse<T>(s: seq<T>): (r: seq<T>)
    ensures |r| == |s|
    ensures forall i :: 0 <= i < |s| ==> r[i] == s[|s| - 1 - i]
  {
    if s == [] then [] else Reverse(s[1..]) + [s[0]]
  }

  /** One embed field the bot renders, "Question 3" or "Response 3": the
      number in its name and the text in its value. */
  datatype Field = Field(number: nat, value: string)

  /** The fields of `for i, v in enumerate(values, start=from)`. */
  function Numbered(values: seq<string>, from: nat): (r: seq<Field>)
    ensures |r| == |values|
    ensures forall i :: 0 <= i < |values| ==> r[i] == Field(from + i, values[i])
  {
    if values == [] then [] else [Field(from, values[0])] + Numbered(values[1..], from + 1)
  }

  /** The elements of `s` that `keep` accepts, in their order in `s`; written
      on the last element, as a loop that appends does it. */
  function Filter<T>(s: seq<T>, keep: T -> bool): (r: seq<T>)
    ensures |r| <= |s|
  {
    if s == [] then [] else
      var last := s[|s| - 1];
      Filter(s[..|s| - 1], keep) + (if keep(last) then [last] else [])
  }

  /** The positions in `s` of the elements `keep` accepts, in increasing order. */
  function KeptIndices<T>(s: seq<T>, keep: T -> bool): (idx: seq<nat>)
    ensures forall i :: 0 <= i < |idx| ==> idx[i] < |s| && keep(s[idx[i]])
    ensures forall i, j :: 0 <= i < j < |idx| ==> idx[i] < idx[j]
    ensures forall k :: 0 <= k < |s| && keep(s[k]) ==> k in idx
  {
    if s == [] then [] else
      var last := |s| - 1;
      KeptIndices(s[..last], keep) + (if keep(s[last]) then [last] else [])
  }

  /** The filter takes exactly the elements at the kept positions. */
  lemma {:induction false} FilterAtKeptIndices<T>(s: seq<T>, keep: T -> bool)
    ensures |Filter(s, keep)| == |KeptIndices(s, keep)|
    ensures forall i :: 0 <= i < |Filter(s, keep)| ==> Filter(s, keep)[i] == s[KeptIndices(s, keep)[i]]
    decreases |s|
  {
    if s != [] {
      var init := s[..|s| - 1];
      FilterAtKeptIndices(init, keep);
    }
  }

  /** An element is kept exactly when it occurs in `s` and is accepted. */
  lemma {:induction false} FilterMembers<T>(s: seq<T>, keep: T -> bool)
    ensures forall x :: x in Filter(s, keep) <==> x in s && keep(x)
    decreases |s|
  {
    if s != [] {
      var init := s[..|s| - 1];
      FilterMembers(init, keep);
      assert s == init + [s[|s| - 1]];
    }
  }

  /** Filtering distributes over concatenation. */
  lemma {:induction false} FilterConcat<T>(a: seq<T>, b: seq<T>, keep: T -> bool)
    ensures Filter(a + b, keep) == Filter(a, keep) + Filter(b, keep)
    decreases |b|
  {
    if b == [] {
      assert a + b == a;
    } else {
      var b' := b[..|b| - 1];
      assert (a + b)[..|a + b| - 1] == a + b';
      FilterConcat(a, b', keep);
    }
  }

  /** One more element of `s` visited: the filter grows by it exactly when it is kept. */
  lemma FilterStep<T>(s: seq<T>, i: nat, keep: T -> bool)
    requires i < |s|
    ensures Filter(s[..i + 1], keep) == Filter(s[..i], keep) + (if keep(s[i]) then [s[i]] else [])
  {
    assert s[..i + 1][..i] == s[..i];
  }

  /** Concatenation is associative. */
  lemma ConcatAssoc<T>(a: seq<T>, b: seq<T>, c: seq<T>)
    ensures (a + b) + c == a + (b + c)
  {
  }

  /** Reversal keeps the elements. */
  lemma ReverseMembers<T>(s: seq<T>)
    ensures forall x :: x in Reverse(s) <==> x in s
  {
    forall x | x in s ensures x in Reverse(s) {
      var i :| 0 <= i < |s| && s[i] == x;
      assert Reverse(s)[|s| - 1 - i] == x;
    }
  }

  /** Reversal turns a concatenation around. */
  lemma ReverseConcat<T>(a: seq<T>, b: seq<T>)
    ensures Reverse(a + b) == Reverse(b) + Reverse(a)
  {
    assert forall i :: 0 <= i < |a + b| ==> Reverse(a + b)[i] == (Reverse(b) + Reverse(a))[i];
  }

  /** Filtering commutes with reversal. */
  lemma {:induction false} FilterReverse<T>(s: seq<T>, keep: T -> bool)
    ensures Filter(Reverse(s), keep) == Reverse(Filter(s, keep))
    decreases |s|
  {
    if s != [] {
      var init := s[..|s| - 1];
      var last := s[|s| - 1];
      var tail := if keep(last) then [last] else [];
      assert s == init + [last];
      ReverseConcat(init, [last]);
      assert Reverse([last]) == [last];
      assert Reverse(s) == [last] + Reverse(init);
      assert Filter(s, keep) == Filter(init, keep) + tail;
      FilterConcat([last], Reverse(init), keep);
      FilterReverse(init, keep);
      assert Filter([last], keep) == tail by {
        assert [last][..0] == [];
      }
      ReverseConcat(Filter(init, keep), tail);
      assert Reverse(tail) == tail;
    }
  }

  /** `list.reverse()`: swaps the two ends inwards. */
  method ReverseInPlace<T>(s: seq<T>) returns (r: seq<T>)
    ensures r == Reverse(s)
  {
    r := s;
    var n := |s|;
    var j := 0;
    while j < n / 2
      invariant 0 <= j <= n / 2 && |r| == n
      invariant forall k :: 0 <= k < j ==> r[k] == s[n - 1 - k] && r[n - 1 - k] == s[k]
      invariant forall k :: j <= k < n - j ==> r[k] == s[k]
    {
      r := r[j := r[n - 1 - j]][n - 1 - j := r[j]];
      j := j + 1;
    }
    assert forall k :: 0 <= k < n ==> r[k] == Reverse(s)[k];
  }
}
