/** Keeping the defined images of a sequence's elements, in order. */
module Seqs {
  import opened Wrappers

  /** The values `f` gives for the elements of s, skipping the elements it gives nothing for. */
  function FilterMap<A, B>(s: seq<A>, f: A -> Option<B>): seq<B>
    decreases |s|
  {
    if s == [] then []
    else
      var rest := FilterMap(s[..|s| - 1], f);
      var y := f(s[|s| - 1]);
      if y.Some? then rest + [y.value] else rest
  }

  lemma FilterMapSnoc<A, B>(s: seq<A>, i: int, f: A -> Option<B>)
    requires 0 <= i < |s|
    ensures FilterMap(s[..i + 1], f) == FilterMap(s[..i], f) + (if f(s[i]).Some? then [f(s[i]).value] else [])
  {
    assert s[..i + 1][..i] == s[..i];
  }

  /** An image is kept exactly when some element gives it, and no more values than elements. */
  lemma {:induction false} FilterMapElements<A, B>(s: seq<A>, f: A -> Option<B>)
    ensures forall y :: y in FilterMap(s, f) <==> exists i :: 0 <= i < |s| && f(s[i]) == Some(y)
    ensures |FilterMap(s, f)| <= |s|
  {
    if s != [] {
      var init := s[..|s| - 1];
      FilterMapElements(init, f);
      assert forall i :: 0 <= i < |init| ==> init[i] == s[i];
      forall y | exists i :: 0 <= i < |s| && f(s[i]) == Some(y)
        ensures y in FilterMap(s, f)
      {
        var i :| 0 <= i < |s| && f(s[i]) == Some(y);
        if i < |init| {
          assert f(init[i]) == Some(y);
        }
      }
    }
  }

  /**
   * r is the image of s under f through idx: idx lists, in increasing order,
   * exactly the positions where f gives a value, and r the values given.
   */
  ghost predicate ImageAt<A, B>(s: seq<A>, f: A -> Option<B>, r: seq<B>, idx: seq<int>) {
    && |idx| == |r|
    && (forall k :: 0 <= k < |idx| ==> 0 <= idx[k] < |s| && f(s[idx[k]]) == Some(r[k]))
    && (forall k, l :: 0 <= k < l < |idx| ==> idx[k] < idx[l])
    && (forall i :: 0 <= i < |s| && f(s[i]).Some? ==> i in idx)
  }

  lemma ImageAtSnoc<A, B>(s: seq<A>, f: A -> Option<B>, r: seq<B>, idx: seq<int>, x: A)
    requires ImageAt(s, f, r, idx)
    ensures f(x).Some? ==> ImageAt(s + [x], f, r + [f(x).value], idx + [|s|])
    ensures f(x).None? ==> ImageAt(s + [x], f, r, idx)
  {
    var s' := s + [x];
    assert forall i :: 0 <= i < |s| ==> s'[i] == s[i];
    if f(x).Some? {
      var idx' := idx + [|s|];
      var r' := r + [f(x).value];
      forall k | 0 <= k < |idx'|
        ensures 0 <= idx'[k] < |s'| && f(s'[idx'[k]]) == Some(r'[k])
      {
        if k < |idx| {
          assert idx'[k] == idx[k] && r'[k] == r[k];
        }
      }
      forall i | 0 <= i < |s'| && f(s'[i]).Some?
        ensures i in idx'
      {
        if i < |s| {
          assert i in idx;
        } else {
          assert idx'[|idx|] == i;
        }
      }
    }
  }

  /** FilterMap keeps the defined images in order, one per element that has one. */
  lemma {:induction false} FilterMapImage<A, B>(s: seq<A>, f: A -> Option<B>)
    ensures exists idx :: ImageAt(s, f, FilterMap(s, f), idx)
  {
    if s == [] {
      assert ImageAt(s, f, FilterMap(s, f), []);
    } else {
      var init := s[..|s| - 1];
      var x := s[|s| - 1];
      assert s == init + [x];
      FilterMapImage(init, f);
      var idx :| ImageAt(init, f, FilterMap(init, f), idx);
      ImageAtSnoc(init, f, FilterMap(init, f), idx, x);
      if f(x).Some? {
        assert ImageAt(s, f, FilterMap(s, f), idx + [|init|]);
      } else {
        assert ImageAt(s, f, FilterMap(s, f), idx);
      }
    }
  }
}
