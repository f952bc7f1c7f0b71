/** The numpy boolean-mask operations `normalised_marks` uses: building the
    mask of a half-open bin, counting it (`numpy.sum(m)`), selecting through
    it (`y[m]`) and assigning through it (`marks[m] = vals`). Selection and
    assignment keep the order of the array: the selected position j is the
    Count(m[..j])-th selected one. */
module Masking {

  /** `numpy.sum(m)`: the number of selected positions. */
  function Count(m: seq<bool>): (c: nat)
    ensures c <= |m|
  {
    if m == [] then 0 else Count(m[..|m| - 1]) + (if m[|m| - 1] then 1 else 0)
  }

  /** Counting one more position adds that position's selection. */
  lemma CountStep(m: seq<bool>, j: nat)
    requires j < |m|
    ensures Count(m[..j + 1]) == Count(m[..j]) + (if m[j] then 1 else 0)
  {
    assert m[..j + 1][..j] == m[..j];
  }

  /** A selected position is numbered below the total count. */
  lemma {:induction false} CountPrefixBelow(m: seq<bool>, j: nat)
    requires j < |m| && m[j]
    ensures Count(m[..j]) < Count(m)
  {
    var n := |m| - 1;
    if j < n {
      CountPrefixBelow(m[..n], j);
      assert m[..n][..j] == m[..j];
    } else {
      assert m[..n] == m[..j];
    }
  }

  /** The mask `(x >= lo) & (x < hi)` of the bin [lo, hi). */
  function Mask(x: seq<real>, lo: real, hi: real): (m: seq<bool>)
    ensures |m| == |x|
  {
    seq(|x|, j requires 0 <= j < |x| => lo <= x[j] && x[j] < hi)
  }

  /** Bin membership is the half-open interval: the lower edge belongs to
      the bin and the upper edge does not. */
  lemma MaskIsHalfOpen(x: seq<real>, lo: real, hi: real, j: nat)
    requires j < |x|
    ensures Mask(x, lo, hi)[j] <==> lo <= x[j] < hi
    ensures x[j] == hi ==> !Mask(x, lo, hi)[j]
    ensures x[j] == lo && lo < hi ==> Mask(x, lo, hi)[j]
  {
  }

  /** `y[m]`: the selected entries of `y`, in their order. */
  function Select<T>(y: seq<T>, m: seq<bool>): (r: seq<T>)
    requires |y| == |m|
    ensures |r| == Count(m)
  {
    if m == [] then []
    else
      var n := |m| - 1;
      Select(y[..n], m[..n]) + (if m[n] then [y[n]] else [])
  }

  /** The entry at the selected position j lands at index Count(m[..j]) of
      `y[m]`. */
  lemma {:induction false} SelectAt<T>(y: seq<T>, m: seq<bool>, j: nat)
    requires |y| == |m| && j < |m| && m[j]
    ensures Count(m[..j]) < |Select(y, m)| && Select(y, m)[Count(m[..j])] == y[j]
  {
    var n := |m| - 1;
    CountPrefixBelow(m, j);
    if j < n {
      SelectAt(y[..n], m[..n], j);
      assert m[..n][..j] == m[..j];
    } else {
      assert m[..n] == m[..j];
    }
  }

  /** `base` after `base[m] = vals`: the selected position j receives
      vals[Count(m[..j])], every other position keeps its value. */
  function Scatter<T>(base: seq<T>, m: seq<bool>, vals: seq<T>): (r: seq<T>)
    requires |m| == |base| && |vals| == Count(m)
    ensures |r| == |base|
  {
    seq(|base|, j requires 0 <= j < |base| =>
      if m[j] then CountPrefixBelow(m, j); vals[Count(m[..j])] else base[j])
  }

  /** Assignment through a mask changes exactly the selected positions,
      the j-th of them to vals[Count(m[..j])]. */
  lemma ScatterAt<T>(base: seq<T>, m: seq<bool>, vals: seq<T>, j: nat)
    requires |m| == |base| && |vals| == Count(m) && j < |m|
    ensures !m[j] ==> Scatter(base, m, vals)[j] == base[j]
    ensures m[j] ==> Count(m[..j]) < |vals| && Scatter(base, m, vals)[j] == vals[Count(m[..j])]
  {
    if m[j] {
      CountPrefixBelow(m, j);
    }
  }

  /** Reading back through a mask the values a sequence holds at the
      selected positions gives exactly those values, in order. */
  lemma {:induction false} SelectOfAgreeing<T>(s: seq<T>, m: seq<bool>, vals: seq<T>)
    requires |s| == |m| && |vals| == Count(m)
    requires forall j :: 0 <= j < |m| && m[j] ==> Count(m[..j]) < |vals| && s[j] == vals[Count(m[..j])]
    ensures Select(s, m) == vals
  {
    if m != [] {
      var n := |m| - 1;
      var mp, sp := m[..n], s[..n];
      var c := Count(mp);
      assert Select(s, m) == Select(sp, mp) + (if m[n] then [s[n]] else []);
      assert Select(sp, mp) == vals[..c] by {
        forall j | 0 <= j < n && mp[j]
          ensures Count(mp[..j]) < c && sp[j] == vals[..c][Count(mp[..j])]
        {
          CountPrefixBelow(mp, j);
          assert mp[..j] == m[..j];
        }
        SelectOfAgreeing(sp, mp, vals[..c]);
      }
      if m[n] {
        assert s[n] == vals[c];
        assert vals == vals[..c] + [vals[c]];
      } else {
        assert vals == vals[..c];
      }
    }
  }

  /** Assigning through a mask and selecting through the same mask returns
      the assigned values. */
  lemma SelectScatter<T>(base: seq<T>, m: seq<bool>, vals: seq<T>)
    requires |m| == |base| && |vals| == Count(m)
    ensures Select(Scatter(base, m, vals), m) == vals
  {
    forall j | 0 <= j < |m| && m[j]
      ensures Count(m[..j]) < |vals| && Scatter(base, m, vals)[j] == vals[Count(m[..j])]
    {
      ScatterAt(base, m, vals, j);
    }
    SelectOfAgreeing(Scatter(base, m, vals), m, vals);
  }

  /** `a[m] = vals` in place. */
  method AssignMasked<T>(a: array<T>, m: seq<bool>, vals: seq<T>)
    requires a.Length == |m| && |vals| == Count(m)
    modifies a
    ensures a[..] == Scatter(old(a[..]), m, vals)
  {
    ghost var before := a[..];
    forall j | 0 <= j < a.Length && m[j] {
      a[j] := (CountPrefixBelow(m, j); vals[Count(m[..j])]);
    }
    forall j | 0 <= j < a.Length ensures a[j] == Scatter(before, m, vals)[j] {
      ScatterAt(before, m, vals, j);
    }
  }
}
