/** `normalised_marks(x, y, bins)`: the marks of `y` binned by `x`. Within
    each half-open bin [bins[i], bins[i+1]) the entries of `y` are ranked in
    ascending order and the ranks divided by the largest rank, so that they
    lie in [0, 1]; entries in no bin keep the mark NaN. */
module Utils {
  import opened Outcomes
  import opened Ranking
  import opened Masking

  /** A floating-point mark: NaN, or a real value (rounding is not modelled). */
  datatype Mark = NaN | Val(r: real)

  /** The exceptions the routine can raise. */
  datatype Error =
    | NotImplementedError  // `y` is not of a floating dtype
    | IndexError           // an edge index past the end, or a mask of the wrong length
    | ValueError           // `numpy.nanmax` of an empty bin

  /** The element kind of the array `y`. */
  datatype DType = Floating | NonFloating

  /** `numpy.full(n, numpy.nan)`. */
  function AllNaN(n: nat): (marks: seq<Mark>)
    ensures |marks| == n && forall j :: 0 <= j < n ==> marks[j] == NaN
  {
    seq(n, _ => NaN)
  }

  function MaxMark(a: Mark, b: Mark): Mark {
    match (a, b)
    case (NaN, _) => b
    case (_, NaN) => a
    case (Val(u), Val(v)) => Val(if u < v then v else u)
  }

  /** `numpy.nanmax`: the largest value that is not NaN; NaN when every entry
      is NaN; a ValueError (zero-size reduction) when there is no entry. */
  function NanMax(s: seq<Mark>): (r: Result<Mark, Error>)
    ensures r.Err? <==> s == []
    ensures r.Err? ==> r.error == ValueError
    ensures r.Ok? ==> (r.value == NaN <==> forall i :: 0 <= i < |s| ==> s[i] == NaN)
    ensures r.Ok? && r.value.Val? ==>
      r.value in s && forall i :: 0 <= i < |s| && s[i].Val? ==> s[i].r <= r.value.r
  {
    if s == [] then Err(ValueError)
    else if |s| == 1 then Ok(s[0])
    else
      var rest := NanMax(s[1..]);
      assert forall i :: 1 <= i < |s| ==> s[i] == s[1..][i - 1];
      Ok(MaxMark(s[0], rest.value))
  }

  /** Floating-point division of a mark by a mark, for the operands that
      arise here: NaN is absorbing and 0/0 is NaN (a nonzero value divided by
      zero, which would give an infinity, is excluded). */
  function Divide(a: Mark, d: Mark): (q: Mark)
    requires a.Val? && d == Val(0.0) ==> a.r == 0.0
    ensures q == NaN <==> a == NaN || d == NaN || d == Val(0.0)
  {
    match (a, d)
    case (Val(u), Val(v)) => if v == 0.0 then NaN else Val(u / v)
    case _ => NaN
  }

  /** A quotient that is a value times the divisor gives back the dividend. */
  lemma DivideInverts(a: Mark, d: Mark)
    requires a.Val? && d == Val(0.0) ==> a.r == 0.0
    requires Divide(a, d).Val?
    ensures a.Val? && d.Val? && Divide(a, d).r * d.r == a.r
  {
  }

  /** Rank `n` in a bin of `k` elements divided by the largest rank, k-1. */
  function RankMark(n: nat, k: nat): Mark
    requires k > 1
  {
    Val(n as real / (k - 1) as real)
  }

  /** The ranks of a bin of more than one element divided by the largest. */
  function Normalised(ranks: seq<nat>): (marks: seq<Mark>)
    requires |ranks| > 1
    ensures |marks| == |ranks|
  {
    seq(|ranks|, a requires 0 <= a < |ranks| => RankMark(ranks[a], |ranks|))
  }

  /** The marks of one bin holding the values `ys`, stated by what they mean:
      an empty bin is a ValueError, a one-element bin gets NaN (0/0), and a
      bin of k > 1 elements gets rank/(k-1) for the ranks of the argsort. */
  function BinMarksSpec(argsort: ArgSorter, ys: seq<real>): (r: Result<seq<Mark>, Error>)
    ensures r.Err? <==> |ys| == 0
    ensures r.Ok? ==> |r.value| == |ys|
  {
    if |ys| == 0 then Err(ValueError)
    else if |ys| == 1 then Ok([NaN])
    else Ok(MarksFor(ys, argsort(ys)))
  }

  /** BinMarksSpec for a given argsort, as the step of ProcessBins. */
  function BinStep(argsort: ArgSorter): seq<real> -> Result<seq<Mark>, Error> {
    ys => BinMarksSpec(argsort, ys)
  }

  /** Lines `_marks = numpy.full(k, nan)` and `for n, ind in
      enumerate(order): _marks[ind] = n`: each position receives its rank. */
  method WriteRanks(order: seq<nat>) returns (marks: array<Mark>)
    requires IsPermutation(order, |order|)
    ensures fresh(marks) && marks.Length == |order|
    ensures forall a :: 0 <= a < |order| ==> marks[a] == Val(Ranks(order)[a] as real)
  {
    var k := |order|;
    marks := new Mark[k](_ => NaN);
    for n := 0 to k
      invariant forall i :: 0 <= i < n ==> marks[order[i]] == Val(i as real)
      invariant forall a: nat :: a < k && a !in order[..n] ==> marks[a] == NaN
    {
      marks[order[n]] := Val(n as real);
    }
    forall a | 0 <= a < k ensures marks[a] == Val(Ranks(order)[a] as real) {
      RanksInvert(order, IndexOf(order, a));
    }
  }

  /** The marks of one bin as the source computes them: ranks written
      through the argsort, then divided in place by their `nanmax`. */
  method BinMarks(argsort: ArgSorter, ys: seq<real>) returns (res: Result<seq<Mark>, Error>)
    ensures res == BinMarksSpec(argsort, ys)
  {
    var order := argsort(ys);
    assert IsArgSort(ys, order);
    var marks := WriteRanks(order);
    var top := NanMax(marks[..]);
    if top.Err? {
      return Err(top.error);
    }
    ghost var ranks := Ranks(order);
    RanksArePermutation(order);
    NanMaxOfRanks(ranks, marks[..]);
    DivideAll(marks, top.value);
    var divided := marks[..];
    assert top.value == Val((|ranks| - 1) as real);
    assert forall a :: 0 <= a < |divided| ==>
      divided[a] == Divide(Val(ranks[a] as real), Val((|ranks| - 1) as real));
    DividedRanks(ranks, divided);
    BinMarksSpecOfArgSort(argsort, ys, order);
    return Ok(divided);
  }

  /** BinMarksSpec of a non-empty bin in terms of the argsort it uses. */
  lemma BinMarksSpecOfArgSort(argsort: ArgSorter, ys: seq<real>, order: seq<nat>)
    requires |ys| > 0 && order == argsort(ys)
    ensures IsArgSort(ys, order)
    ensures BinMarksSpec(argsort, ys) == Ok(if |ys| == 1 then [NaN] else Normalised(Ranks(order)))
  {
  }

  /** The in-place division `marks /= d`, element by element. */
  method DivideAll(marks: array<Mark>, d: Mark)
    requires forall a :: 0 <= a < marks.Length && marks[a].Val? && d == Val(0.0) ==> marks[a].r == 0.0
    modifies marks
    ensures forall a :: 0 <= a < marks.Length ==> marks[a] == Divide(old(marks[a]), d)
  {
    forall a | 0 <= a < marks.Length {
      marks[a] := Divide(marks[a], d);
    }
  }

  /** The largest of the ranks 0..k-1 is k-1. */
  lemma NanMaxOfRanks(ranks: seq<nat>, marks: seq<Mark>)
    requires IsPermutation(ranks, |ranks|) && |marks| == |ranks| > 0
    requires forall a :: 0 <= a < |marks| ==> marks[a] == Val(ranks[a] as real)
    ensures NanMax(marks) == Ok(Val((|marks| - 1) as real))
  {
    var k := |marks|;
    var top := NanMax(marks);
    assert k - 1 in ranks;
    var a :| 0 <= a < k && ranks[a] == k - 1;
    assert marks[a] == Val((k - 1) as real);
  }

  /** Dividing the ranks 0..k-1 by k-1 gives the normalised ranks when
      k > 1, and the single mark 0/0 = NaN when k == 1. */
  lemma DividedRanks(ranks: seq<nat>, marks: seq<Mark>)
    requires IsPermutation(ranks, |ranks|) && |marks| == |ranks| > 0
    requires forall a :: 0 <= a < |marks| ==>
      marks[a] == Divide(Val(ranks[a] as real), Val((|ranks| - 1) as real))
    ensures marks == if |ranks| == 1 then [NaN] else Normalised(ranks)
  {
  }

  // The properties below hold for the marks of a bin of k > 1 elements
  // computed from ANY argsort of its values, so they do not depend on how
  // the sort orders equal values.

  /** The marks of a bin of k > 1 elements for the argsort `order`. */
  function MarksFor(ys: seq<real>, order: seq<nat>): (marks: seq<Mark>)
    requires IsArgSort(ys, order) && |ys| > 1
    ensures |marks| == |ys|
  {
    Normalised(Ranks(order))
  }

  /** Dividing by the same positive number keeps a strict order. */
  lemma DivideKeepsOrder(u: real, v: real, t: real)
    requires u < v && t > 0.0
    ensures u / t < v / t
  {
  }

  /** Every mark of a bin lies in [0, 1]. */
  lemma MarksInUnitInterval(ys: seq<real>, order: seq<nat>)
    requires IsArgSort(ys, order) && |ys| > 1
    ensures forall a :: 0 <= a < |ys| ==>
      MarksFor(ys, order)[a].Val? && 0.0 <= MarksFor(ys, order)[a].r <= 1.0
  {
    var ranks := Ranks(order);
    RanksArePermutation(order);
    forall a | 0 <= a < |ys| ensures 0.0 <= MarksFor(ys, order)[a].r <= 1.0 {
      assert ranks[a] < |ys|;
      assert ranks[a] as real <= (|ys| - 1) as real;
    }
  }

  /** Marks follow the values: a strictly smaller value gets a strictly
      smaller mark, and a smaller mark never belongs to a larger value. */
  lemma MarksFollowValues(ys: seq<real>, order: seq<nat>, a: nat, b: nat)
    requires IsArgSort(ys, order) && |ys| > 1 && a < |ys| && b < |ys|
    ensures ys[a] < ys[b] ==> MarksFor(ys, order)[a].r < MarksFor(ys, order)[b].r
    ensures MarksFor(ys, order)[a].r < MarksFor(ys, order)[b].r ==> ys[a] <= ys[b]
  {
    var ranks, top := Ranks(order), (|ys| - 1) as real;
    if ys[a] < ys[b] {
      RanksRespectOrder(ys, order, a, b);
      DivideKeepsOrder(ranks[a] as real, ranks[b] as real, top);
    }
    if ys[b] < ys[a] {
      RanksRespectOrder(ys, order, b, a);
      DivideKeepsOrder(ranks[b] as real, ranks[a] as real, top);
    }
  }

  /** The mark 0 goes to a smallest value of the bin and the mark 1 to a
      largest. */
  lemma MarksExtremes(ys: seq<real>, order: seq<nat>, a: nat)
    requires IsArgSort(ys, order) && |ys| > 1 && a < |ys|
    ensures MarksFor(ys, order)[a] == Val(0.0) ==> forall b :: 0 <= b < |ys| ==> ys[a] <= ys[b]
    ensures MarksFor(ys, order)[a] == Val(1.0) ==> forall b :: 0 <= b < |ys| ==> ys[b] <= ys[a]
  {
    var ranks, top := Ranks(order), (|ys| - 1) as real;
    RankExtremes(ys, order, a);
    assert MarksFor(ys, order)[a] == Val(ranks[a] as real / top);
    if ranks[a] as real / top == 1.0 {
      assert ranks[a] as real == top;
    }
  }

  /** The marks of a bin of k elements are exactly the k levels
      0, 1/(k-1), ..., 1: each level is taken, and every mark is the level
      of its entry's rank, which is below k. */
  lemma MarksAreLevels(ys: seq<real>, order: seq<nat>)
    requires IsArgSort(ys, order) && |ys| > 1
    ensures forall n: nat :: n < |ys| ==> RankMark(n, |ys|) in MarksFor(ys, order)
    ensures forall a :: 0 <= a < |ys| ==>
      Ranks(order)[a] < |ys| && MarksFor(ys, order)[a] == RankMark(Ranks(order)[a], |ys|)
  {
    var k, ranks := |ys|, Ranks(order);
    var marks := MarksFor(ys, order);
    RanksArePermutation(order);
    forall n: nat | n < k ensures RankMark(n, k) in marks {
      assert n in ranks;
      var a :| 0 <= a < k && ranks[a] == n;
      assert marks[a] == RankMark(n, k);
    }
    forall a | 0 <= a < k ensures ranks[a] < k && marks[a] == RankMark(ranks[a], k) {
      MarkIsLevel(ys, order, a);
    }
  }

  /** The mark of entry `a` is the level of its rank. */
  lemma MarkIsLevel(ys: seq<real>, order: seq<nat>, a: nat)
    requires IsArgSort(ys, order) && |ys| > 1 && a < |ys|
    ensures Ranks(order)[a] < |ys| && MarksFor(ys, order)[a] == RankMark(Ranks(order)[a], |ys|)
  {
    RanksArePermutation(order);
  }

  /** A mark of 0.5 belongs to the median of the bin: the bin has an odd
      number k of elements, the entry has rank (k-1)/2, the entries ranked
      below it are not larger and those ranked above it are not smaller. */
  lemma MarksMedian(ys: seq<real>, order: seq<nat>, a: nat)
    requires IsArgSort(ys, order) && |ys| > 1 && a < |ys|
    requires MarksFor(ys, order)[a] == Val(0.5)
    ensures |ys| % 2 == 1 && Ranks(order)[a] == (|ys| - 1) / 2
    ensures forall b :: 0 <= b < |ys| && Ranks(order)[b] < Ranks(order)[a] ==> ys[b] <= ys[a]
    ensures forall b :: 0 <= b < |ys| && Ranks(order)[a] < Ranks(order)[b] ==> ys[a] <= ys[b]
  {
    var k, ranks := |ys|, Ranks(order);
    MarkIsLevel(ys, order, a);
    assert ranks[a] as real / (k - 1) as real == 0.5;
    assert 2 * ranks[a] == k - 1 by {
      assert (2 * ranks[a]) as real == (k - 1) as real;
    }
    RanksArePermutation(order);
    forall b | 0 <= b < k && ranks[b] != ranks[a]
      ensures ranks[b] < ranks[a] ==> ys[b] <= ys[a]
      ensures ranks[a] < ranks[b] ==> ys[a] <= ys[b]
    {
      assert order[ranks[a]] == a && order[ranks[b]] == b;
    }
  }

  /** The marks of one bin, by its number of elements: a ValueError when
      empty, NaN for a single element, and otherwise the normalised ranks of
      an argsort, which the lemmas above describe. */
  lemma BinMarksSpecCases(argsort: ArgSorter, ys: seq<real>)
    ensures |ys| == 0 <==> BinMarksSpec(argsort, ys) == Err(ValueError)
    ensures |ys| == 1 <==> BinMarksSpec(argsort, ys) == Ok([NaN])
    ensures |ys| > 1 ==>
      exists order :: IsArgSort(ys, order) && BinMarksSpec(argsort, ys) == Ok(MarksFor(ys, order))
    ensures BinMarksSpec(argsort, ys).Ok? ==> |BinMarksSpec(argsort, ys).value| == |ys|
  {
    if |ys| > 1 {
      var order := argsort(ys);
      assert IsArgSort(ys, order);
      assert MarksFor(ys, order)[0] != NaN;
    }
  }

  /** The mask of bin `i`: [bins[i], bins[i+1]). */
  function BinMask(x: seq<real>, bins: seq<real>, i: nat): (m: seq<bool>)
    requires i + 1 < |bins|
    ensures |m| == |x|
  {
    Mask(x, bins[i], bins[i + 1])
  }

  /** The shape of a per-bin step such as BinStep(argsort): one mark per value,
      and the ValueError of `numpy.nanmax` exactly for an empty bin. The
      bin-by-bin reasoning below needs nothing else of the step. */
  ghost predicate IsBinStep(step: seq<real> -> Result<seq<Mark>, Error>) {
    forall ys {:trigger step(ys)} ::
      && (step(ys).Err? <==> |ys| == 0)
      && (step(ys).Err? ==> step(ys).error == ValueError)
      && (step(ys).Ok? ==> |step(ys).value| == |ys|)
  }

  lemma BinStepIsBinStep(argsort: ArgSorter)
    ensures IsBinStep(BinStep(argsort))
  {
    var step := BinStep(argsort);
    forall ys ensures step(ys) == BinMarksSpec(argsort, ys) && (step(ys).Err? ==> step(ys).error == ValueError) {
    }
  }

  /** The marks after processing the first `n` bins in order, starting from
      all NaN: each bin overwrites the entries its mask selects with the
      step's marks for that bin, and the first failing bin's error is the
      result. `ProcessBins(x, y, bins, n, BinStep(argsort))` is the intended
      result of the routine's loop over n bins. */
  function ProcessBins(x: seq<real>, y: seq<real>, bins: seq<real>, n: nat,
                       step: seq<real> -> Result<seq<Mark>, Error>): (r: Result<seq<Mark>, Error>)
    requires |x| == |y| && (n == 0 || n < |bins|) && IsBinStep(step)
    ensures r.Ok? ==> |r.value| == |y|
  {
    if n == 0 then Ok(AllNaN(|y|))
    else
      match ProcessBins(x, y, bins, n - 1, step)
      case Err(e) => Err(e)
      case Ok(prev) =>
        var m := BinMask(x, bins, n - 1);
        match step(Select(y, m))
        case Err(e) => Err(e)
        case Ok(vals) => Ok(Scatter(prev, m, vals))
  }

  /** Processing succeeds exactly when none of the processed bins is empty. */
  lemma {:induction false} ProcessBinsOutcome(x: seq<real>, y: seq<real>, bins: seq<real>, n: nat,
                                              step: seq<real> -> Result<seq<Mark>, Error>)
    requires |x| == |y| && (n == 0 || n < |bins|) && IsBinStep(step)
    ensures ProcessBins(x, y, bins, n, step).Ok? <==>
      forall i :: 0 <= i < n ==> Count(BinMask(x, bins, i)) > 0
  {
    if n > 0 {
      ProcessBinsOutcome(x, y, bins, n - 1, step);
      assert ProcessBins(x, y, bins, n, step).Ok? <==>
        ProcessBins(x, y, bins, n - 1, step).Ok? && Count(BinMask(x, bins, n - 1)) > 0;
      assert (forall i :: 0 <= i < n ==> Count(BinMask(x, bins, i)) > 0) <==>
        (forall i :: 0 <= i < n - 1 ==> Count(BinMask(x, bins, i)) > 0) && Count(BinMask(x, bins, n - 1)) > 0;
    }
  }

  /** The only error processing can end in is the ValueError of an empty bin. */
  lemma {:induction false} ProcessBinsErrorIsValueError(x: seq<real>, y: seq<real>, bins: seq<real>, n: nat,
                                                        step: seq<real> -> Result<seq<Mark>, Error>)
    requires |x| == |y| && (n == 0 || n < |bins|) && IsBinStep(step)
    ensures ProcessBins(x, y, bins, n, step).Err? ==> ProcessBins(x, y, bins, n, step).error == ValueError
  {
    if n > 0 {
      ProcessBinsErrorIsValueError(x, y, bins, n - 1, step);
    }
  }

  /** Once a bin has failed, processing more bins still fails. */
  lemma {:induction false} ProcessBinsErrorPersists(x: seq<real>, y: seq<real>, bins: seq<real>, n: nat, n': nat,
                                                    step: seq<real> -> Result<seq<Mark>, Error>)
    requires |x| == |y| && n <= n' && (n' == 0 || n' < |bins|) && IsBinStep(step)
    requires ProcessBins(x, y, bins, n, step).Err?
    ensures ProcessBins(x, y, bins, n', step).Err?
  {
    if n < n' {
      ProcessBinsErrorPersists(x, y, bins, n, n' - 1, step);
    }
  }

  /** An entry whose `x` lies in none of the processed bins keeps NaN. */
  lemma {:induction false} ProcessBinsOutside(x: seq<real>, y: seq<real>, bins: seq<real>, n: nat, j: nat,
                                              step: seq<real> -> Result<seq<Mark>, Error>)
    requires |x| == |y| && (n == 0 || n < |bins|) && IsBinStep(step) && j < |y|
    requires ProcessBins(x, y, bins, n, step).Ok?
    requires forall i :: 0 <= i < n ==> !(bins[i] <= x[j] < bins[i + 1])
    ensures ProcessBins(x, y, bins, n, step).value[j] == NaN
  {
    if n > 0 {
      ProcessBinsOutside(x, y, bins, n - 1, j, step);
      var m := BinMask(x, bins, n - 1);
      ScatterAt(ProcessBins(x, y, bins, n - 1, step).value, m, step(Select(y, m)).value, j);
    }
  }

  /** An entry whose `x` lies in bin i, and in no later processed bin, holds
      the mark of its position within bin i. */
  lemma {:induction false} ProcessBinsInBin(x: seq<real>, y: seq<real>, bins: seq<real>, n: nat, i: nat, j: nat,
                                            step: seq<real> -> Result<seq<Mark>, Error>)
    requires |x| == |y| && n < |bins| && IsBinStep(step) && i < n && j < |y|
    requires ProcessBins(x, y, bins, n, step).Ok?
    requires bins[i] <= x[j] < bins[i + 1]
    requires forall i' :: i < i' < n ==> !(bins[i'] <= x[j] < bins[i' + 1])
    ensures var m := BinMask(x, bins, i);
      && step(Select(y, m)).Ok?
      && Count(m[..j]) < |step(Select(y, m)).value|
      && ProcessBins(x, y, bins, n, step).value[j] == step(Select(y, m)).value[Count(m[..j])]
  {
    var m := BinMask(x, bins, n - 1);
    ScatterAt(ProcessBins(x, y, bins, n - 1, step).value, m, step(Select(y, m)).value, j);
    if i < n - 1 {
      ProcessBinsInBin(x, y, bins, n - 1, i, j, step);
    }
  }

  /** When the edges are in ascending order the bins are disjoint, and the
      marks read back through the mask of any processed bin are exactly the
      step's marks for that bin. */
  lemma ProcessBinsSortedEdges(x: seq<real>, y: seq<real>, bins: seq<real>, n: nat, i: nat,
                               step: seq<real> -> Result<seq<Mark>, Error>)
    requires |x| == |y| && n < |bins| && IsBinStep(step) && i < n
    requires forall a, b :: 0 <= a < b < |bins| ==> bins[a] <= bins[b]
    requires ProcessBins(x, y, bins, n, step).Ok?
    ensures var m := BinMask(x, bins, i);
      && step(Select(y, m)).Ok?
      && Select(ProcessBins(x, y, bins, n, step).value, m) == step(Select(y, m)).value
  {
    var m := BinMask(x, bins, i);
    var marks := ProcessBins(x, y, bins, n, step).value;
    ProcessBinsOutcome(x, y, bins, n, step);
    assert Count(m) > 0;
    var vals := step(Select(y, m)).value;
    forall j | 0 <= j < |m| && m[j]
      ensures Count(m[..j]) < |vals| && marks[j] == vals[Count(m[..j])]
    {
      assert x[j] < bins[i + 1];
      assert forall i' :: i < i' < n ==> bins[i + 1] <= bins[i'];
      ProcessBinsInBin(x, y, bins, n, i, j, step);
    }
    SelectOfAgreeing(marks, m, vals);
  }

  /** One pass of the loop body of `normalised_marks` over the bin
      [bins[i], bins[i+1]): select the bin's y values through the mask,
      compute their marks and write them back through the mask. It fails
      with an IndexError when the mask and `y` differ in length, and with
      the ValueError of an empty bin, in which case processing all |bins|-1
      bins fails as well; otherwise the marks are those of ProcessBins
      after bin i. */
  method MarkBin(argsort: ArgSorter, marks: array<Mark>, x: seq<real>, y: seq<real>, bins: seq<real>, i: nat)
    returns (failed: Option<Error>)
    requires i + 1 < |bins| && marks.Length == |y| && IsBinStep(BinStep(argsort))
    requires |x| == |y| ==> ProcessBins(x, y, bins, i, BinStep(argsort)) == Ok(marks[..])
    modifies marks
    ensures failed == Some(IndexError) <==> |x| != |y|
    ensures failed.Some? && |x| == |y| ==>
      failed == Some(ValueError) && ProcessBins(x, y, bins, |bins| - 1, BinStep(argsort)) == Err(ValueError)
    ensures failed.None? ==> ProcessBins(x, y, bins, i + 1, BinStep(argsort)) == Ok(marks[..])
  {
    var m := Mask(x, bins[i], bins[i + 1]);
    if |m| != |y| {
      // `y[m]` with a mask of the wrong length
      return Some(IndexError);
    }
    assert m == BinMask(x, bins, i);
    var binMarks := BinMarks(argsort, Select(y, m));
    if binMarks.Err? {
      EmptyBinFails(x, y, bins, i, |bins| - 1, BinStep(argsort));
      return Some(ValueError);
    }
    ghost var prev := marks[..];
    AssignMasked(marks, m, binMarks.value);
    BinOverwrites(x, y, bins, i, prev, binMarks.value, BinStep(argsort));
    return None;
  }

  /** A failing bin makes every later stage of ProcessBins fail with the
      ValueError of an empty bin. */
  lemma {:induction false} EmptyBinFails(x: seq<real>, y: seq<real>, bins: seq<real>, i: nat, n: nat,
                                         step: seq<real> -> Result<seq<Mark>, Error>)
    requires |x| == |y| && i < n < |bins| && IsBinStep(step)
    requires step(Select(y, BinMask(x, bins, i))).Err?
    ensures ProcessBins(x, y, bins, n, step) == Err(ValueError)
  {
    if n == i + 1 {
      var prev := ProcessBins(x, y, bins, i, step);
      if prev.Ok? {
        assert ProcessBins(x, y, bins, n, step) == step(Select(y, BinMask(x, bins, i)));
      } else {
        ProcessBinsErrorIsValueError(x, y, bins, i, step);
      }
    } else {
      EmptyBinFails(x, y, bins, i, n - 1, step);
    }
  }

  /** A succeeding bin overwrites what its mask selects with its marks. */
  lemma BinOverwrites(x: seq<real>, y: seq<real>, bins: seq<real>, i: nat, prev: seq<Mark>, vals: seq<Mark>,
                      step: seq<real> -> Result<seq<Mark>, Error>)
    requires |x| == |y| && i + 1 < |bins| && IsBinStep(step)
    requires ProcessBins(x, y, bins, i, step) == Ok(prev)
    requires step(Select(y, BinMask(x, bins, i))) == Ok(vals)
    ensures ProcessBins(x, y, bins, i + 1, step) == Ok(Scatter(prev, BinMask(x, bins, i), vals))
  {
  }

  /** `normalised_marks(x, y, bins)` as written. The loop runs `bins.size`
      times and reads `bins[i + 1]`, so its last iteration reads past the end
      of `bins`: only an empty `bins` returns (all NaN); otherwise the call
      ends in a ValueError if one of the first |bins|-1 bins is empty, and in
      an IndexError if not. */
  method NormalisedMarks(argsort: ArgSorter, x: seq<real>, y: seq<real>, yType: DType, bins: seq<real>)
    returns (res: Result<seq<Mark>, Error>)
    ensures yType == NonFloating ==> res == Err(NotImplementedError)
    ensures yType == Floating && |bins| == 0 ==> res == Ok(AllNaN(|y|))
    ensures yType == Floating && |bins| > 0 ==> res == Err(ValueError) || res == Err(IndexError)
    ensures yType == Floating && |bins| > 0 ==>
      (res == Err(ValueError) <==> |x| == |y| && ProcessBins(x, y, bins, |bins| - 1, BinStep(argsort)).Err?)
  {
    if yType != Floating {
      return Err(NotImplementedError);
    }
    var marks := new Mark[|y|](_ => NaN);
    assert marks[..] == AllNaN(|y|);
    BinStepIsBinStep(argsort);
    for i := 0 to |bins|
      invariant |bins| == 0 || i < |bins|
      invariant i > 0 ==> |x| == |y|
      invariant |x| == |y| ==>
        ProcessBins(x, y, bins, i, BinStep(argsort)) == Ok(marks[..])
      invariant i == 0 ==> marks[..] == AllNaN(|y|)
    {
      if i + 1 >= |bins| {
        // `bins[i + 1]` is past the end
        assert |x| == |y| ==> ProcessBins(x, y, bins, |bins| - 1, BinStep(argsort)).Ok?;
        return Err(IndexError);
      }
      var failed := MarkBin(argsort, marks, x, y, bins, i);
      if failed.Some? {
        return Err(failed.value);
      }
    }
    return Ok(marks[..]);
  }

  /** `normalised_marks` with the loop bound the routine evidently intends,
      `range(bins.size - 1)`: one iteration per bin [bins[i], bins[i+1]). It
      returns all NaN when there is no bin, fails with an IndexError when
      `x` and `y` differ in length and with a ValueError when a bin is empty,
      and otherwise returns the bin-by-bin marks of ProcessBins. */
  method NormalisedMarksFixed(argsort: ArgSorter, x: seq<real>, y: seq<real>, yType: DType, bins: seq<real>)
    returns (res: Result<seq<Mark>, Error>)
    ensures yType == NonFloating ==> res == Err(NotImplementedError)
    ensures yType == Floating && |bins| <= 1 ==> res == Ok(AllNaN(|y|))
    ensures yType == Floating && |bins| > 1 && |x| != |y| ==> res == Err(IndexError)
    ensures yType == Floating && |bins| > 1 && |x| == |y| ==>
      res == ProcessBins(x, y, bins, |bins| - 1, BinStep(argsort))
  {
    if yType != Floating {
      return Err(NotImplementedError);
    }
    var marks := new Mark[|y|](_ => NaN);
    assert marks[..] == AllNaN(|y|);
    BinStepIsBinStep(argsort);
    var nbins := if |bins| == 0 then 0 else |bins| - 1;
    for i := 0 to nbins
      invariant i > 0 ==> |x| == |y|
      invariant |x| == |y| ==>
        ProcessBins(x, y, bins, i, BinStep(argsort)) == Ok(marks[..])
      invariant i == 0 ==> marks[..] == AllNaN(|y|)
    {
      var failed := MarkBin(argsort, marks, x, y, bins, i);
      if failed.Some? {
        return Err(failed.value);
      }
    }
    return Ok(marks[..]);
  }
}
