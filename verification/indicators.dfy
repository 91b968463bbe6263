/**
 * The candle record shared by the history route and the dashboard, and
 * `extractCloses`: the close-price series the indicator library is fed.
 * The four `calculate*` wrappers are calls into an indicator library that is not
 * part of this model; they appear as function-typed parameters in module Chart.
 */
module Indicators {

  import opened Options

  /** One price bar; every field may be null. */
  datatype Candle = Candle(
    date: Option<string>,
    open: Option<real>,
    high: Option<real>,
    low: Option<real>,
    close: Option<real>,
    volume: Option<real>)

  /** The `.map` step of `extractCloses`: each candle's close, or null. */
  function ClosesOrNull(candles: seq<Candle>): (r: seq<Option<real>>)
    ensures |r| == |candles|
  {
    seq(|candles|, i requires 0 <= i < |candles| => candles[i].close)
  }

  /** The `.filter((v) => v !== null)` step: the present values, in order. */
  function DropNulls<T>(xs: seq<Option<T>>): (r: seq<T>)
    ensures |r| <= |xs|
  {
    if xs == [] then []
    else
      var last := xs[|xs| - 1];
      DropNulls(xs[..|xs| - 1]) + (if last.Some? then [last.value] else [])
  }

  /** `extractCloses(candles)` */
  function ExtractCloses(candles: seq<Candle>): (r: seq<real>)
    ensures |r| <= |candles|
  {
    DropNulls(ClosesOrNull(candles))
  }

  /** The positions of the present values, in increasing order. */
  function PresentIndices<T>(xs: seq<Option<T>>): (idx: seq<nat>)
    ensures forall k :: 0 <= k < |idx| ==> idx[k] < |xs|
    ensures |idx| == |DropNulls(xs)|
  {
    if xs == [] then []
    else
      var rest := PresentIndices(xs[..|xs| - 1]);
      if xs[|xs| - 1].Some? then rest + [|xs| - 1] else rest
  }

  predicate StrictlyIncreasing(idx: seq<nat>) {
    forall j, k :: 0 <= j < k < |idx| ==> idx[j] < idx[k]
  }

  /** The filter keeps exactly the present values, in their original order: the k-th
      output is the value at the k-th present position, the positions increase, and
      every present position is among them. */
  lemma {:induction false} DropNullsIsOrderedSubsequence<T>(xs: seq<Option<T>>)
    ensures var idx := PresentIndices(xs);
            && |DropNulls(xs)| == |idx|
            && StrictlyIncreasing(idx)
            && (forall k :: 0 <= k < |idx| ==> xs[idx[k]] == Some(DropNulls(xs)[k]))
            && (forall i :: 0 <= i < |xs| && xs[i].Some? ==> i in idx)
  {
    if xs != [] {
      var n := |xs| - 1;
      var front := xs[..n];
      DropNullsIsOrderedSubsequence(front);
      var idx := PresentIndices(xs);
      var r := DropNulls(xs);
      assert r[..|DropNulls(front)|] == DropNulls(front);
      forall k | 0 <= k < |idx|
        ensures xs[idx[k]] == Some(r[k])
      {
        if k < |PresentIndices(front)| {
          assert idx[k] == PresentIndices(front)[k];
          assert r[k] == DropNulls(front)[k];
          assert xs[idx[k]] == front[idx[k]];
        }
      }
      forall i | 0 <= i < |xs| && xs[i].Some?
        ensures i in idx
      {
        if i < n {
          assert front[i] == xs[i];
          assert i in PresentIndices(front);
        }
      }
    }
  }

  /** Every candle with a numeric close contributes it, and nothing else is added:
      the output is as long as the number of candles with a close. */
  lemma ExtractClosesIsOrderedSubsequence(candles: seq<Candle>)
    ensures var idx := PresentIndices(ClosesOrNull(candles));
            var r := ExtractCloses(candles);
            && |r| == |idx|
            && StrictlyIncreasing(idx)
            && (forall k :: 0 <= k < |idx| ==> candles[idx[k]].close == Some(r[k]))
            && (forall i :: 0 <= i < |candles| && candles[i].close.Some? ==> i in idx)
  {
    var xs := ClosesOrNull(candles);
    DropNullsIsOrderedSubsequence(xs);
    forall i | 0 <= i < |candles| && candles[i].close.Some?
      ensures i in PresentIndices(xs)
    {
      assert xs[i] == candles[i].close;
    }
  }

  lemma {:induction false} DropNullsAppend<T>(a: seq<Option<T>>, b: seq<Option<T>>)
    ensures DropNulls(a + b) == DropNulls(a) + DropNulls(b)
  {
    if b != [] {
      var n := |b| - 1;
      assert (a + b)[..|a + b| - 1] == a + b[..n];
      DropNullsAppend(a, b[..n]);
    } else {
      assert a + b == a;
    }
  }

  /** Extraction distributes over concatenation of candle sequences. */
  lemma ExtractClosesAppend(a: seq<Candle>, b: seq<Candle>)
    ensures ExtractCloses(a + b) == ExtractCloses(a) + ExtractCloses(b)
  {
    assert ClosesOrNull(a + b) == ClosesOrNull(a) + ClosesOrNull(b);
    DropNullsAppend(ClosesOrNull(a), ClosesOrNull(b));
  }

  /** A candle whose close is null contributes nothing: removing it leaves the series
      unchanged, so no placeholder is ever substituted. */
  lemma NullCloseContributesNothing(a: seq<Candle>, c: Candle, b: seq<Candle>)
    requires c.close.None?
    ensures ExtractCloses(a + [c] + b) == ExtractCloses(a + b)
  {
    ExtractClosesAppend(a + [c], b);
    ExtractClosesAppend(a, [c]);
    ExtractClosesAppend(a, b);
    assert ClosesOrNull([c]) == [None];
    assert DropNulls([c.close]) == [];
  }

  /** Appending a present value appends it to the filter's output. */
  lemma DropNullsSnoc<T>(xs: seq<Option<T>>, v: T)
    ensures DropNulls(xs + [Some(v)]) == DropNulls(xs) + [v]
  {
    DropNullsAppend(xs, [Some(v)]);
    assert DropNulls([Some(v)]) == DropNulls([]) + [v];
  }

  /** The number of null entries. */
  function NullCount<T>(xs: seq<Option<T>>): (c: nat)
    ensures c <= |xs|
  {
    if xs == [] then 0
    else NullCount(xs[..|xs| - 1]) + (if xs[|xs| - 1].None? then 1 else 0)
  }

  /** Every entry is either kept by the filter or counted as null. */
  lemma {:induction false} NullCountComplement<T>(xs: seq<Option<T>>)
    ensures NullCount(xs) + |DropNulls(xs)| == |xs|
  {
    if xs != [] {
      NullCountComplement(xs[..|xs| - 1]);
    }
  }

  lemma {:induction false} NullCountZero<T>(xs: seq<Option<T>>)
    ensures NullCount(xs) == 0 <==> forall i :: 0 <= i < |xs| ==> xs[i].Some?
  {
    if xs != [] {
      var front := xs[..|xs| - 1];
      NullCountZero(front);
      assert (forall i :: 0 <= i < |xs| ==> xs[i].Some?)
          <==> (forall i :: 0 <= i < |front| ==> front[i].Some?) && xs[|xs| - 1].Some?;
    }
  }

  /** The `j`-th present value sits at the position `j` plus the number of nulls before
      it, which is `j` plus all the nulls minus those after it. */
  lemma {:induction false} PresentPosition<T>(xs: seq<Option<T>>, j: nat)
    requires j < |PresentIndices(xs)|
    ensures var p := PresentIndices(xs)[j];
            p + NullCount(xs[p + 1..]) == j + NullCount(xs)
  {
    var n := |xs| - 1;
    var front := xs[..n];
    var p := PresentIndices(xs)[j];
    var ownNull := if xs[n].None? then 1 else 0;
    assert NullCount(xs) == NullCount(front) + ownNull;
    if j < |PresentIndices(front)| {
      assert p == PresentIndices(front)[j];
      PresentPosition(front, j);
      var after := xs[p + 1..];
      assert after[..|after| - 1] == front[p + 1..];
      assert after[|after| - 1] == xs[n];
      assert NullCount(after) == NullCount(front[p + 1..]) + ownNull;
    } else {
      assert xs[n].Some? && p == n;
      assert xs[p + 1..] == [];
      NullCountComplement(front);
    }
  }

  /** Close `j` of the series belongs to candle `p`, which lies `j` plus the number of
      null closes before it from the top: all the null closes but those after `p`. */
  lemma ClosePosition(candles: seq<Candle>, j: nat)
    requires j < |ExtractCloses(candles)|
    ensures var xs := ClosesOrNull(candles);
            var p := PresentIndices(xs)[j];
            && candles[p].close == Some(ExtractCloses(candles)[j])
            && p + NullCount(xs[p + 1..]) == j + |candles| - |ExtractCloses(candles)|
            && (NullCount(xs[p + 1..]) == 0 <==> forall i :: p < i < |candles| ==> candles[i].close.Some?)
  {
    var xs := ClosesOrNull(candles);
    var p := PresentIndices(xs)[j];
    DropNullsIsOrderedSubsequence(xs);
    assert xs[p] == candles[p].close;
    PresentPosition(xs, j);
    NullCountComplement(xs);
    var after := xs[p + 1..];
    NullCountZero(after);
    forall i | p < i < |candles|
      ensures after[i - p - 1] == candles[i].close
    {
      assert after[i - p - 1] == xs[i];
    }
    assert (forall i :: 0 <= i < |after| ==> after[i].Some?)
        <==> (forall i :: p < i < |candles| ==> candles[i].close.Some?) by {
      if forall i :: p < i < |candles| ==> candles[i].close.Some? {
        forall i | 0 <= i < |after|
          ensures after[i].Some?
        {
          assert after[i] == candles[i + p + 1].close;
        }
      }
    }
  }

  lemma {:induction false} DropNullsAllPresent<T>(xs: seq<Option<T>>)
    requires forall i :: 0 <= i < |xs| ==> xs[i].Some?
    ensures |DropNulls(xs)| == |xs|
    ensures forall i :: 0 <= i < |xs| ==> DropNulls(xs)[i] == xs[i].value
  {
    if xs != [] {
      DropNullsAllPresent(xs[..|xs| - 1]);
    }
  }

  /** When no close is null the series lines up with the candles one for one. */
  lemma ExtractClosesAllPresent(candles: seq<Candle>)
    requires forall i :: 0 <= i < |candles| ==> candles[i].close.Some?
    ensures |ExtractCloses(candles)| == |candles|
    ensures forall i :: 0 <= i < |candles| ==> ExtractCloses(candles)[i] == candles[i].close.value
  {
    DropNullsAllPresent(ClosesOrNull(candles));
  }

  lemma {:induction false} DropNullsNonePresent<T>(xs: seq<Option<T>>)
    requires forall i :: 0 <= i < |xs| ==> xs[i].None?
    ensures DropNulls(xs) == []
  {
    if xs != [] {
      DropNullsNonePresent(xs[..|xs| - 1]);
    }
  }

  /** Empty input, or input with no close at all, gives an empty series. */
  lemma ExtractClosesNonePresent(candles: seq<Candle>)
    requires forall i :: 0 <= i < |candles| ==> candles[i].close.None?
    ensures ExtractCloses(candles) == []
  {
    DropNullsNonePresent(ClosesOrNull(candles));
  }
}
