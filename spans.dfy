/**
 * The running minimum/maximum that the plotter folds over data again and
 * again (fit to data, y range of a unit, per-unit normalisation ranges,
 * 3D bounds, statistics). The program starts such a fold at
 * `(f64::INFINITY, f64::NEG_INFINITY)` and applies `min`/`max` per value;
 * `Empty` stands for that untouched start.
 */
module Spans {
  import opened Common

  datatype Span = Empty | Span(lo: real, hi: real)

  /** One `lo = lo.min(v); hi = hi.max(v)` step. */
  function Include(a: Span, v: real): (r: Span)
    ensures r.Span? && r.lo <= v <= r.hi
    ensures a.Span? ==> r.lo <= a.lo && a.hi <= r.hi
    ensures r.lo == v || (a.Span? && r.lo == a.lo)
    ensures r.hi == v || (a.Span? && r.hi == a.hi)
  {
    match a
    case Empty => Span(v, v)
    case Span(lo, hi) => Span(Min(lo, v), Max(hi, v))
  }

  /** The fold of `Include` over `s`, left to right. */
  function Extend(a: Span, s: seq<real>): Span
  {
    if s == [] then a else Include(Extend(a, s[..|s| - 1]), s[|s| - 1])
  }

  function SpanOf(s: seq<real>): Span
  {
    Extend(Empty, s)
  }

  /** `v` lies inside the span. */
  predicate Covers(a: Span, v: real)
  {
    a.Span? && a.lo <= v <= a.hi
  }

  /** What a fold computes: it is empty exactly when nothing was seen, it
      covers the start and every value, and its bounds are attained. */
  lemma {:induction false} ExtendBounds(a: Span, s: seq<real>)
    ensures Extend(a, s).Empty? <==> a.Empty? && s == []
    ensures a.Span? ==> a.lo <= a.hi ==> Extend(a, s).lo <= Extend(a, s).hi
    ensures a.Span? ==> Extend(a, s).lo <= a.lo && a.hi <= Extend(a, s).hi
    ensures forall v :: v in s ==> Covers(Extend(a, s), v)
    ensures Extend(a, s).Span? ==>
      (Extend(a, s).lo in s || (a.Span? && Extend(a, s).lo == a.lo)) &&
      (Extend(a, s).hi in s || (a.Span? && Extend(a, s).hi == a.hi))
  {
    if s != [] {
      var init := s[..|s| - 1];
      ExtendBounds(a, init);
      assert s == init + [s[|s| - 1]];
      forall v | v in s
        ensures Covers(Extend(a, s), v)
      {
        if v in init {
          assert Covers(Extend(a, init), v);
        }
      }
    }
  }

  /** The span of a non-empty sequence is its minimum and maximum. */
  lemma SpanOfIsMinMax(s: seq<real>)
    ensures SpanOf(s).Empty? <==> s == []
    ensures s != [] ==> SpanOf(s).lo in s && SpanOf(s).hi in s && SpanOf(s).lo <= SpanOf(s).hi
    ensures forall v :: v in s ==> SpanOf(s).lo <= v <= SpanOf(s).hi
  {
    ExtendBounds(Empty, s);
    if s != [] {
      assert SpanOf(s).lo in s && SpanOf(s).hi in s;
      assert Covers(SpanOf(s), SpanOf(s).lo);
    }
  }

  /** Folding two pieces in turn is folding their concatenation. */
  lemma {:induction false} ExtendAppend(a: Span, s: seq<real>, t: seq<real>)
    ensures Extend(a, s + t) == Extend(Extend(a, s), t)
  {
    if t == [] {
      assert s + t == s;
    } else {
      ExtendAppend(a, s, t[..|t| - 1]);
      assert (s + t)[..|s + t| - 1] == s + t[..|t| - 1];
    }
  }

  /** The fold as the program writes it: a loop over the values. */
  method AccumulateSpan(a: Span, vals: seq<real>) returns (r: Span)
    ensures r == Extend(a, vals)
  {
    r := a;
    for i := 0 to |vals|
      invariant r == Extend(a, vals[..i])
    {
      assert vals[..i + 1][..i] == vals[..i];
      r := Include(r, vals[i]);
    }
    assert vals[..|vals|] == vals;
  }
}
