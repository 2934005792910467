/**
 * Shared vocabulary of the model: optional values and results, the part of
 * IEEE-754 doubles the plotter can observe (a finite value or not-a-number),
 * small real-number helpers and the ASCII text helpers used by name matching.
 */
module Common {

  datatype Option<T> = None | Some(value: T)

  datatype Result<T, E> = Ok(value: T) | Err(error: E)

  /** A double as the plotter sees it. Infinities never reach the core:
      ingestion drops every non-finite value, and the only non-finite value
      produced later is the not-a-number of a guarded division. */
  datatype F64 = Fin(v: real) | NaN

  function Abs(r: real): (a: real)
    ensures a >= 0.0 && (a == r || a == -r)
  {
    if r < 0.0 then -r else r
  }

  function Min(a: real, b: real): (m: real)
    ensures m <= a && m <= b && (m == a || m == b)
  {
    if a <= b then a else b
  }

  function Max(a: real, b: real): (m: real)
    ensures m >= a && m >= b && (m == a || m == b)
  {
    if a >= b then a else b
  }

  /** `f64::clamp` / `f32::clamp`: the bounds must be ordered. */
  function Clamp(v: real, lo: real, hi: real): (r: real)
    requires lo <= hi
    ensures lo <= r <= hi
    ensures lo <= v <= hi ==> r == v
    ensures v < lo ==> r == lo
    ensures v > hi ==> r == hi
  {
    if v < lo then lo else if v > hi then hi else v
  }

  /** Arithmetic on doubles: not-a-number is absorbing. */
  function FAdd(a: F64, b: F64): (r: F64)
    ensures r.Fin? <==> a.Fin? && b.Fin?
  {
    if a.Fin? && b.Fin? then Fin(a.v + b.v) else NaN
  }

  function FSub(a: F64, b: F64): (r: F64)
    ensures r.Fin? <==> a.Fin? && b.Fin?
  {
    if a.Fin? && b.Fin? then Fin(a.v - b.v) else NaN
  }

  function FMul(a: F64, b: F64): (r: F64)
    ensures r.Fin? <==> a.Fin? && b.Fin?
  {
    if a.Fin? && b.Fin? then Fin(a.v * b.v) else NaN
  }

  /** The positions, in order, of the entries `keep` accepts. */
  function KeptIndices<T>(s: seq<T>, keep: T -> bool): (r: seq<nat>)
    ensures forall k :: 0 <= k < |r| ==> r[k] < |s| && keep(s[r[k]])
    ensures forall k, j :: 0 <= k < j < |r| ==> r[k] < r[j]
    ensures forall i :: 0 <= i < |s| && keep(s[i]) ==> i in r
  {
    if s == [] then []
    else KeptIndices(s[..|s| - 1], keep) + (if keep(s[|s| - 1]) then [|s| - 1] else [])
  }

  /** One more entry adds its position when it is kept. */
  lemma KeptSnoc<T>(s: seq<T>, keep: T -> bool)
    requires s != []
    ensures KeptIndices(s, keep) == KeptIndices(s[..|s| - 1], keep) + (if keep(s[|s| - 1]) then [|s| - 1] else [])
  {
  }

  /** Moving one element across the seam of a concatenation. */
  lemma AppendShift<T>(a: seq<T>, x: T, b: seq<T>)
    ensures (a + [x]) + b == a + ([x] + b)
  {
  }

  /** Sum of a sequence of reals, folded left to right as the program's loops do. */
  function Sum(s: seq<real>): real
  {
    if s == [] then 0.0 else Sum(s[..|s| - 1]) + s[|s| - 1]
  }

  /** Sum of doubles; a single not-a-number makes the sum not-a-number. */
  function FSum(s: seq<F64>): F64
  {
    if s == [] then Fin(0.0) else FAdd(FSum(s[..|s| - 1]), s[|s| - 1])
  }

  /** The finite values of `s`, in order (`iter().filter(is_finite)`). */
  function Finite(s: seq<F64>): seq<real>
  {
    if s == [] then [] else Finite(s[..|s| - 1]) + (if s[|s| - 1].Fin? then [s[|s| - 1].v] else [])
  }

  lemma {:induction false} FiniteMembers(s: seq<F64>)
    ensures |Finite(s)| <= |s|
    ensures forall v :: v in Finite(s) <==> Fin(v) in s
  {
    if s != [] {
      FiniteMembers(s[..|s| - 1]);
      assert s == s[..|s| - 1] + [s[|s| - 1]];
    }
  }

  lemma {:induction false} FiniteOfAllFinite(s: seq<real>)
    ensures Finite(seq(|s|, i requires 0 <= i < |s| => Fin(s[i]))) == s
  {
    if s != [] {
      var t := seq(|s|, i requires 0 <= i < |s| => Fin(s[i]));
      FiniteOfAllFinite(s[..|s| - 1]);
      assert t[..|t| - 1] == seq(|s| - 1, i requires 0 <= i < |s| - 1 => Fin(s[..|s| - 1][i]));
      assert s == s[..|s| - 1] + [s[|s| - 1]];
    }
  }

  lemma {:induction false} FSumFinite(s: seq<F64>)
    ensures FSum(s).Fin? <==> forall i :: 0 <= i < |s| ==> s[i].Fin?
  {
    if s != [] {
      FSumFinite(s[..|s| - 1]);
    }
  }

  // ---------------------------------------------------------------------
  // ASCII text helpers
  // ---------------------------------------------------------------------

  function LowerChar(c: char): (d: char)
    ensures 'A' <= c <= 'Z' ==> d as int == c as int + 32
    ensures !('A' <= c <= 'Z') ==> d == c
  {
    if 'A' <= c <= 'Z' then (c as int + 32) as char else c
  }

  /** ASCII lower-casing (`str::to_lowercase` restricted to ASCII letters). */
  function Lower(s: string): (r: string)
    ensures |r| == |s|
    ensures forall i :: 0 <= i < |s| ==> r[i] == LowerChar(s[i])
  {
    if s == [] then [] else [LowerChar(s[0])] + Lower(s[1..])
  }

  /** `sub` occurs in `s` starting at offset `k`. */
  predicate OccursAt(s: string, sub: string, k: int)
  {
    0 <= k && k + |sub| <= |s| && s[k..k + |sub|] == sub
  }

  /** `str::contains`, searching left to right from offset `k`. */
  function ContainsFrom(s: string, sub: string, k: nat): bool
    decreases |s| - k
  {
    if k + |sub| > |s| then false
    else s[k..k + |sub|] == sub || ContainsFrom(s, sub, k + 1)
  }

  predicate Contains(s: string, sub: string)
  {
    ContainsFrom(s, sub, 0)
  }

  /** The search finds exactly the offsets where `sub` occurs. */
  lemma {:induction false} ContainsFromMeans(s: string, sub: string, k: nat)
    decreases |s| - k
    ensures ContainsFrom(s, sub, k) <==> exists m :: k <= m && OccursAt(s, sub, m)
  {
    if k + |sub| <= |s| {
      ContainsFromMeans(s, sub, k + 1);
      if s[k..k + |sub|] == sub {
        assert OccursAt(s, sub, k);
      }
    }
  }

  /** Text before the first occurrence of `sep` (`split(sep).next()`), the whole
      string when `sep` does not occur. */
  function PrefixBefore(s: string, sep: string): (r: string)
    requires |sep| > 0
    decreases |s|
    ensures |r| <= |s| && r == s[..|r|]
    ensures |r| < |s| ==> |r| + |sep| <= |s| && s[|r|..|r| + |sep|] == sep
    ensures forall k :: 0 <= k < |r| ==> !OccursAt(s, sep, k)
  {
    if |s| < |sep| then s
    else if s[..|sep|] == sep then []
    else
      var r := PrefixBefore(s[1..], sep);
      PrefixBeforeCons(s, sep, r);
      [s[0]] + r
  }

  /** When `sep` does not start `s`, the text before it in `s` is the first
      character followed by the text before it in the rest. */
  lemma PrefixBeforeCons(s: string, sep: string, r: string)
    requires |sep| > 0 && |s| >= |sep| && s[..|sep|] != sep
    requires |r| <= |s| - 1 && r == s[1..][..|r|]
    requires |r| < |s| - 1 ==> |r| + |sep| <= |s| - 1 && s[1..][|r|..|r| + |sep|] == sep
    requires forall k :: 0 <= k < |r| ==> !OccursAt(s[1..], sep, k)
    ensures var p := [s[0]] + r; |p| <= |s| && p == s[..|p|]
    ensures var p := [s[0]] + r; |p| < |s| ==> |p| + |sep| <= |s| && s[|p|..|p| + |sep|] == sep
    ensures var p := [s[0]] + r; forall k :: 0 <= k < |p| ==> !OccursAt(s, sep, k)
  {
    var t := s[1..];
    forall k | 1 <= k < |r| + 1
      ensures !OccursAt(s, sep, k)
    {
      assert !OccursAt(t, sep, k - 1);
      if k + |sep| <= |s| {
        assert s[k..k + |sep|] == t[k - 1..k - 1 + |sep|];
      }
    }
    assert s[0..|sep|] == s[..|sep|];
    assert s[..|r| + 1] == [s[0]] + t[..|r|];
    if |r| < |t| {
      assert s[|r| + 1..|r| + 1 + |sep|] == t[|r|..|r| + |sep|];
    }
  }
}
