/** Audio samples as the pipeline sees them: a number, or the not-a-number value that the rings filter out. */
module Samples {

  datatype Sample = NaN | Val(v: real)

  const ZERO: Sample := Val(0.0)

  /** What both ends of a ring do to a sample. */
  function Clean(s: Sample): Sample {
    if s.NaN? then ZERO else s
  }

  function CleanAll(xs: seq<Sample>): (r: seq<Sample>)
    ensures |r| == |xs|
    ensures forall i :: 0 <= i < |xs| ==> r[i] == Clean(xs[i])
    ensures AllClean(r)
  {
    seq(|xs|, i requires 0 <= i < |xs| => Clean(xs[i]))
  }

  predicate AllClean(xs: seq<Sample>) {
    forall i :: 0 <= i < |xs| ==> xs[i].Val?
  }

  function Silence(n: nat): (r: seq<Sample>)
    ensures |r| == n
    ensures forall i :: 0 <= i < n ==> r[i] == ZERO
  {
    seq(n, _ => ZERO)
  }

  lemma CleanIsIdempotent(xs: seq<Sample>)
    requires AllClean(xs)
    ensures CleanAll(xs) == xs
  {
  }

  lemma CleanAllAppend(xs: seq<Sample>, ys: seq<Sample>)
    ensures CleanAll(xs + ys) == CleanAll(xs) + CleanAll(ys)
  {
  }

  lemma DropOfAppend(xs: seq<Sample>, ys: seq<Sample>, k: nat)
    requires k <= |xs|
    ensures (xs + ys)[k..] == xs[k..] + ys
  {
  }

  lemma SliceOfDrop(xs: seq<Sample>, k: nat, n: nat)
    requires k + n <= |xs|
    ensures xs[k..][..n] == xs[k..k + n] && xs[k..][n..] == xs[k + n..]
  {
  }

  lemma TakeOneMore(xs: seq<Sample>, k: nat)
    requires k < |xs|
    ensures xs[..k] + [xs[k]] == xs[..k + 1]
  {
  }

  lemma SliceOfWindow(xs: seq<Sample>, end: nat, start: nat, skip: nat, n: nat)
    requires start + skip + n <= end <= |xs|
    ensures xs[..end][start..][skip..skip + n] == xs[start + skip..start + skip + n]
  {
    var window := xs[..end][start..];
    assert forall i :: 0 <= i < |window| ==> window[i] == xs[start + i];
  }
}
