/**
 * Mine_Random and Mine_RandomPerm. The hardware generator is modelled as a
 * finite stream of raw samples held by a RandomSource object: each sample
 * is either 32 random bits or a failed read (the carry flag clear).
 */
module MineRandom {
  import opened MineDefs

  /** Failed hardware reads in one call of Mine_Random at which it gives up; an out-of-range read in between does not reset the count. */
  const MAX_FAILED_READS: int := 10

  datatype RawSample = Bits(value: nat) | Failure

  /** The status, value and remaining stream after one call of Mine_Random. */
  datatype Draw = Draw(status: MineError, output: int, rest: seq<RawSample>)

  /**
   * The largest raw value Mine_Random accepts for a given limit: the accepted
   * raw values 0..ub fill whole residue classes modulo limit, and no further
   * whole class would fit below 2^32.
   */
  function UpperBound(limit: int): (ub: int)
    requires 0 < limit <= UINT_MAX
    ensures limit - 1 <= ub <= UINT_MAX
    ensures (ub + 1) % limit == 0
    ensures UINT_MAX - ub < limit
  {
    var q, r := UINT_MAX / limit, UINT_MAX % limit;
    assert UINT_MAX == q * limit + r;
    assert q >= 1;
    if r != limit - 1 then
      assert UINT_MAX - r - 1 + 1 == q * limit;
      ModUnique(q * limit, limit, q, 0);
      MulMono(1, q, limit);
      UINT_MAX - r - 1
    else
      assert UINT_MAX + 1 == (q + 1) * limit;
      ModUnique((q + 1) * limit, limit, q + 1, 0);
      UINT_MAX
  }

  /** Division with remainder is unique. */
  lemma ModUnique(a: int, l: int, q: int, t: int)
    requires 0 < l && 0 <= t < l && a == q * l + t
    ensures a % l == t && a / l == q
  {
    var q', t' := a / l, a % l;
    assert a == q' * l + t';
    if q' < q {
      MulMono(q' + 1, q, l);
    } else if q < q' {
      MulMono(q + 1, q', l);
    }
  }

  /** The number of values v in [0, n) with v % limit == r. */
  function ResidueCount(n: nat, limit: int, r: int): nat
    requires limit > 0
  {
    if n == 0 then 0 else ResidueCount(n - 1, limit, r) + (if (n - 1) % limit == r then 1 else 0)
  }

  /** A run of j <= limit values starting at a multiple of limit holds residue r once if r < j. */
  lemma {:induction false} ResidueCountSegment(k: nat, n: nat, limit: int, r: int, j: nat)
    requires limit > 0 && 0 <= r < limit && j <= limit && n == k * limit
    ensures ResidueCount(n + j, limit, r) == ResidueCount(n, limit, r) + (if r < j then 1 else 0)
    decreases j
  {
    if j > 0 {
      ResidueCountSegment(k, n, limit, r, j - 1);
      ModUnique(n + j - 1, limit, k, j - 1);
    }
  }

  /** Each residue class has exactly k members among the first k*limit values. */
  lemma {:induction false} ResidueCountWhole(k: nat, limit: int, r: int)
    requires limit > 0 && 0 <= r < limit
    ensures ResidueCount(k * limit, limit, r) == k
    decreases k
  {
    if k > 0 {
      var n := (k - 1) * limit;
      assert n + limit == k * limit;
      ResidueCountWhole(k - 1, limit, r);
      ResidueCountSegment(k - 1, n, limit, r, limit);
    }
  }

  /** Every output value 0..limit-1 comes from the same number of accepted raw values. */
  lemma AcceptedValuesUniform(limit: int, r: int)
    requires 0 < limit <= UINT_MAX && 0 <= r < limit
    ensures ResidueCount(UpperBound(limit) + 1, limit, r) == (UpperBound(limit) + 1) / limit
  {
    var ub := UpperBound(limit);
    var k := (ub + 1) / limit;
    assert ub + 1 == k * limit;
    ResidueCountWhole(k, limit, r);
  }

  /**
   * Reading hardware samples: out-of-range values are re-read, and the
   * MAX_FAILED_READS-th failed read ends the call with an error. A stream
   * that runs dry also ends it with an error; the hardware loop has no such
   * path, and a stream that runs dry stands for a run that needs more reads.
   */
  function DrawFrom(samples: seq<RawSample>, ub: int, limit: int, failures: int): (d: Draw)
    requires 0 < limit && 0 <= failures < MAX_FAILED_READS
    ensures |d.rest| < |samples| || (samples == [] && d.rest == [])
    ensures d.status == Success ==> 0 <= d.output < limit
    ensures d.status != Success ==> d.status == ErrRandNumber && d.output == 0
    decreases |samples|
  {
    if |samples| == 0 then Draw(ErrRandNumber, 0, [])
    else match samples[0]
      case Failure =>
        if failures + 1 >= MAX_FAILED_READS then Draw(ErrRandNumber, 0, samples[1..])
        else DrawFrom(samples[1..], ub, limit, failures + 1)
      case Bits(v) =>
        if v > ub then DrawFrom(samples[1..], ub, limit, failures)
        else Draw(Success, v % limit, samples[1..])
  }

  /** Mine_Random(limit) on a sample stream. */
  function RandomDraw(samples: seq<RawSample>, limit: int): (d: Draw)
    requires 0 <= limit <= UINT_MAX
    ensures limit == 0 ==> d == Draw(ErrParameter, 0, samples)
    ensures d.status == Success ==> 0 <= d.output < limit && |d.rest| < |samples|
    ensures d.status != Success ==> d.output == 0 && |d.rest| <= |samples|
    ensures limit > 0 ==> d.status == Success || d.status == ErrRandNumber
  {
    if limit == 0 then Draw(ErrParameter, 0, samples)
    else DrawFrom(samples, UpperBound(limit), limit, 0)
  }

  /** An accepted sample yields its residue; a first sample that is accepted is the only one consumed. */
  lemma RandomDrawAccepted(samples: seq<RawSample>, limit: int)
    requires 0 < limit <= UINT_MAX && |samples| > 0 && samples[0].Bits? && samples[0].value <= UpperBound(limit)
    ensures RandomDraw(samples, limit) == Draw(Success, samples[0].value % limit, samples[1..])
  {
  }

  /** The Knuth shuffle of Mine_RandomPerm from position ix on. */
  function Shuffle(samples: seq<RawSample>, a: seq<int>, ix: nat, numPerm: nat): (r: (MineError, seq<int>, seq<RawSample>))
    requires ix <= numPerm <= |a| <= UINT_MAX
    ensures |r.1| == |a|
    ensures r.0 == Success || r.0 == ErrRandNumber
    decreases numPerm - ix
  {
    if ix == numPerm then (Success, a, samples)
    else
      var d := RandomDraw(samples, |a| - ix);
      if d.status != Success then (d.status, a, d.rest)
      else
        var j := |a| - 1 - d.output;
        var a' := a[ix := a[j]][j := a[ix]];
        Shuffle(d.rest, a', ix + 1, numPerm)
  }

  /** One step of the shuffle: draw, then swap or stop. */
  lemma ShuffleUnfold(samples: seq<RawSample>, a: seq<int>, ix: nat, numPerm: nat)
    requires ix < numPerm <= |a| <= UINT_MAX
    ensures var d := RandomDraw(samples, |a| - ix); var j := |a| - 1 - d.output;
      Shuffle(samples, a, ix, numPerm) ==
        if d.status != Success then (d.status, a, d.rest)
        else Shuffle(d.rest, a[ix := a[j]][j := a[ix]], ix + 1, numPerm)
  {
  }

  /** The shuffle step after a successful draw of output from the stream. */
  lemma ShuffleDrawn(samples: seq<RawSample>, a: seq<int>, ix: nat, numPerm: nat, output: int, rest: seq<RawSample>)
    requires ix < numPerm <= |a| <= UINT_MAX
    requires RandomDraw(samples, |a| - ix) == Draw(Success, output, rest)
    ensures 0 <= output < |a| - ix
    ensures Shuffle(samples, a, ix, numPerm)
      == Shuffle(rest, a[ix := a[|a| - 1 - output]][|a| - 1 - output := a[ix]], ix + 1, numPerm)
  {
    ShuffleUnfold(samples, a, ix, numPerm);
  }

  lemma SwapIsPermutation(a: seq<int>, i: int, j: int)
    requires 0 <= i < |a| && 0 <= j < |a|
    ensures multiset(a[i := a[j]][j := a[i]]) == multiset(a)
  {
  }

  /** The shuffle only rearranges the elements. */
  lemma {:induction false} ShufflePermutes(samples: seq<RawSample>, a: seq<int>, ix: nat, numPerm: nat)
    requires ix <= numPerm <= |a| <= UINT_MAX
    ensures multiset(Shuffle(samples, a, ix, numPerm).1) == multiset(a)
    decreases numPerm - ix
  {
    if ix < numPerm {
      ShuffleUnfold(samples, a, ix, numPerm);
      var d := RandomDraw(samples, |a| - ix);
      if d.status == Success {
        var j := |a| - 1 - d.output;
        SwapIsPermutation(a, ix, j);
        ShufflePermutes(d.rest, a[ix := a[j]][j := a[ix]], ix + 1, numPerm);
      }
    }
  }

  /** The shuffle never touches the positions it has already fixed. */
  lemma {:induction false} ShuffleKeepsPrefix(samples: seq<RawSample>, a: seq<int>, ix: nat, numPerm: nat)
    requires ix <= numPerm <= |a| <= UINT_MAX
    ensures Shuffle(samples, a, ix, numPerm).1[..ix] == a[..ix]
    decreases numPerm - ix
  {
    if ix < numPerm {
      ShuffleUnfold(samples, a, ix, numPerm);
      var d := RandomDraw(samples, |a| - ix);
      if d.status == Success {
        var j := |a| - 1 - d.output;
        var a' := a[ix := a[j]][j := a[ix]];
        ShuffleKeepsPrefix(d.rest, a', ix + 1, numPerm);
        var r := Shuffle(d.rest, a', ix + 1, numPerm).1;
        assert r[..ix] == r[..ix + 1][..ix];
        assert a'[..ix] == a[..ix];
      }
    }
  }

  /** The entry a[j] (j in [ix, |a|)) swapped into position ix is taken from a[ix..], and the rest of the shuffle leaves it there. */
  lemma SwappedStays(rest: seq<RawSample>, a: seq<int>, ix: nat, numPerm: nat, j: int)
    requires ix < numPerm <= |a| <= UINT_MAX && ix <= j < |a|
    ensures Shuffle(rest, a[ix := a[j]][j := a[ix]], ix + 1, numPerm).1[ix] == a[j]
    ensures a[j] in multiset(a[ix..])
  {
    var a' := a[ix := a[j]][j := a[ix]];
    ShuffleKeepsPrefix(rest, a', ix + 1, numPerm);
    SwappedInto(Shuffle(rest, a', ix + 1, numPerm).1, a, ix, j);
  }

  /** A sequence that agrees with a swapped up to ix holds, at ix, the value swapped in from j, which lies in a[ix..]. */
  lemma SwappedInto(r: seq<int>, a: seq<int>, ix: int, j: int)
    requires 0 <= ix <= j < |a| && ix < |r|
    requires r[..ix + 1] == a[ix := a[j]][j := a[ix]][..ix + 1]
    ensures r[ix] == a[j] && r[ix] in multiset(a[ix..])
  {
    assert r[ix] == r[..ix + 1][ix];
    assert a[j] == a[ix..][j - ix];
  }

  /** 0, 1, ..., n-1. */
  function Identity(n: nat): (r: seq<int>)
    ensures |r| == n && forall i :: 0 <= i < n ==> r[i] == i
  {
    seq(n, i => i)
  }

  /** A fresh array holding 0, 1, ..., n-1, as the initialisation loops before each shuffle fill them. */
  method IdentityArray(n: nat) returns (a: array<int>)
    ensures fresh(a) && a[..] == Identity(n)
  {
    a := new int[n];
    for ix := 0 to n
      invariant forall k :: 0 <= k < ix ==> a[k] == k
    {
      a[ix] := ix;
    }
  }

  /** Every value 0..n-1 occurs exactly once in 0..n-1. */
  lemma {:induction false} IdentityOnce(n: nat, v: int)
    requires 0 <= v < n
    ensures multiset(Identity(n))[v] == 1
  {
    assert Identity(n) == Identity(n - 1) + [n - 1];
    if v < n - 1 {
      IdentityOnce(n - 1, v);
    } else {
      assert v !in Identity(n - 1);
    }
  }

  /** A permutation of 0..n-1 holds no value twice. */
  lemma PermutationDistinct(r: seq<int>, n: nat)
    requires multiset(r) == multiset(Identity(n))
    ensures forall i, j :: 0 <= i < j < |r| ==> r[i] != r[j]
  {
    PermutationOfIdentity(r, n);
    forall i, j | 0 <= i < j < |r|
      ensures r[i] != r[j]
    {
      if r[i] == r[j] {
        IdentityOnce(n, r[i]);
        CountedTwice(r, i, j);
        assert false;
      }
    }
  }

  /** A value at two positions occurs at least twice. */
  lemma CountedTwice(r: seq<int>, i: nat, j: nat)
    requires i < j < |r| && r[i] == r[j]
    ensures multiset(r)[r[i]] >= 2
  {
    assert r == r[..j] + [r[j]] + r[j + 1..];
    assert r[i] in r[..j];
  }

  /** A permutation of 0..n-1 contains only values 0..n-1. */
  lemma PermutationOfIdentity(r: seq<int>, n: nat)
    requires multiset(r) == multiset(Identity(n))
    ensures |r| == n
    ensures forall i :: 0 <= i < |r| ==> 0 <= r[i] < n
  {
    assert |r| == |multiset(r)| == |multiset(Identity(n))| == n;
    forall i | 0 <= i < |r|
      ensures 0 <= r[i] < n
    {
      assert r[i] in multiset(r);
      assert r[i] in Identity(n);
    }
  }

  /** The hardware generator: the raw samples it will still deliver. */
  class RandomSource {
    var samples: seq<RawSample>

    constructor (s: seq<RawSample>)
      ensures samples == s
    {
      samples := s;
    }

    /** Mine_Random: a uniform value in 0..limit-1. */
    method Random(limit: int) returns (status: MineError, output: int)
      requires 0 <= limit <= UINT_MAX
      modifies this
      ensures Draw(status, output, samples) == RandomDraw(old(samples), limit)
    {
      output := 0;
      if limit == 0 {
        status := ErrParameter;
        return;
      }
      var ub := UpperBound(limit);
      var failures := 0;
      while true
        invariant 0 <= failures < MAX_FAILED_READS
        invariant DrawFrom(samples, ub, limit, failures) == RandomDraw(old(samples), limit)
        decreases |samples|
      {
        if |samples| == 0 {
          status := ErrRandNumber;
          return;
        }
        var sample := samples[0];
        samples := samples[1..];
        match sample
        case Failure =>
          failures := failures + 1;
          if failures >= MAX_FAILED_READS {
            status := ErrRandNumber;
            return;
          }
        case Bits(v) =>
          if v <= ub {
            status := Success;
            output := v % limit;
            return;
          }
      }
    }
  }

  /** One pass of the Mine_RandomPerm loop: draw a value, then swap position ix with the drawn one or stop. */
  method SwapStep(rng: RandomSource, a: array<int>, ix: int, numPerm: int) returns (status: MineError)
    requires 0 <= ix < numPerm <= a.Length <= UINT_MAX
    modifies rng, a
    ensures status != Success ==> a[..] == old(a[..])
    ensures status != Success ==> Shuffle(old(rng.samples), old(a[..]), ix, numPerm) == (status, a[..], rng.samples)
    ensures status == Success ==> Shuffle(old(rng.samples), old(a[..]), ix, numPerm) == Shuffle(rng.samples, a[..], ix + 1, numPerm)
  {
    ghost var samples, before := rng.samples, a[..];
    var rand;
    status, rand := rng.Random(a.Length - ix);
    if status == Success {
      var j := a.Length - 1 - rand;
      ShuffleDrawn(samples, before, ix, numPerm, rand, rng.samples);
      a[ix], a[j] := a[j], a[ix];
      assert a[..] == before[ix := before[j]][j := before[ix]];
    } else {
      ShuffleUnfold(samples, before, ix, numPerm);
    }
  }

  /**
   * Mine_RandomPerm: fix the first numPerm positions of a Knuth shuffle of a.
   * numPerm larger than the array is a parameter error.
   */
  method RandomPerm(rng: RandomSource, a: array<int>, numPerm: int) returns (status: MineError)
    requires a.Length <= UINT_MAX && 0 <= numPerm
    modifies rng, a
    ensures numPerm > a.Length ==> status == ErrParameter && a[..] == old(a[..]) && rng.samples == old(rng.samples)
    ensures numPerm <= a.Length ==>
      var r := Shuffle(old(rng.samples), old(a[..]), 0, numPerm);
      status == r.0 && a[..] == r.1 && rng.samples == r.2
  {
    if numPerm > a.Length {
      return ErrParameter;
    }
    ghost var target := Shuffle(old(rng.samples), old(a[..]), 0, numPerm);
    status := Success;
    var ix := 0;
    while ix < numPerm
      invariant 0 <= ix <= numPerm
      invariant Shuffle(rng.samples, a[..], ix, numPerm) == target
      invariant status == Success
    {
      status := SwapStep(rng, a, ix, numPerm);
      if status != Success {
        return;
      }
      ix := ix + 1;
    }
  }
}
