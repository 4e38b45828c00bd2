/** The reduction kernel: per plane position, the number of samples across
    the stack that are not NaN and their sum or mean. Workers accumulate
    privately over the images assigned to them; the accumulators are then
    folded into worker 0's in worker order. */
module StackMean {
  import opened StackShape

  /** One sample of the stack; `NaN` marks a missing value. */
  datatype Sample = NaN | Val(v: real)

  /** 1 for a sample that takes part in the reduction, 0 for NaN. */
  function Weight(x: Sample): nat
  {
    if x.NaN? then 0 else 1
  }

  /** What a sample adds to a sum: its value, or nothing for NaN. */
  function Contribution(x: Sample): real
  {
    if x.NaN? then 0.0 else x.v
  }

  /** Sample at position `j` of image `i`. */
  function SampleAt(s: seq<Sample>, nimages: nat, imsize: nat, i: nat, j: nat): Sample
    requires |s| == nimages * imsize && i < nimages && j < imsize
  {
    StackIndexBound(i, j, nimages, imsize);
    s[i * imsize + j]
  }

  /** Number of non-NaN samples at position `j` among images `[0, k)`. */
  function ValidCount(s: seq<Sample>, nimages: nat, imsize: nat, j: nat, k: nat): nat
    requires |s| == nimages * imsize && j < imsize && k <= nimages
  {
    if k == 0 then 0
    else ValidCount(s, nimages, imsize, j, k - 1) + Weight(SampleAt(s, nimages, imsize, k - 1, j))
  }

  /** Sum of the non-NaN samples at position `j` among images `[0, k)`. */
  function ValidSum(s: seq<Sample>, nimages: nat, imsize: nat, j: nat, k: nat): real
    requires |s| == nimages * imsize && j < imsize && k <= nimages
  {
    if k == 0 then 0.0
    else ValidSum(s, nimages, imsize, j, k - 1) + Contribution(SampleAt(s, nimages, imsize, k - 1, j))
  }

  /** Worker `w`'s private count at position `j` after images `[0, k)`:
      only images that `owner` assigns to `w` take part. */
  function WorkerCount(s: seq<Sample>, nimages: nat, imsize: nat, owner: seq<nat>, w: nat, j: nat, k: nat): nat
    requires |s| == nimages * imsize && |owner| == nimages && j < imsize && k <= nimages
  {
    if k == 0 then 0
    else WorkerCount(s, nimages, imsize, owner, w, j, k - 1)
         + (if owner[k - 1] == w then Weight(SampleAt(s, nimages, imsize, k - 1, j)) else 0)
  }

  /** Worker `w`'s private sum at position `j` after images `[0, k)`. */
  function WorkerSum(s: seq<Sample>, nimages: nat, imsize: nat, owner: seq<nat>, w: nat, j: nat, k: nat): real
    requires |s| == nimages * imsize && |owner| == nimages && j < imsize && k <= nimages
  {
    if k == 0 then 0.0
    else WorkerSum(s, nimages, imsize, owner, w, j, k - 1)
         + (if owner[k - 1] == w then Contribution(SampleAt(s, nimages, imsize, k - 1, j)) else 0.0)
  }

  /** Counts of workers `[0, t)` at position `j` after images `[0, k)`,
      added together. */
  function MergedCount(s: seq<Sample>, nimages: nat, imsize: nat, owner: seq<nat>, j: nat, k: nat, t: nat): nat
    requires |s| == nimages * imsize && |owner| == nimages && j < imsize && k <= nimages
  {
    if t == 0 then 0
    else MergedCount(s, nimages, imsize, owner, j, k, t - 1) + WorkerCount(s, nimages, imsize, owner, t - 1, j, k)
  }

  /** Sums of workers `[0, t)` at position `j` after images `[0, k)`, added
      together. */
  function MergedSum(s: seq<Sample>, nimages: nat, imsize: nat, owner: seq<nat>, j: nat, k: nat, t: nat): real
    requires |s| == nimages * imsize && |owner| == nimages && j < imsize && k <= nimages
  {
    if t == 0 then 0.0
    else MergedSum(s, nimages, imsize, owner, j, k, t - 1) + WorkerSum(s, nimages, imsize, owner, t - 1, j, k)
  }

  /** The value written to the mean output for one position: with `norm`
      the mean, or 0 when no sample was valid; without it the raw sum. */
  function PixelMean(sum: real, count: nat, norm: bool): real
  {
    if norm then (if count > 0 then sum / count as real else 0.0) else sum
  }

  /** `owner` assigns each of `nimages` images to one of `nworkers` workers. */
  predicate IsAssignment(owner: seq<nat>, nimages: nat, nworkers: nat)
  {
    |owner| == nimages && forall i :: 0 <= i < |owner| ==> owner[i] < nworkers
  }

  /** The count of valid samples never exceeds the number of images. */
  lemma {:induction false} ValidCountBound(s: seq<Sample>, nimages: nat, imsize: nat, j: nat, k: nat)
    requires |s| == nimages * imsize && j < imsize && k <= nimages
    ensures ValidCount(s, nimages, imsize, j, k) <= k
  {
    if k > 0 {
      ValidCountBound(s, nimages, imsize, j, k - 1);
    }
  }

  /** A position that is NaN in every image has no valid sample and a sum of
      0, so the normalised mean reports 0 rather than NaN. */
  lemma {:induction false} AllNaNPosition(s: seq<Sample>, nimages: nat, imsize: nat, j: nat, k: nat)
    requires |s| == nimages * imsize && j < imsize && k <= nimages
    requires forall i :: 0 <= i < k ==> SampleAt(s, nimages, imsize, i, j).NaN?
    ensures ValidCount(s, nimages, imsize, j, k) == 0
    ensures ValidSum(s, nimages, imsize, j, k) == 0.0
    ensures PixelMean(ValidSum(s, nimages, imsize, j, k), ValidCount(s, nimages, imsize, j, k), true) == 0.0
  {
    if k > 0 {
      AllNaNPosition(s, nimages, imsize, j, k - 1);
    }
  }

  /** Adding image `k` to every worker's accumulators adds its sample to the
      merged total exactly once when its worker is among `[0, t)`. */
  lemma {:induction false} MergedStep(s: seq<Sample>, nimages: nat, imsize: nat, owner: seq<nat>, j: nat, k: nat, t: nat)
    requires |s| == nimages * imsize && |owner| == nimages && j < imsize && k < nimages
    ensures MergedCount(s, nimages, imsize, owner, j, k + 1, t)
            == MergedCount(s, nimages, imsize, owner, j, k, t)
               + (if owner[k] < t then Weight(SampleAt(s, nimages, imsize, k, j)) else 0)
    ensures MergedSum(s, nimages, imsize, owner, j, k + 1, t)
            == MergedSum(s, nimages, imsize, owner, j, k, t)
               + (if owner[k] < t then Contribution(SampleAt(s, nimages, imsize, k, j)) else 0.0)
  {
    if t > 0 {
      MergedStep(s, nimages, imsize, owner, j, k, t - 1);
    }
  }

  /** Folding the workers' accumulators together gives the count and sum of
      one sequential pass over all images, whatever the assignment of images
      to workers. */
  lemma {:induction false} MergeIsSequential(s: seq<Sample>, nimages: nat, imsize: nat, owner: seq<nat>, nworkers: nat, j: nat, k: nat)
    requires |s| == nimages * imsize && j < imsize && k <= nimages
    requires IsAssignment(owner, nimages, nworkers)
    ensures MergedCount(s, nimages, imsize, owner, j, k, nworkers) == ValidCount(s, nimages, imsize, j, k)
    ensures MergedSum(s, nimages, imsize, owner, j, k, nworkers) == ValidSum(s, nimages, imsize, j, k)
  {
    if k == 0 {
      MergedZero(s, nimages, imsize, owner, j, nworkers);
    } else {
      MergeIsSequential(s, nimages, imsize, owner, nworkers, j, k - 1);
      MergedStep(s, nimages, imsize, owner, j, k - 1, nworkers);
    }
  }

  /** Before any image, every merged accumulator is zero. */
  lemma {:induction false} MergedZero(s: seq<Sample>, nimages: nat, imsize: nat, owner: seq<nat>, j: nat, t: nat)
    requires |s| == nimages * imsize && |owner| == nimages && j < imsize
    ensures MergedCount(s, nimages, imsize, owner, j, 0, t) == 0
    ensures MergedSum(s, nimages, imsize, owner, j, 0, t) == 0.0
  {
    if t > 0 {
      MergedZero(s, nimages, imsize, owner, j, t - 1);
    }
  }

  /** The count written for a position equals the number of images whose
      sample there is not NaN, also under normalisation (where a count of 0
      is written explicitly), and the mean is the sum over that count. */
  lemma OutputPolicy(sum: real, count: nat, norm: bool)
    ensures norm && count > 0 ==> PixelMean(sum, count, norm) * count as real == sum
    ensures norm && count == 0 ==> PixelMean(sum, count, norm) == 0.0
    ensures !norm ==> PixelMean(sum, count, norm) == sum
  {
  }

  /** A worked example: three 2x2 images whose first
      pixels are 1, NaN and 3 give count 2 and mean 2 there. */
  lemma ThreeImageExample()
    ensures var s := [Val(1.0), Val(0.0), Val(0.0), Val(0.0),
                      NaN, Val(0.0), Val(0.0), Val(0.0),
                      Val(3.0), Val(0.0), Val(0.0), Val(0.0)];
            ValidCount(s, 3, 4, 0, 3) == 2
            && PixelMean(ValidSum(s, 3, 4, 0, 3), ValidCount(s, 3, 4, 0, 3), true) == 2.0
  {
    var s := [Val(1.0), Val(0.0), Val(0.0), Val(0.0),
              NaN, Val(0.0), Val(0.0), Val(0.0),
              Val(3.0), Val(0.0), Val(0.0), Val(0.0)];
    assert SampleAt(s, 3, 4, 0, 0) == Val(1.0);
    assert SampleAt(s, 3, 4, 1, 0) == NaN;
    assert SampleAt(s, 3, 4, 2, 0) == Val(3.0);
    assert ValidCount(s, 3, 4, 0, 1) == 1 && ValidSum(s, 3, 4, 0, 1) == 1.0;
    assert ValidCount(s, 3, 4, 0, 2) == 1 && ValidSum(s, 3, 4, 0, 2) == 1.0;
  }

  /** The parallel region of `stackmean`: each image goes to the worker
      `owner` assigns it, and that worker adds every non-NaN sample of it to
      its private sum and count. Row `w` of `mean` and `nvalues` is worker
      `w`'s private pair. */
  method Accumulate(input: array<Sample>, mean: array2<real>, nvalues: array2<int>,
                    nimages: nat, imsize: nat, owner: seq<nat>)
    requires input.Length == nimages * imsize
    requires mean.Length0 == nvalues.Length0 && mean.Length1 == imsize && nvalues.Length1 == imsize
    requires IsAssignment(owner, nimages, mean.Length0)
    requires forall w, j :: 0 <= w < mean.Length0 && 0 <= j < imsize ==> mean[w, j] == 0.0
    requires forall w, j :: 0 <= w < nvalues.Length0 && 0 <= j < imsize ==> nvalues[w, j] == 0
    modifies mean, nvalues
    ensures forall w, j :: 0 <= w < mean.Length0 && 0 <= j < imsize ==>
      mean[w, j] == WorkerSum(input[..], nimages, imsize, owner, w, j, nimages)
    ensures forall w, j :: 0 <= w < nvalues.Length0 && 0 <= j < imsize ==>
      nvalues[w, j] == WorkerCount(input[..], nimages, imsize, owner, w, j, nimages)
  {
    ghost var s := input[..];
    var i := 0;
    while i < nimages
      invariant 0 <= i <= nimages
      invariant forall w, j :: 0 <= w < mean.Length0 && 0 <= j < imsize ==>
        mean[w, j] == WorkerSum(s, nimages, imsize, owner, w, j, i)
      invariant forall w, j :: 0 <= w < nvalues.Length0 && 0 <= j < imsize ==>
        nvalues[w, j] == WorkerCount(s, nimages, imsize, owner, w, j, i)
    {
      var me := owner[i];
      var j := 0;
      while j < imsize
        invariant 0 <= j <= imsize
        invariant forall w, j' :: 0 <= w < mean.Length0 && 0 <= j' < imsize ==>
          mean[w, j'] == WorkerSum(s, nimages, imsize, owner, w, j', if w == me && j' < j then i + 1 else i)
        invariant forall w, j' :: 0 <= w < nvalues.Length0 && 0 <= j' < imsize ==>
          nvalues[w, j'] == WorkerCount(s, nimages, imsize, owner, w, j', if w == me && j' < j then i + 1 else i)
      {
        StackIndexBound(i, j, nimages, imsize);
        var ival := input[i * imsize + j];
        assert ival == SampleAt(s, nimages, imsize, i, j);
        if !ival.NaN? {
          mean[me, j] := mean[me, j] + ival.v;
          nvalues[me, j] := nvalues[me, j] + 1;
        }
        j := j + 1;
      }
      i := i + 1;
    }
  }

  /** The sequential fold of `stackmean`: the accumulators of workers
      `1 .. nworkers-1` are added into worker 0's, in worker order. */
  method Merge(mean: array2<real>, nvalues: array2<int>, ghost s: seq<Sample>,
               nimages: nat, imsize: nat, owner: seq<nat>)
    requires |s| == nimages * imsize && |owner| == nimages
    requires mean.Length0 == nvalues.Length0 >= 1 && mean.Length1 == imsize && nvalues.Length1 == imsize
    requires forall w, j :: 0 <= w < mean.Length0 && 0 <= j < imsize ==>
      mean[w, j] == WorkerSum(s, nimages, imsize, owner, w, j, nimages)
    requires forall w, j :: 0 <= w < nvalues.Length0 && 0 <= j < imsize ==>
      nvalues[w, j] == WorkerCount(s, nimages, imsize, owner, w, j, nimages)
    modifies mean, nvalues
    ensures forall j :: 0 <= j < imsize ==>
      mean[0, j] == MergedSum(s, nimages, imsize, owner, j, nimages, mean.Length0)
    ensures forall j :: 0 <= j < imsize ==>
      nvalues[0, j] == MergedCount(s, nimages, imsize, owner, j, nimages, nvalues.Length0)
    ensures forall w, j :: 1 <= w < mean.Length0 && 0 <= j < imsize ==> mean[w, j] == old(mean[w, j])
    ensures forall w, j :: 1 <= w < nvalues.Length0 && 0 <= j < imsize ==> nvalues[w, j] == old(nvalues[w, j])
  {
    var nworkers := mean.Length0;
    var n := 1;
    while n < nworkers
      invariant 1 <= n <= nworkers
      invariant forall j :: 0 <= j < imsize ==>
        mean[0, j] == MergedSum(s, nimages, imsize, owner, j, nimages, n)
      invariant forall j :: 0 <= j < imsize ==>
        nvalues[0, j] == MergedCount(s, nimages, imsize, owner, j, nimages, n)
      invariant forall w, j :: 1 <= w < nworkers && 0 <= j < imsize ==>
        mean[w, j] == WorkerSum(s, nimages, imsize, owner, w, j, nimages)
      invariant forall w, j :: 1 <= w < nworkers && 0 <= j < imsize ==>
        nvalues[w, j] == WorkerCount(s, nimages, imsize, owner, w, j, nimages)
    {
      var i := 0;
      while i < imsize
        invariant 0 <= i <= imsize
        invariant forall j :: 0 <= j < imsize ==>
          mean[0, j] == MergedSum(s, nimages, imsize, owner, j, nimages, if j < i then n + 1 else n)
        invariant forall j :: 0 <= j < imsize ==>
          nvalues[0, j] == MergedCount(s, nimages, imsize, owner, j, nimages, if j < i then n + 1 else n)
        invariant forall w, j :: 1 <= w < nworkers && 0 <= j < imsize ==>
          mean[w, j] == WorkerSum(s, nimages, imsize, owner, w, j, nimages)
        invariant forall w, j :: 1 <= w < nworkers && 0 <= j < imsize ==>
          nvalues[w, j] == WorkerCount(s, nimages, imsize, owner, w, j, nimages)
      {
        mean[0, i] := mean[0, i] + mean[n, i];
        nvalues[0, i] := nvalues[0, i] + nvalues[n, i];
        i := i + 1;
      }
      n := n + 1;
    }
  }

  /** Every worker's pair of arrays is present. */
  predicate AllPresent(meanPresent: seq<bool>, nvaluesPresent: seq<bool>)
  {
    forall n :: 0 <= n < |meanPresent| && n < |nvaluesPresent| ==> meanPresent[n] && nvaluesPresent[n]
  }

  /** The cleanup loop of `stackmean`: every present array is released; an
      absent one turns the status into 2 without stopping the loop. */
  method ReleaseWorkers(meanPresent: seq<bool>, nvaluesPresent: seq<bool>, retval: int) returns (status: int)
    requires |meanPresent| == |nvaluesPresent|
    ensures AllPresent(meanPresent, nvaluesPresent) ==> status == retval
    ensures !AllPresent(meanPresent, nvaluesPresent) ==> status == 2
  {
    status := retval;
    var n := 0;
    while n < |meanPresent|
      invariant 0 <= n <= |meanPresent|
      invariant AllPresent(meanPresent[..n], nvaluesPresent[..n]) ==> status == retval
      invariant !AllPresent(meanPresent[..n], nvaluesPresent[..n]) ==> status == 2
    {
      if !meanPresent[n] {
        status := 2;
      }
      if !nvaluesPresent[n] {
        status := 2;
      }
      n := n + 1;
    }
    assert meanPresent[..n] == meanPresent && nvaluesPresent[..n] == nvaluesPresent;
  }

  /** `stackmean`. `nworkers` is the size of the thread team and `owner`
      the split of images among its workers. Failing to allocate either
      table of per-worker pointers returns 1 before any output is written;
      otherwise both outputs are written for every position and the status
      is 0. */
  method StackMeanKernel(input: array<Sample>, mout: array<real>, nout: array<int>, dims: seq<nat>,
                         norm: bool, nworkers: nat, owner: seq<nat>,
                         nvaluesTableAllocated: bool, meanTableAllocated: bool)
    returns (status: int)
    requires |dims| >= 2
    requires input.Length == ImageCount(dims) * (Height(dims) * Width(dims))
    requires mout.Length == Height(dims) * Width(dims) && nout.Length == mout.Length
    requires nworkers >= 1 && IsAssignment(owner, ImageCount(dims), nworkers)
    modifies mout, nout
    ensures status == (if nvaluesTableAllocated && meanTableAllocated then 0 else 1)
    ensures status == 1 ==> mout[..] == old(mout[..]) && nout[..] == old(nout[..])
    ensures status == 0 ==> forall j :: 0 <= j < nout.Length ==>
      && nout[j] == ValidCount(input[..], ImageCount(dims), nout.Length, j, ImageCount(dims))
      && mout[j] == PixelMean(ValidSum(input[..], ImageCount(dims), nout.Length, j, ImageCount(dims)),
                              ValidCount(input[..], ImageCount(dims), nout.Length, j, ImageCount(dims)), norm)
  {
    var nimages := CountImages(dims);
    var M := dims[|dims| - 1];
    var N := dims[|dims| - 2];
    var imsize := N * M;
    if !nvaluesTableAllocated {
      return 1;
    }
    if !meanTableAllocated {
      return 1;
    }

    var mean := new real[nworkers, imsize]((w, j) => 0.0);
    var nvalues := new int[nworkers, imsize]((w, j) => 0);
    Accumulate(input, mean, nvalues, nimages, imsize, owner);
    ghost var s := input[..];
    Merge(mean, nvalues, s, nimages, imsize, owner);

    var i := 0;
    while i < imsize
      modifies mout, nout
      invariant 0 <= i <= imsize
      invariant forall j :: 0 <= j < i ==>
        && nout[j] == ValidCount(s, nimages, imsize, j, nimages)
        && mout[j] == PixelMean(ValidSum(s, nimages, imsize, j, nimages), ValidCount(s, nimages, imsize, j, nimages), norm)
    {
      MergeIsSequential(s, nimages, imsize, owner, nworkers, i, nimages);
      nout[i] := nvalues[0, i];
      if norm {
        if nvalues[0, i] != 0 {
          mout[i] := mean[0, i] / nvalues[0, i] as real;
        } else {
          mout[i] := 0.0;
          nout[i] := 0;
        }
      } else {
        mout[i] := mean[0, i];
      }
      i := i + 1;
    }

    status := ReleaseWorkers(seq(nworkers, _ => true), seq(nworkers, _ => true), 0);
  }
}
