/** The per-frame drawing loop of the visualizer.
    Every animation frame reads the analyser's byte magnitudes, splits the bins into
    `NumSlices` contiguous groups whose upper frequency follows a quadratic curve, averages
    each group, and draws one polygon vertex per group around a circle, closing the path.
    Frequencies are exact reals here; `Math.pow(jumpRate, mean)`, `Math.cos` and `Math.sin`
    are left abstract as the functions of a `Plotter`. */
module Bucketizer {

  /** One element of the analyser's Uint8Array. */
  type Byte = x: int | 0 <= x < 256

  const NumSlices: nat := 250
  const MaxFrequency: real := 2000.0
  const TargetFrequencyCoefficient: real := MaxFrequency / (NumSlices * NumSlices) as real
  const FftSize: nat := 8192
  const Height: real := 800.0
  const Offset: real := 200.0
  const Radius: real := Height / 2.0 - Offset

  /** The frequency a slice must reach before it stops taking bins. */
  function Target(i: nat): (t: real)
    ensures t >= 0.0
    ensures i > 0 ==> t > 0.0
  {
    TargetFrequencyCoefficient * (i * i) as real
  }

  /** The frequency reached after `bin` bins of width `fpb` (exact `currentFrequency`). */
  function Freq(bin: int, fpb: real): real
  {
    bin as real * fpb
  }

  /** Sum of a run of magnitudes, accumulated front to back as `decibelTotal` is. */
  function Sum(s: seq<Byte>): nat
  {
    if s == [] then 0 else Sum(s[..|s| - 1]) + s[|s| - 1]
  }

  /** One group of bins: the first bin, how many bins, and the sum of their magnitudes. */
  datatype Slice = Slice(start: nat, count: nat, total: nat)
  {
    function End(): nat { start + count }

    /** `decibelTotal / binCount`. */
    function Mean(): real
      requires count > 0
    {
      total as real / count as real
    }
  }

  datatype Point = Point(x: real, y: real)

  /** The vertex commands given to the canvas path. */
  datatype PathCommand = MoveTo(to: Point) | LineTo(to: Point)

  /** The floating-point parts of a vertex left abstract: `jump(m)` is `Math.pow(jumpRate, m)`,
      `cosAt(i)` and `sinAt(i)` are the cosine and sine of the angle after `i` steps of `sliceWidth`. */
  datatype Plotter = Plotter(jump: real -> real, cosAt: nat -> real, sinAt: nat -> real)

  /** The vertex of slice `i` whose mean magnitude is `mean`. */
  function Vertex(i: nat, mean: real, p: Plotter): Point
  {
    var e := p.jump(mean);
    Point((Radius + e) * p.cosAt(i) + Radius + Offset, (Radius + e) * p.sinAt(i) + Radius + Offset)
  }

  /** The command emitted for slice `i`: `moveTo` for the first slice, `lineTo` for the others. */
  function Command(i: nat, v: Point): PathCommand
  {
    if i == 0 then MoveTo(v) else LineTo(v)
  }

  /** Slice `s`, taken as the `i`-th slice, stopped at the first bin whose cumulative frequency
      reaches `Target(i)`, having taken at least one bin. */
  ghost predicate StopsAtTarget(s: Slice, i: nat, fpb: real)
  {
    && s.count >= 1
    && Freq(s.End(), fpb) >= Target(i)
    && forall b: nat :: s.start < b < s.End() ==> Freq(b, fpb) < Target(i)
  }

  /** Slice `i` of `slices` starts where slice `i - 1` ended (at bin 0 for the first),
      obeys the exit rule, lies within `data` and totals its bins. */
  ghost predicate SliceAt(data: seq<Byte>, fpb: real, slices: seq<Slice>, i: nat)
    requires i < |slices|
  {
    && slices[i].start == (if i == 0 then 0 else slices[i - 1].End())
    && StopsAtTarget(slices[i], i, fpb)
    && slices[i].End() <= |data|
    && slices[i].total == Sum(data[slices[i].start..slices[i].End()])
  }

  ghost predicate BucketsPrefix(data: seq<Byte>, fpb: real, slices: seq<Slice>)
  {
    forall i :: 0 <= i < |slices| ==> SliceAt(data, fpb, slices, i)
  }

  /** `slices` is the complete grouping of one frame. */
  ghost predicate IsBucketing(data: seq<Byte>, fpb: real, slices: seq<Slice>)
  {
    |slices| == NumSlices && BucketsPrefix(data, fpb, slices)
  }

  /** `path` has one vertex per slice, in slice order, then returns to the first vertex. */
  ghost predicate TracesOutline(slices: seq<Slice>, path: seq<PathCommand>, p: Plotter)
  {
    && |slices| > 0
    && |path| == |slices| + 1
    && (forall i :: 0 <= i < |slices| ==>
          slices[i].count > 0 && path[i] == Command(i, Vertex(i, slices[i].Mean(), p)))
    && path[|slices|] == LineTo(path[0].to)
  }

  /** The array holds every bin the loop can reach: the last slice ends no later than
      `NumSlices + ceil(Target(NumSlices - 1) / fpb)`. */
  predicate CoversLastBin(length: nat, fpb: real)
  {
    length >= NumSlices && Freq(length - NumSlices, fpb) >= Target(NumSlices - 1)
  }

  lemma FreqMonotone(a: int, b: int, fpb: real)
    requires fpb > 0.0
    ensures a <= b <==> Freq(a, fpb) <= Freq(b, fpb)
  {
    assert Freq(b, fpb) - Freq(a, fpb) == (b - a) as real * fpb;
  }

  /** Below the target at `last` means below it at every bin up to `last`. */
  lemma BelowTargetBefore(start: nat, last: nat, i: nat, fpb: real)
    requires fpb > 0.0 && start <= last
    requires last == start || Freq(last, fpb) < Target(i)
    ensures forall b: nat :: start < b <= last ==> Freq(b, fpb) < Target(i)
  {
    forall b: nat | start < b <= last
      ensures Freq(b, fpb) < Target(i)
    {
      FreqMonotone(b, last, fpb);
    }
  }

  lemma FreqStep(b: int, fpb: real)
    ensures Freq(b + 1, fpb) == Freq(b, fpb) + fpb
  {
  }

  lemma TargetMonotone(i: nat, j: nat)
    requires i <= j
    ensures Target(i) <= Target(j)
  {
    assert i * i <= i * j <= j * j;
  }

  lemma SumAppend(s: seq<Byte>, x: Byte)
    ensures Sum(s + [x]) == Sum(s) + x
  {
    assert (s + [x])[..|s|] == s;
  }

  /** Appending a slice that starts where the prefix ends and obeys the exit rule keeps a valid prefix. */
  lemma ExtendPrefix(data: seq<Byte>, fpb: real, slices: seq<Slice>, s: Slice)
    requires BucketsPrefix(data, fpb, slices)
    requires s.start == (if slices == [] then 0 else slices[|slices| - 1].End())
    requires StopsAtTarget(s, |slices|, fpb)
    requires s.End() <= |data| && s.total == Sum(data[s.start..s.End()])
    ensures BucketsPrefix(data, fpb, slices + [s])
  {
    var next := slices + [s];
    forall k | 0 <= k < |next| ensures SliceAt(data, fpb, next, k) {
      if k < |slices| {
        assert SliceAt(data, fpb, slices, k);
      }
    }
  }

  /** After slice `i` the bins taken exceed `i + 1` by no more than `Target(i + 1)` allows,
      which keeps every read of the next slice inside the array. */
  lemma BinsStayBounded(s: Slice, i: nat, fpb: real)
    requires fpb > 0.0
    requires s.start >= i && Freq(s.start - i, fpb) <= Target(i)
    requires StopsAtTarget(s, i, fpb)
    ensures Freq(s.End() - (i + 1), fpb) <= Target(i + 1)
  {
    TargetMonotone(i, i + 1);
    if s.count > 1 {
      FreqMonotone(s.End() - (i + 1), s.End() - 1, fpb);
    }
  }

  /** The do-while of slice `i`: starting at `currentBin` with `currentFrequency`, take bins
      until the cumulative frequency reaches `Target(i)`, taking at least one. */
  method TakeSlice(data: array<Byte>, fpb: real, i: nat, currentBin: nat, currentFrequency: real)
    returns (slice: Slice, frequency: real)
    requires fpb > 0.0 && CoversLastBin(data.Length, fpb) && i < NumSlices
    requires currentFrequency == Freq(currentBin, fpb)
    requires currentBin >= i && Freq(currentBin - i, fpb) <= Target(i)
    ensures slice.start == currentBin && StopsAtTarget(slice, i, fpb)
    ensures slice.End() <= data.Length && slice.total == Sum(data[slice.start..slice.End()])
    ensures frequency == Freq(slice.End(), fpb)
  {
    TargetMonotone(i, NumSlices - 1);
    FreqMonotone(currentBin - i, data.Length - NumSlices, fpb);
    var bin := currentBin;
    frequency := currentFrequency;
    var decibelTotal: nat := 0;
    var binCount: nat := 0;
    while true
      invariant currentBin <= bin <= data.Length
      invariant binCount == bin - currentBin
      invariant decibelTotal == Sum(data[currentBin..bin])
      invariant frequency == Freq(bin, fpb)
      invariant binCount == 0 || Freq(bin, fpb) < Target(i)
      decreases data.Length - bin
    {
      if binCount == 0 {
        FreqMonotone(currentBin - i, data.Length - NumSlices, fpb);
      } else {
        FreqMonotone(bin, data.Length - NumSlices, fpb);
      }
      assert bin < data.Length;
      assert data[currentBin..bin + 1] == data[currentBin..bin] + [data[bin]];
      SumAppend(data[currentBin..bin], data[bin]);
      FreqStep(bin, fpb);
      decibelTotal := decibelTotal + data[bin];
      bin := bin + 1;
      binCount := binCount + 1;
      frequency := frequency + fpb;
      if frequency >= Target(i) {
        BelowTargetBefore(currentBin, bin - 1, i, fpb);
        break;
      }
    }
    slice := Slice(currentBin, binCount, decibelTotal);
    assert slice.End() == bin;
  }

  /** One frame of `animate`: bucketize `data` (bin width `fpb`) and emit the polygon path. */
  method DrawFrame(data: array<Byte>, fpb: real, p: Plotter) returns (slices: seq<Slice>, path: seq<PathCommand>)
    requires fpb > 0.0
    requires CoversLastBin(data.Length, fpb)
    ensures IsBucketing(data[..], fpb, slices)
    ensures TracesOutline(slices, path, p)
  {
    slices, path := [], [];
    var initial := Point(0.0, 0.0);
    var currentFrequency := 0.0;
    var currentBin: nat := 0;
    for i := 0 to NumSlices
      invariant |slices| == i && |path| == i
      invariant BucketsPrefix(data[..], fpb, slices)
      invariant currentBin == if i == 0 then 0 else slices[i - 1].End()
      invariant currentBin >= i
      invariant currentFrequency == Freq(currentBin, fpb)
      invariant Freq(currentBin - i, fpb) <= Target(i)
      invariant forall k :: 0 <= k < i ==>
                  slices[k].count > 0 && path[k] == Command(k, Vertex(k, slices[k].Mean(), p))
      invariant i > 0 ==> initial == path[0].to
    {
      var slice;
      slice, currentFrequency := TakeSlice(data, fpb, i, currentBin, currentFrequency);
      BinsStayBounded(slice, i, fpb);
      ExtendPrefix(data[..], fpb, slices, slice);
      var v := Vertex(i, slice.total as real / slice.count as real, p);
      if i == 0 {
        path := path + [MoveTo(v)];
        initial := v;
      } else {
        path := path + [LineTo(v)];
      }
      slices := slices + [slice];
      currentBin := slice.End();
    }
    path := path + [LineTo(initial)];
  }

  /** A bin belongs to a slice when it lies in the slice's range. */
  predicate Holds(s: Slice, bin: nat)
  {
    s.start <= bin < s.End()
  }

  lemma {:induction false} SumBound(s: seq<Byte>)
    ensures Sum(s) <= 255 * |s|
  {
    if s != [] {
      SumBound(s[..|s| - 1]);
    }
  }

  lemma {:induction false} SumOfSilence(s: seq<Byte>)
    requires forall k :: 0 <= k < |s| ==> s[k] == 0
    ensures Sum(s) == 0
  {
    if s != [] {
      SumOfSilence(s[..|s| - 1]);
    }
  }

  /** A slice takes a single bin exactly when one more bin already reaches its target;
      in particular a slice whose target was met on entry takes one bin. */
  lemma SingleBinIff(data: seq<Byte>, fpb: real, slices: seq<Slice>, i: nat)
    requires BucketsPrefix(data, fpb, slices) && i < |slices|
    ensures slices[i].count == 1 <==> Freq(slices[i].start + 1, fpb) >= Target(i)
  {
    assert SliceAt(data, fpb, slices, i);
    var s := slices[i];
    if s.count != 1 {
      assert s.start < s.start + 1 < s.End();
    }
  }

  /** The first slice has target 0, so it is exactly bin 0. */
  lemma FirstSliceIsBinZero(data: seq<Byte>, fpb: real, slices: seq<Slice>)
    requires fpb > 0.0 && IsBucketing(data, fpb, slices)
    ensures |data| > 0 && slices[0] == Slice(0, 1, data[0])
  {
    assert SliceAt(data, fpb, slices, 0);
    SingleBinIff(data, fpb, slices, 0);
    assert Freq(1, fpb) == fpb >= Target(0);
    assert slices[0].count == 1;
    assert data[0..1] == [data[0]];
    assert Sum([data[0]]) == Sum([]) + data[0] by {
      assert [data[0]][..0] == [];
    }
  }

  /** Slices come in bin order: every earlier slice ends where or before a later one starts,
      so no bin is taken twice and `currentBin` is never moved back. */
  lemma {:induction false} SlicesInOrder(data: seq<Byte>, fpb: real, slices: seq<Slice>, j: nat, k: nat)
    requires BucketsPrefix(data, fpb, slices)
    requires j < k < |slices|
    ensures slices[j].End() <= slices[k].start
    ensures slices[j].start < slices[k].start
  {
    assert SliceAt(data, fpb, slices, k);
    assert SliceAt(data, fpb, slices, k - 1);
    if j < k - 1 {
      SlicesInOrder(data, fpb, slices, j, k - 1);
    }
  }

  /** Every bin below the end of the last slice is held by exactly one slice: no gaps, no overlap. */
  lemma {:induction false} EveryBinInOneSlice(data: seq<Byte>, fpb: real, slices: seq<Slice>, bin: nat)
    requires BucketsPrefix(data, fpb, slices) && |slices| > 0
    requires bin < slices[|slices| - 1].End()
    ensures exists i :: 0 <= i < |slices| && Holds(slices[i], bin)
    ensures forall i, j :: 0 <= i < |slices| && 0 <= j < |slices| && Holds(slices[i], bin) && Holds(slices[j], bin) ==> i == j
  {
    var n := |slices| - 1;
    assert SliceAt(data, fpb, slices, n);
    if bin < slices[n].start {
      var shorter := slices[..n];
      assert BucketsPrefix(data, fpb, shorter) by {
        forall k | 0 <= k < n ensures SliceAt(data, fpb, shorter, k) {
          assert SliceAt(data, fpb, slices, k);
        }
      }
      EveryBinInOneSlice(data, fpb, shorter, bin);
      var i :| 0 <= i < n && Holds(shorter[i], bin);
      assert Holds(slices[i], bin);
    } else {
      assert Holds(slices[n], bin);
    }
    forall i, j | 0 <= i < |slices| && 0 <= j < |slices| && Holds(slices[i], bin) && Holds(slices[j], bin)
      ensures i == j
    {
      if i < j {
        SlicesInOrder(data, fpb, slices, i, j);
      } else if j < i {
        SlicesInOrder(data, fpb, slices, j, i);
      }
    }
  }

  /** From a given first bin, the exit rule admits only one bin count. */
  lemma ExitRuleDeterminesCount(a: Slice, b: Slice, i: nat, fpb: real)
    requires a.start == b.start
    requires StopsAtTarget(a, i, fpb) && StopsAtTarget(b, i, fpb)
    ensures a.count == b.count
  {
  }

  /** Any two groupings that obey the rules agree on their common length. */
  lemma {:induction false} BucketingIsUnique(data: seq<Byte>, fpb: real, s1: seq<Slice>, s2: seq<Slice>, n: nat)
    requires BucketsPrefix(data, fpb, s1) && BucketsPrefix(data, fpb, s2)
    requires n <= |s1| && n <= |s2|
    ensures s1[..n] == s2[..n]
  {
    if n > 0 {
      BucketingIsUnique(data, fpb, s1, s2, n - 1);
      var k := n - 1;
      assert SliceAt(data, fpb, s1, k) && SliceAt(data, fpb, s2, k);
      if k > 0 {
        assert s1[k - 1] == s1[..n - 1][k - 1] == s2[..n - 1][k - 1] == s2[k - 1];
      }
      ExitRuleDeterminesCount(s1[k], s2[k], k, fpb);
      assert s1[..n] == s1[..n - 1] + [s1[k]];
      assert s2[..n] == s2[..n - 1] + [s2[k]];
    }
  }

  /** The frame's grouping is a function of the data and the bin width: any two complete
      groupings are the same, so `DrawFrame` has exactly one possible result per frame. */
  lemma FrameIsDeterministic(data: seq<Byte>, fpb: real, s1: seq<Slice>, s2: seq<Slice>)
    requires IsBucketing(data, fpb, s1) && IsBucketing(data, fpb, s2)
    ensures s1 == s2
  {
    BucketingIsUnique(data, fpb, s1, s2, NumSlices);
    assert s1 == s1[..NumSlices] && s2 == s2[..NumSlices];
  }

  /** Every slice's mean magnitude is a byte value, 0 through 255. */
  lemma MeansAreBytes(data: seq<Byte>, fpb: real, slices: seq<Slice>, i: nat)
    requires BucketsPrefix(data, fpb, slices) && i < |slices|
    ensures slices[i].count > 0 && 0.0 <= slices[i].Mean() <= 255.0
  {
    assert SliceAt(data, fpb, slices, i);
    var s := slices[i];
    SumBound(data[s.start..s.End()]);
    MeanBound(s.total, s.count);
  }

  /** A mean of `count` bytes lies in the byte range. */
  lemma MeanBound(total: nat, count: nat)
    requires 0 < count && total <= 255 * count
    ensures 0.0 <= total as real / count as real <= 255.0
  {
    var m := total as real / count as real;
    assert m * count as real == total as real;
    if m > 255.0 {
      assert m * count as real > 255.0 * count as real;
    }
  }

  /** A silent frame (every magnitude 0) draws every vertex at displacement `jump(0)`,
      a circle of radius `Radius + jump(0)` around the centre, closed at the first vertex. */
  lemma SilenceDrawsCircle(data: seq<Byte>, fpb: real, slices: seq<Slice>, path: seq<PathCommand>, p: Plotter)
    requires forall k :: 0 <= k < |data| ==> data[k] == 0
    requires IsBucketing(data, fpb, slices) && TracesOutline(slices, path, p)
    ensures forall i :: 0 <= i < NumSlices ==> path[i].to == Vertex(i, 0.0, p)
    ensures path[NumSlices].to == Vertex(0, 0.0, p)
  {
    forall i | 0 <= i < NumSlices ensures path[i].to == Vertex(i, 0.0, p) {
      assert SliceAt(data, fpb, slices, i);
      var s := slices[i];
      SumOfSilence(data[s.start..s.End()]);
      assert s.Mean() == 0.0;
    }
  }

  /** With the source's `fftSize` of 8192 the analyser yields 4096 bins, which cover every bin
      the loop reads whenever the sample rate is at least 8000 Hz. */
  lemma AnalyserCoversBins(sampleRate: real)
    requires sampleRate >= 8000.0
    ensures CoversLastBin(FftSize / 2, sampleRate / FftSize as real)
  {
  }
}
