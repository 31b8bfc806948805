/**
  The playback side's slew limiter: whatever the network delivers, the worklet
  never lets its output move by more than `MAX_STEP` between two samples.
*/
module SlewLimiter {

  const MAX_STEP := 0.05
  const POP_STEP := 0.06
  const PREBUFFER := 4800

  function Limit1(prev: real, x: real): real {
    if x - prev > MAX_STEP then prev + MAX_STEP
    else if x - prev < -MAX_STEP then prev - MAX_STEP
    else x
  }

  /** The limited form of `xs`, played right after a sample `prev`. */
  function Limit(prev: real, xs: seq<real>): (ys: seq<real>)
    ensures |ys| == |xs|
    decreases |xs|
  {
    if xs == [] then [] else [Limit1(prev, xs[0])] + Limit(Limit1(prev, xs[0]), xs[1..])
  }

  function Last(prev: real, xs: seq<real>): real {
    if xs == [] then prev else xs[|xs| - 1]
  }

  /** Played right after `prev`, no sample of `xs` moves by more than `bound`. */
  predicate StepsWithin(prev: real, xs: seq<real>, bound: real) {
    forall i {:trigger xs[i]} :: 0 <= i < |xs| ==> -bound <= xs[i] - Last(prev, xs[..i]) <= bound
  }

  predicate Within(xs: seq<real>, lo: real, hi: real) {
    forall i :: 0 <= i < |xs| ==> lo <= xs[i] <= hi
  }

  lemma StepsConcat(prev: real, xs: seq<real>, ys: seq<real>, bound: real)
    requires StepsWithin(prev, xs, bound) && StepsWithin(Last(prev, xs), ys, bound)
    ensures StepsWithin(prev, xs + ys, bound) && Last(prev, xs + ys) == Last(Last(prev, xs), ys)
  {
    var zs := xs + ys;
    forall i | 0 <= i < |zs|
      ensures -bound <= zs[i] - Last(prev, zs[..i]) <= bound
    {
      if i < |xs| {
        assert zs[..i] == xs[..i] && zs[i] == xs[i];
      } else {
        assert zs[..i] == xs + ys[..i - |xs|] && zs[i] == ys[i - |xs|];
      }
    }
  }

  lemma {:induction false} LimitSteps(prev: real, xs: seq<real>)
    ensures StepsWithin(prev, Limit(prev, xs), MAX_STEP)
    decreases |xs|
  {
    if xs != [] {
      var y := Limit1(prev, xs[0]);
      LimitSteps(y, xs[1..]);
      StepsConcat(prev, [y], Limit(y, xs[1..]), MAX_STEP);
    }
  }

  lemma {:induction false} LimitHull(prev: real, xs: seq<real>, lo: real, hi: real)
    requires lo <= prev <= hi && Within(xs, lo, hi)
    ensures Within(Limit(prev, xs), lo, hi)
    decreases |xs|
  {
    if xs != [] {
      LimitHull(Limit1(prev, xs[0]), xs[1..], lo, hi);
    }
  }

  lemma StepsTail(prev: real, xs: seq<real>, bound: real)
    requires xs != []
    ensures StepsWithin(prev, xs, bound) <==> -bound <= xs[0] - prev <= bound && StepsWithin(xs[0], xs[1..], bound)
  {
    if -bound <= xs[0] - prev <= bound && StepsWithin(xs[0], xs[1..], bound) {
      assert [xs[0]] + xs[1..] == xs;
      StepsConcat(prev, [xs[0]], xs[1..], bound);
    }
    if StepsWithin(prev, xs, bound) {
      assert xs[..0] == [];
      forall i | 0 <= i < |xs[1..]|
        ensures -bound <= xs[1..][i] - Last(xs[0], xs[1..][..i]) <= bound
      {
        assert xs[..i + 1] == [xs[0]] + xs[1..][..i];
        assert xs[1..][i] == xs[i + 1];
      }
    }
  }

  /** The limiter is transparent exactly on the frames that need no limiting. */
  lemma {:induction false} LimitIdentityIff(prev: real, xs: seq<real>)
    ensures Limit(prev, xs) == xs <==> StepsWithin(prev, xs, MAX_STEP)
    decreases |xs|
  {
    if xs != [] {
      LimitIdentityIff(xs[0], xs[1..]);
      StepsTail(prev, xs, MAX_STEP);
      LimitKeepsFirst(prev, xs);
    }
  }

  lemma LimitKeepsFirst(prev: real, xs: seq<real>)
    requires xs != []
    ensures Limit(prev, xs) == xs <==> -MAX_STEP <= xs[0] - prev <= MAX_STEP && Limit(xs[0], xs[1..]) == xs[1..]
  {
    var y, rest := Limit1(prev, xs[0]), Limit(Limit1(prev, xs[0]), xs[1..]);
    assert Limit(prev, xs)[0] == y && Limit(prev, xs)[1..] == rest;
    assert xs == [xs[0]] + xs[1..];
  }

  lemma {:induction false} LimitAppend(prev: real, xs: seq<real>, x: real)
    ensures Limit(prev, xs + [x]) == Limit(prev, xs) + [Limit1(Last(prev, Limit(prev, xs)), x)]
    decreases |xs|
  {
    if xs == [] {
      assert [] + [x] == [x];
    } else {
      var y := Limit1(prev, xs[0]);
      LimitAppend(y, xs[1..], x);
      assert (xs + [x])[1..] == xs[1..] + [x];
    }
  }

  // ----- What the limiter aims at -----

  function Abs(x: real): real {
    if x < 0.0 then -x else x
  }

  /** How far `y` is from the sample wanted. */
  function Off(want: real, y: real): real {
    Abs(y - want)
  }

  /** Of all samples within `bound` of the one before it, `y` is the closest to the one wanted. */
  ghost predicate Closest(before: real, want: real, y: real, bound: real) {
    -bound <= y - before <= bound && forall z :: -bound <= z - before <= bound ==> Off(want, y) <= Off(want, z)
  }

  /** Every sample of `ys` is the closest to that of `xs`. */
  ghost predicate Follows(prev: real, xs: seq<real>, ys: seq<real>, bound: real) {
    |ys| == |xs| && forall i {:trigger ys[i]} :: 0 <= i < |xs| ==> Closest(Last(prev, ys[..i]), xs[i], ys[i], bound)
  }

  lemma {:induction false} LimitAt(prev: real, xs: seq<real>, i: nat)
    requires i < |xs|
    ensures Limit(prev, xs)[i] == Limit1(Last(prev, Limit(prev, xs)[..i]), xs[i])
    decreases |xs|
  {
    var ys := Limit(prev, xs);
    if i > 0 {
      LimitAt(ys[0], xs[1..], i - 1);
      assert ys[..i] == [ys[0]] + ys[1..][..i - 1];
    }
  }

  /** A limited frame goes after its input as fast as it may. */
  lemma LimitFollows(prev: real, xs: seq<real>)
    ensures Follows(prev, xs, Limit(prev, xs), 0.05)
  {
    var ys := Limit(prev, xs);
    forall i | 0 <= i < |xs|
      ensures Closest(Last(prev, ys[..i]), xs[i], ys[i], 0.05)
    {
      LimitAt(prev, xs, i);
    }
  }

  /** A level held from sample `k` on is reached as soon as steps of 0.05 cover the distance. */
  lemma {:induction false} HeldLevelIsReached(prev: real, xs: seq<real>, ys: seq<real>, k: nat, n: nat, level: real)
    requires Follows(prev, xs, ys, 0.05) && 0 < n && k + n <= |xs|
    requires forall j :: k <= j < k + n ==> xs[j] == level
    requires Off(level, Last(prev, ys[..k])) <= n as real * 0.05
    ensures ys[k + n - 1] == level
    decreases n
  {
    var before, y := Last(prev, ys[..k]), ys[k];
    assert Closest(before, level, y, 0.05);
    StepsCloser(before, level, y);
    if n > 1 {
      assert Last(prev, ys[..k + 1]) == y;
      HeldLevelIsReached(prev, xs, ys, k + 1, n - 1, level);
    }
  }

  lemma StepsCloser(before: real, level: real, y: real)
    requires Closest(before, level, y, 0.05)
    ensures Off(level, before) <= 0.05 ==> y == level
    ensures Off(level, before) > 0.05 ==> Off(level, y) <= Off(level, before) - 0.05
  {
    var near := if Off(level, before) <= 0.05 then level else if level > before then before + 0.05 else before - 0.05;
    assert Off(level, y) <= Off(level, near);
  }

  lemma {:induction false} LimitConcat(prev: real, xs: seq<real>, ys: seq<real>)
    ensures Limit(prev, xs + ys) == Limit(prev, xs) + Limit(Last(prev, Limit(prev, xs)), ys)
    decreases |ys|
  {
    if ys == [] {
      assert xs + ys == xs;
    } else {
      var n := |ys| - 1;
      LimitConcat(prev, xs, ys[..n]);
      LimitAppend(prev, xs + ys[..n], ys[n]);
      LimitAppend(Last(prev, Limit(prev, xs)), ys[..n], ys[n]);
      assert xs + ys == (xs + ys[..n]) + [ys[n]] && ys == ys[..n] + [ys[n]];
    }
  }

  // ----- Whole runs of the shared path -----

  datatype Playback = Playback(started: bool, tail: real)

  /** One call of the worklet: the unread samples it finds, and its frame size. */
  datatype Call = Call(unread: seq<real>, frame: nat)

  function Frame(p: Playback, c: Call): (out: seq<real>)
    ensures |out| == c.frame
  {
    if !p.started && |c.unread| < PREBUFFER then seq(c.frame, i => 0.0)
    else if |c.unread| < c.frame then seq(c.frame, i => p.tail)
    else Limit(p.tail, c.unread[..c.frame])
  }

  function Next(p: Playback, c: Call): Playback {
    if !p.started && |c.unread| < PREBUFFER then p
    else Playback(true, Last(p.tail, Frame(p, c)))
  }

  function Output(p: Playback, calls: seq<Call>): seq<real>
    decreases |calls|
  {
    if calls == [] then [] else Frame(p, calls[0]) + Output(Next(p, calls[0]), calls[1..])
  }

  function Inputs(calls: seq<Call>): seq<real> {
    if calls == [] then [] else calls[0].unread + Inputs(calls[1..])
  }

  ghost predicate Consistent(p: Playback) {
    !p.started ==> p.tail == 0.0
  }

  lemma FrameSteps(p: Playback, c: Call)
    requires Consistent(p)
    ensures StepsWithin(p.tail, Frame(p, c), MAX_STEP)
    ensures Consistent(Next(p, c)) && Next(p, c).tail == Last(p.tail, Frame(p, c))
  {
    if |c.unread| >= c.frame {
      LimitSteps(p.tail, c.unread[..c.frame]);
    }
  }

  /**
    Across frames, the startup silence and underruns, no two consecutive
    output samples differ by more than `MAX_STEP`.
  */
  lemma {:induction false} OutputNeverJumps(p: Playback, calls: seq<Call>)
    requires Consistent(p)
    ensures StepsWithin(p.tail, Output(p, calls), MAX_STEP)
    decreases |calls|
  {
    if calls != [] {
      FrameSteps(p, calls[0]);
      OutputNeverJumps(Next(p, calls[0]), calls[1..]);
      StepsConcat(p.tail, Frame(p, calls[0]), Output(Next(p, calls[0]), calls[1..]), MAX_STEP);
    }
  }

  /** The output never leaves the hull of silence and the samples received. */
  lemma {:induction false} OutputStaysInHull(p: Playback, calls: seq<Call>, lo: real, hi: real)
    requires lo <= 0.0 <= hi && lo <= p.tail <= hi && Within(Inputs(calls), lo, hi)
    ensures Within(Output(p, calls), lo, hi)
    decreases |calls|
  {
    if calls != [] {
      var c := calls[0];
      forall i | 0 <= i < |c.unread|
        ensures lo <= c.unread[i] <= hi
      {
        assert c.unread[i] == Inputs(calls)[i];
      }
      forall i | 0 <= i < |Inputs(calls[1..])|
        ensures lo <= Inputs(calls[1..])[i] <= hi
      {
        assert Inputs(calls[1..])[i] == Inputs(calls)[|c.unread| + i];
      }
      if |c.unread| >= c.frame {
        LimitHull(p.tail, c.unread[..c.frame], lo, hi);
      }
      OutputStaysInHull(Next(p, c), calls[1..], lo, hi);
    }
  }

  /** The samples the calls take. */
  function Taken(calls: seq<Call>): seq<real>
    requires forall c :: c in calls ==> c.frame <= |c.unread|
  {
    if calls == [] then [] else calls[0].unread[..calls[0].frame] + Taken(calls[1..])
  }

  /** While every call finds a frame, and the first one the prebuffer, what arrives is played, limited as one piece. */
  lemma {:induction false} PlaysWhatArrives(p: Playback, calls: seq<Call>)
    requires forall c :: c in calls ==> c.frame <= |c.unread|
    requires calls != [] ==> p.started || |calls[0].unread| >= 4800
    ensures Output(p, calls) == Limit(p.tail, Taken(calls))
    decreases |calls|
  {
    if calls != [] {
      var c, rest := calls[0], calls[1..];
      var frame := c.unread[..c.frame];
      PlaysWhatArrives(Next(p, c), rest);
      LimitConcat(p.tail, frame, Taken(rest));
    }
  }

  /** Until a call finds the prebuffer there is silence, however many samples have arrived. */
  lemma {:induction false} SilentUntilStocked(p: Playback, calls: seq<Call>)
    requires !p.started && forall c :: c in calls ==> |c.unread| < 4800
    ensures Within(Output(p, calls), 0.0, 0.0)
    decreases |calls|
  {
    if calls != [] {
      SilentUntilStocked(p, calls[1..]);
    }
  }

  /** What the quality counter adds up over one frame. */
  function Pops(xs: seq<real>): nat {
    if |xs| < 2 then 0
    else Pops(xs[..|xs| - 1]) + if Abs(xs[|xs| - 1] - xs[|xs| - 2]) > 0.06 then 1 else 0
  }

  // ----- The statistics of the output -----

  /** Samples above this count as sound. */
  const AUDIBLE := 0.001

  datatype Quality = Quality(samples: nat, nonzero: nat, sumSq: real, maxAmp: real, pops: nat, maxPop: real)

  function Square(x: real): real {
    x * x
  }

  function WithSample(q: Quality, x: real): Quality {
    var loud := Abs(x) > AUDIBLE;
    q.(samples := q.samples + 1,
       nonzero := if loud then q.nonzero + 1 else q.nonzero,
       sumSq := if loud then q.sumSq + Square(x) else q.sumSq,
       maxAmp := if Abs(x) > q.maxAmp then Abs(x) else q.maxAmp)
  }

  function WithStep(q: Quality, diff: real): Quality {
    q.(pops := if Abs(diff) > POP_STEP then q.pops + 1 else q.pops,
       maxPop := if Abs(diff) > q.maxPop then Abs(diff) else q.maxPop)
  }

  /** The statistics after one more frame. */
  function Measured(q: Quality, xs: seq<real>): Quality {
    if xs == [] then q
    else
      var n := |xs| - 1;
      var before := WithSample(Measured(q, xs[..n]), xs[n]);
      if n == 0 then before else WithStep(before, xs[n] - xs[n - 1])
  }

  /** The samples that count as sound. */
  function Sounding(xs: seq<real>): seq<real> {
    if xs == [] then []
    else Sounding(xs[..|xs| - 1]) + if Abs(xs[|xs| - 1]) > 0.001 then [xs[|xs| - 1]] else []
  }

  function Energy(xs: seq<real>): real {
    if xs == [] then 0.0 else Energy(xs[..|xs| - 1]) + Square(xs[|xs| - 1])
  }

  /** The counters count the samples, the sounding ones, and the pops inside the frame. */
  lemma {:induction false} MeasuredCounts(q: Quality, xs: seq<real>)
    ensures var m := Measured(q, xs);
            m.samples == q.samples + |xs| && m.nonzero == q.nonzero + |Sounding(xs)| && m.pops == q.pops + Pops(xs)
    decreases |xs|
  {
    if xs != [] {
      MeasuredCounts(q, xs[..|xs| - 1]);
    }
  }

  /** The sum of squares is the energy of the sounding samples. */
  lemma {:induction false} MeasuredEnergy(q: Quality, xs: seq<real>)
    ensures Measured(q, xs).sumSq == q.sumSq + Energy(Sounding(xs))
    decreases |xs|
  {
    if xs != [] {
      var n := |xs| - 1;
      MeasuredEnergy(q, xs[..n]);
      EnergyAppend(Sounding(xs[..n]), xs[n]);
      MeasuredOneMore(q, xs);
    }
  }

  lemma MeasuredOneMore(q: Quality, xs: seq<real>)
    requires xs != []
    ensures var n := |xs| - 1;
            Measured(q, xs).sumSq == Measured(q, xs[..n]).sumSq + if Abs(xs[n]) > AUDIBLE then Square(xs[n]) else 0.0
  {
  }

  lemma EnergyAppend(sounding: seq<real>, x: real)
    ensures Energy(sounding + if Abs(x) > AUDIBLE then [x] else []) ==
            Energy(sounding) + if Abs(x) > AUDIBLE then Square(x) else 0.0
  {
    assert (sounding + [x])[..|sounding|] == sounding && sounding + [] == sounding;
  }

  /** The two maxima bound every sample and every step inside the frame, and grow only to values that occur. */
  lemma {:induction false} MeasuredMaxima(q: Quality, xs: seq<real>)
    ensures var m := Measured(q, xs);
            && q.maxAmp <= m.maxAmp && q.maxPop <= m.maxPop
            && (forall k :: 0 <= k < |xs| ==> Abs(xs[k]) <= m.maxAmp)
            && (m.maxAmp == q.maxAmp || exists k :: 0 <= k < |xs| && Abs(xs[k]) == m.maxAmp)
            && (forall k :: 1 <= k < |xs| ==> Jump(xs, k) <= m.maxPop)
            && (m.maxPop == q.maxPop || exists k :: 1 <= k < |xs| && Jump(xs, k) == m.maxPop)
    decreases |xs|
  {
    if xs != [] {
      var n := |xs| - 1;
      var before, m := Measured(q, xs[..n]), Measured(q, xs);
      MeasuredMaxima(q, xs[..n]);
      forall k | 0 <= k < |xs| ensures Abs(xs[k]) <= m.maxAmp {
        assert k < n ==> xs[..n][k] == xs[k];
      }
      forall k | 1 <= k < |xs| ensures Jump(xs, k) <= m.maxPop {
        assert k < n ==> Jump(xs[..n], k) == Jump(xs, k);
      }
      if m.maxAmp == before.maxAmp != q.maxAmp {
        var k :| 0 <= k < n && Abs(xs[..n][k]) == before.maxAmp;
        assert Abs(xs[k]) == m.maxAmp;
      }
      if m.maxPop == before.maxPop != q.maxPop {
        var k :| 1 <= k < n && Jump(xs[..n], k) == before.maxPop;
        assert Jump(xs, k) == m.maxPop;
      }
      assert m.maxPop != before.maxPop ==> Jump(xs, n) == m.maxPop;
    }
  }

  function Jump(xs: seq<real>, k: nat): real
    requires 1 <= k < |xs|
  {
    Abs(xs[k] - xs[k - 1])
  }

  /** A limited frame never adds a pop, nor a step above the bound. */
  lemma LimitedIsSmooth(prev: real, xs: seq<real>, q: Quality)
    requires StepsWithin(prev, xs, MAX_STEP)
    ensures Measured(q, xs).pops == q.pops
    ensures Measured(q, xs).maxPop <= MAX_STEP || Measured(q, xs).maxPop == q.maxPop
  {
    MeasuredCounts(q, xs);
    NoPops(prev, xs);
    MeasuredMaxima(q, xs);
    if Measured(q, xs).maxPop != q.maxPop {
      var k :| 1 <= k < |xs| && Jump(xs, k) == Measured(q, xs).maxPop;
      assert Last(prev, xs[..k]) == xs[k - 1];
    }
  }

  lemma LimitedFrameIsSmooth(prev: real, xs: seq<real>, q: Quality)
    ensures var m := Measured(q, Limit(prev, xs));
            m.pops == q.pops && (m.maxPop <= MAX_STEP || m.maxPop == q.maxPop)
  {
    LimitSteps(prev, xs);
    LimitedIsSmooth(prev, Limit(prev, xs), q);
  }

  lemma {:induction false} NoPops(prev: real, xs: seq<real>)
    requires StepsWithin(prev, xs, MAX_STEP)
    ensures Pops(xs) == 0
    decreases |xs|
  {
    if |xs| >= 2 {
      var n := |xs| - 1;
      forall i | 0 <= i < n
        ensures -MAX_STEP <= xs[..n][i] - Last(prev, xs[..n][..i]) <= MAX_STEP
      {
        assert xs[..n][..i] == xs[..i] && xs[..n][i] == xs[i];
      }
      NoPops(prev, xs[..n]);
      assert Last(prev, xs[..n]) == xs[n - 1];
      assert -MAX_STEP <= xs[n] - Last(prev, xs[..n]) <= MAX_STEP;
    }
  }
}

/**
  The two worklets over real memory: the ring both threads share, the capture
  side that fills it, and the playback side with its private fallback ring.
*/
module RelayProcessors {
  import opened Wrappers
  import opened RingArithmetic
  import opened SlewLimiter

  const FALLBACK_PREBUFFER := 12000
  const FALLBACK_RING := 144000

  /** The slot of a stream position in a ring of `n`. */
  function Slot(p: nat, n: nat): (k: nat)
    requires 0 < n
    ensures k < n
  {
    p % n
  }

  function Unwrapped(a: seq<real>, from: nat, count: nat): (s: seq<real>)
    requires 0 < |a|
    ensures |s| == count
  {
    seq(count, i requires 0 <= i < count => a[Slot(from + i, |a|)])
  }

  lemma UnwrappedAfterWrite(before: seq<real>, after: seq<real>, r: nat, avail: nat, block: seq<real>)
    requires 0 < |before| == |after|
    requires forall p: nat {:trigger Slot(p, |after|)} :: r <= p < r + avail ==>
               after[Slot(p, |after|)] == before[Slot(p, |after|)]
    requires forall p: nat {:trigger Slot(p, |after|)} :: r + avail <= p < r + avail + |block| ==>
               after[Slot(p, |after|)] == block[p - r - avail]
    ensures Unwrapped(after, r, avail + |block|) == Unwrapped(before, r, avail) + block
  {
  }

  lemma NextSlotIsFree(r: nat, next: nat, n: nat)
    requires r <= next < r + n
    ensures forall p: nat {:trigger Slot(p, n)} :: r <= p < next ==> Slot(p, n) != Slot(next, n)
  {
    forall p: nat {:trigger Slot(p, n)} | r <= p < next
      ensures Slot(p, n) != Slot(next, n)
    {
      SlotsDiffer(p, next, n);
    }
  }

  /** The samples unread at the start are still there, followed by `added`. */
  ghost predicate Holding(s: seq<real>, before: seq<real>, r: nat, end: nat, added: seq<real>) {
    && 0 < |s| == |before|
    && (forall p: nat {:trigger Slot(p, |s|)} :: r <= p < end ==> s[Slot(p, |s|)] == before[Slot(p, |s|)])
    && (forall p: nat {:trigger Slot(p, |s|)} :: end <= p < end + |added| ==> s[Slot(p, |s|)] == added[p - end])
  }

  lemma HoldsOneMore(s: seq<real>, before: seq<real>, r: nat, end: nat, block: seq<real>, i: nat)
    requires i < |block| && Holding(s, before, r, end, block[..i]) && r <= end && end + i < r + |s|
    ensures Holding(s[Slot(end + i, |s|) := block[i]], before, r, end, block[..i + 1])
  {
    NextSlotIsFree(r, end + i, |s|);
  }

  lemma UnwrappedFirst(a: seq<real>, r: nat, taken: nat, left: nat)
    requires 0 < |a|
    ensures Unwrapped(a, r, taken) == Unwrapped(a, r, taken + left)[..taken]
  {
  }

  lemma UnwrappedAfterRead(a: seq<real>, r: nat, r': nat, taken: nat, left: nat)
    requires 0 < |a| && r' == Slot(r + taken, |a|)
    ensures Unwrapped(a, r', left) == Unwrapped(a, r, taken + left)[taken..]
    ensures Unwrapped(a, r, taken) == Unwrapped(a, r, taken + left)[..taken]
  {
    UnwrappedFirst(a, r, taken, left);
    var whole, rest := Unwrapped(a, r, taken + left), Unwrapped(a, r', left);
    forall j | 0 <= j < left
      ensures rest[j] == whole[taken..][j]
    {
      UnwrappedFurther(a, r, r', taken, left, j);
    }
    assert rest == whole[taken..];
  }

  lemma UnwrappedFurther(a: seq<real>, r: nat, r': nat, taken: nat, left: nat, j: nat)
    requires 0 < |a| && r' == Slot(r + taken, |a|) && j < left
    ensures Unwrapped(a, r', left)[j] == Unwrapped(a, r, taken + left)[taken + j]
  {
    WrapAdd(r + taken, j, |a|);
    assert Slot(r' + j, |a|) == Slot(r + (taken + j), |a|);
  }

  class SampleRing {
    const samples: array<real>
    var writePos: nat
    var readPos: nat

    ghost predicate Valid()
      reads this, samples
    {
      0 < samples.Length && writePos < samples.Length && readPos < samples.Length
    }

    constructor (n: nat)
      requires 0 < n
      ensures Valid() && fresh(samples) && samples.Length == n && Contents() == []
    {
      samples := new real[n];
      writePos, readPos := 0, 0;
    }

    function Available(): (avail: nat)
      requires Valid()
      reads this, samples
      ensures avail < samples.Length
    {
      (writePos - readPos + samples.Length) % samples.Length
    }

    /** The unread samples, oldest first. */
    function Contents(): (s: seq<real>)
      requires Valid()
      reads this, samples
      ensures |s| == Available()
    {
      Unwrapped(samples[..], readPos, Available())
    }

    /** Writes a block into the free slots, or drops it when it does not fit. */
    method Write(block: seq<real>)
      requires Valid()
      modifies this`writePos, samples
      ensures Valid()
      ensures var free := samples.Length - |old(Contents())|;
              Contents() == if |block| > free then old(Contents())
                            else if |block| == free then []
                            else old(Contents()) + block
    {
      var n, w := samples.Length, writePos;
      if |block| > n - Available() {
        return;
      }
      ghost var before, r, end := samples[..], readPos, readPos + Available();
      WriteFollowsContents();
      CopyIn(block, end);
      writePos := (w + |block|) % n;
      PositionsAfterWrite(r, end, |block|);
      UnwrappedAfterWrite(before, samples[..], r, end - r, block);
    }

    /** Copies the block into the slots that follow the unread samples. */
    method CopyIn(block: seq<real>, ghost end: nat)
      requires Valid() && readPos <= end && end + |block| <= readPos + samples.Length
      requires writePos == end % samples.Length
      modifies samples
      ensures Holding(samples[..], old(samples[..]), readPos, end, block)
    {
      var n, w := samples.Length, writePos;
      ghost var before := samples[..];
      for i := 0 to |block|
        invariant Holding(samples[..], before, readPos, end, block[..i])
      {
        WrapAdd(end, i, n);
        HoldsOneMore(samples[..], before, readPos, end, block, i);
        ghost var s := samples[..];
        samples[(w + i) % n] := block[i];
        assert samples[..] == s[Slot(end + i, n) := block[i]];
      }
      assert block[..|block|] == block;
    }

    lemma PositionsAfterWrite(r: nat, end: nat, len: nat)
      requires Valid() && readPos == r && r <= end && end + len <= r + samples.Length
      requires writePos == (end % samples.Length + len) % samples.Length
      ensures Available() == if end + len == r + samples.Length then 0 else end + len - r
    {
      WrapAdd(end, len, samples.Length);
      RemainderIsUnique(r, 0, r, samples.Length);
      WrapDistance(end + len, r, samples.Length);
    }

    lemma WriteFollowsContents()
      requires Valid()
      ensures writePos == (readPos + Available()) % samples.Length
    {
      var n := samples.Length;
      if writePos >= readPos {
        RemainderIsUnique(writePos - readPos + n, 1, writePos - readPos, n);
      } else {
        RemainderIsUnique(writePos - readPos + n, 0, writePos - readPos + n, n);
        RemainderIsUnique(readPos + Available(), 1, writePos, n);
      }
    }

    /** Copies the oldest samples out and releases their slots. */
    method Read(output: array<real>)
      requires Valid() && output != samples && output.Length <= Available()
      modifies this`readPos, output
      ensures Valid()
      ensures output[..] == old(Contents())[..output.Length]
      ensures Contents() == old(Contents())[output.Length..]
    {
      var n, r, len := samples.Length, readPos, output.Length;
      ghost var avail := Available();
      WriteFollowsContents();
      for i := 0 to len
        invariant forall k :: 0 <= k < i ==> output[k] == samples[Slot(r + k, n)]
      {
        output[i] := samples[(r + i) % n];
      }
      assert output[..] == Unwrapped(samples[..], r, len);
      readPos := (r + len) % n;
      PositionsAfterRead(r, avail, len);
      UnwrappedAfterRead(samples[..], r, readPos, len, avail - len);
    }

    lemma PositionsAfterRead(r: nat, avail: nat, len: nat)
      requires Valid() && len <= avail < samples.Length
      requires writePos == (r + avail) % samples.Length && readPos == (r + len) % samples.Length
      ensures Available() == avail - len
    {
      WrapDistance(r + avail, r + len, samples.Length);
    }
  }

  class RelayCaptureProcessor {
    var ring: SampleRing?
    var alive: bool

    constructor (ring: SampleRing?)
      ensures this.ring == ring && alive
    {
      this.ring := ring;
      alive := true;
    }

    method Stop()
      modifies this`alive
      ensures !alive
    {
      alive := false;
    }

    /** `input` is absent when no microphone is connected. `keep` is false once the worklet may be dropped. */
    method Process(input: Option<seq<real>>) returns (keep: bool)
      requires ring != null ==> ring.Valid()
      modifies if ring == null then {} else {ring, ring.samples}
      ensures keep == alive
      ensures ring != null ==> ring.Valid() && ring.readPos == old(ring.readPos)
      ensures ring != null ==>
                var had, free := old(ring.Contents()), ring.samples.Length - |old(ring.Contents())|;
                ring.Contents() == if !alive || input.None? || |input.value| > free then had
                                   else if |input.value| == free then []
                                   else had + input.value
    {
      if !alive {
        return false;
      }
      if ring != null && input.Some? {
        ring.Write(input.value);
      }
      return true;
    }
  }

  class RelayAudioProcessor {
    const own: SampleRing
    var shared: SampleRing?
    var alive: bool
    var started: bool
    var wasSilent: bool
    var prevTail: real
    var outSamples: nat
    var outNonzero: nat
    var outSumSq: real
    var outMaxAmp: real
    var outPops: nat
    var outMaxPop: real

    ghost predicate Valid()
      reads this, own, own.samples, shared, if shared == null then {} else {shared.samples}
    {
      && own.Valid()
      && (shared != null ==> shared.Valid() && shared != own && shared.samples != own.samples)
    }

    constructor (shared: SampleRing?)
      requires shared != null ==> shared.Valid()
      ensures Valid() && this.shared == shared && fresh(own) && own.Contents() == [] && own.samples.Length == 144000
      ensures alive && !started && prevTail == 0.0 && outPops == 0
    {
      this.shared := shared;
      own := new SampleRing(FALLBACK_RING);
      alive, started, wasSilent, prevTail := true, false, true, 0.0;
      outSamples, outNonzero, outSumSq, outMaxAmp := 0, 0, 0.0, 0.0;
      outPops, outMaxPop := 0, 0.0;
    }

    /** Samples posted by the main thread; ignored once a shared ring is in use. */
    method OnSamples(block: seq<real>)
      requires Valid()
      modifies own, own.samples
      ensures Valid()
      ensures var had, free := old(own.Contents()), own.samples.Length - |old(own.Contents())|;
              own.Contents() == if shared != null || |block| > free then had
                                else if |block| == free then []
                                else had + block
    {
      if shared == null {
        own.Write(block);
      }
    }

    function Playing(): Playback
      reads this
    {
      Playback(started, prevTail)
    }

    /** Clamps every sample to within a step of the one before it, in place. */
    method LimitInPlace(output: array<real>)
      modifies output
      ensures output[..] == Limit(prevTail, old(output[..]))
      ensures Follows(prevTail, old(output[..]), output[..], 0.05)
    {
      LimitFollows(prevTail, output[..]);
      var prev := prevTail;
      ghost var input := output[..];
      for i := 0 to output.Length
        invariant output[..i] == Limit(prevTail, input[..i])
        invariant output[i..] == input[i..]
        invariant prev == Last(prevTail, output[..i])
      {
        LimitAppend(prevTail, input[..i], input[i]);
        assert input[..i] + [input[i]] == input[..i + 1];
        assert output[i] == output[i..][0] == input[i];
        var step := output[i] - prev;
        if step > MAX_STEP {
          output[i] := prev + MAX_STEP;
        } else if step < -MAX_STEP {
          output[i] := prev - MAX_STEP;
        }
        prev := output[i];
        assert output[..i + 1] == output[..i] + [prev];
      }
      assert output[..] == output[..output.Length] && input == input[..output.Length];
    }

    function Stats(): Quality
      reads this
    {
      Quality(outSamples, outNonzero, outSumSq, outMaxAmp, outPops, outMaxPop)
    }

    /** Adds one frame to the statistics the page can ask for. */
    method TrackQuality(output: array<real>)
      modifies this`outSamples, this`outNonzero, this`outSumSq, this`outMaxAmp, this`outPops, this`outMaxPop
      ensures Stats() == Measured(old(Stats()), output[..])
    {
      for i := 0 to output.Length
        invariant Stats() == Measured(old(Stats()), output[..i])
      {
        ghost var upTo := output[..i + 1];
        assert upTo[..i] == output[..i];
        TrackSample(output[i]);
        if i > 0 {
          TrackStep(output[i] - output[i - 1]);
        }
      }
      assert output[..] == output[..output.Length];
    }

    method TrackSample(s: real)
      modifies this`outSamples, this`outNonzero, this`outSumSq, this`outMaxAmp
      ensures Stats() == WithSample(old(Stats()), s)
    {
      var abs := if s < 0.0 then -s else s;
      outSamples := outSamples + 1;
      if abs > AUDIBLE {
        outNonzero := outNonzero + 1;
        outSumSq := outSumSq + s * s;
      }
      if abs > outMaxAmp {
        outMaxAmp := abs;
      }
    }

    method TrackStep(diff: real)
      modifies this`outPops, this`outMaxPop
      ensures Stats() == WithStep(old(Stats()), diff)
    {
      var absDiff := if diff < 0.0 then -diff else diff;
      if absDiff > outMaxPop {
        outMaxPop := absDiff;
      }
      if absDiff > POP_STEP {
        outPops := outPops + 1;
      }
    }

    /** Takes the oldest samples of the shared ring, limited. */
    method ReadLimited(output: array<real>)
      requires Valid() && shared != null && output.Length <= shared.Available()
      requires output != shared.samples && output != own.samples
      modifies shared`readPos, output
      ensures Valid()
      ensures output[..] == Limit(prevTail, old(shared.Contents())[..output.Length])
      ensures shared.Contents() == old(shared.Contents())[output.Length..]
    {
      shared.Read(output);
      LimitInPlace(output);
    }

    /** A full frame of the shared ring, once playback has started. */
    method PlayFrame(output: array<real>)
      requires Valid() && shared != null && 0 < output.Length <= shared.Available()
      requires output != shared.samples && output != own.samples
      modifies this`wasSilent, this`prevTail, this`outSamples, this`outNonzero, this`outSumSq, this`outMaxAmp, this`outPops, this`outMaxPop, shared`readPos, output
      ensures Valid()
      ensures output[..] == Limit(old(prevTail), old(shared.Contents())[..output.Length])
      ensures shared.Contents() == old(shared.Contents())[output.Length..]
      ensures prevTail == Last(old(prevTail), output[..])
      ensures Stats() == Measured(old(Stats()), output[..])
      ensures outPops == old(outPops) && (outMaxPop <= MAX_STEP || outMaxPop == old(outMaxPop))
    {
      LimitedFrameIsSmooth(prevTail, shared.Contents()[..output.Length], Stats());
      ReadLimited(output);
      wasSilent := false;
      TrackQuality(output);
      prevTail := output[output.Length - 1];
    }

    /** One frame from the shared ring. */
    method ProcessShared(output: array<real>)
      requires Valid() && shared != null && 0 < output.Length
      requires output != shared.samples && output != own.samples
      modifies this`started, this`wasSilent, this`prevTail, this`outSamples, this`outNonzero, this`outSumSq, this`outMaxAmp, this`outPops, this`outMaxPop, shared`readPos, output
      ensures Valid()
      ensures var c := Call(old(shared.Contents()), output.Length);
              && output[..] == Frame(old(Playing()), c)
              && Playing() == Next(old(Playing()), c)
              && shared.Contents() == if |c.unread| < c.frame || (!old(started) && |c.unread| < PREBUFFER)
                                      then c.unread else c.unread[c.frame..]
      ensures !old(started) && |old(shared.Contents())| < 4800 ==> output[..] == seq(output.Length, i => 0.0) && !started
      ensures (old(started) || |old(shared.Contents())| >= 4800) ==>
                && started
                && if |old(shared.Contents())| < output.Length then output[..] == seq(output.Length, i => old(prevTail))
                   else Follows(old(prevTail), old(shared.Contents())[..output.Length], output[..], 0.05)
      ensures Stats() == if |old(shared.Contents())| < output.Length || (!old(started) && |old(shared.Contents())| < PREBUFFER)
                         then old(Stats()) else Measured(old(Stats()), output[..])
      ensures outPops == old(outPops) && (outMaxPop <= MAX_STEP || outMaxPop == old(outMaxPop))
    {
      var avail := shared.Available();
      if avail >= output.Length {
        LimitFollows(prevTail, shared.Contents()[..output.Length]);
      }
      if !started {
        if avail < PREBUFFER {
          Fill(output, 0.0);
          return;
        }
        started := true;
      }
      if avail < output.Length {
        Fill(output, prevTail);
        wasSilent := true;
        return;
      }
      PlayFrame(output);
    }

    /** One frame from the private ring: eased in after silence, eased out on an underrun. */
    method ProcessFallback(output: array<real>)
      requires Valid() && 0 < output.Length && output != own.samples
      requires shared != null ==> output != shared.samples
      modifies this`started, this`wasSilent, this`prevTail, this`outSamples, this`outNonzero, this`outSumSq, this`outMaxAmp, this`outPops, this`outMaxPop, own`readPos, output
      ensures Valid()
      ensures var unread, len := old(own.Contents()), output.Length;
              if !old(started) && |unread| < 12000 then
                && output[..] == seq(len, i => 0.0) && own.Contents() == unread && !started
                && wasSilent == old(wasSilent) && prevTail == old(prevTail)
              else if |unread| < len then
                && output[..] == (if old(wasSilent) then seq(len, i => 0.0) else EaseOut(old(prevTail), len))
                && own.Contents() == unread && started && wasSilent && prevTail == 0.0
              else
                && output[..] == (if old(wasSilent) then EaseIn(unread[..len]) else unread[..len])
                && own.Contents() == unread[len..] && started && !wasSilent
                && prevTail == output[len - 1]
      ensures Stats() == if |old(own.Contents())| < output.Length || (!old(started) && |old(own.Contents())| < 12000)
                         then old(Stats()) else Measured(old(Stats()), output[..])
    {
      var len, avail := output.Length, own.Available();
      if !started {
        if avail < FALLBACK_PREBUFFER {
          Fill(output, 0.0);
          return;
        }
        started := true;
      }
      if avail < len {
        if !wasSilent {
          FadeOut(prevTail, output);
        } else {
          Fill(output, 0.0);
        }
        wasSilent, prevTail := true, 0.0;
        return;
      }
      PlayFallbackFrame(output);
    }

    /** A full frame of the private ring, eased in after silence. */
    method PlayFallbackFrame(output: array<real>)
      requires Valid() && 0 < output.Length <= own.Available() && output != own.samples
      requires shared != null ==> output != shared.samples
      modifies this`wasSilent, this`prevTail, this`outSamples, this`outNonzero, this`outSumSq, this`outMaxAmp, this`outPops, this`outMaxPop, own`readPos, output
      ensures Valid()
      ensures var unread, len := old(own.Contents()), output.Length;
              && output[..] == (if old(wasSilent) then EaseIn(unread[..len]) else unread[..len])
              && own.Contents() == unread[len..]
      ensures !wasSilent && prevTail == output[output.Length - 1]
      ensures Stats() == Measured(old(Stats()), output[..])
    {
      own.Read(output);
      if wasSilent {
        wasSilent := false;
        FadeIn(output);
      }
      TrackQuality(output);
      prevTail := output[output.Length - 1];
    }

    method Process(output: array<real>) returns (keep: bool)
      requires Valid() && 0 < output.Length && output != own.samples
      requires shared != null ==> output != shared.samples
      modifies this`started, this`wasSilent, this`prevTail, this`outSamples, this`outNonzero, this`outSumSq, this`outMaxAmp, this`outPops, this`outMaxPop, own`readPos, output
      modifies if shared == null then {} else {shared}
      ensures keep == alive && Valid()
      ensures !alive ==> unchanged(this) && unchanged(own) && unchanged(output)
      ensures alive && shared != null ==>
                && output[..] == Frame(old(Playing()), Call(old(shared.Contents()), output.Length))
                && outPops == old(outPops) && unchanged(own)
    {
      if !alive {
        return false;
      }
      if shared != null {
        ProcessShared(output);
      } else {
        ProcessFallback(output);
      }
      return true;
    }
  }

  method Fill(output: array<real>, x: real)
    modifies output
    ensures output[..] == seq(output.Length, i => x)
  {
    for i := 0 to output.Length
      invariant forall k :: 0 <= k < i ==> output[k] == x
    {
      output[i] := x;
    }
  }

  // ----- The fallback path's fades -----

  method FadeOut(tail: real, output: array<real>)
    requires 0 < output.Length
    modifies output
    ensures output[..] == EaseOut(tail, output.Length)
  {
    var len := output.Length;
    for j := 0 to len
      invariant forall k :: 0 <= k < j ==> output[k] == EaseOut(tail, len)[k]
    {
      var t := 1.0 - (j + 1) as real / len as real;
      output[j] := tail * Ease(t);
    }
  }

  method FadeIn(output: array<real>)
    requires 0 < output.Length
    modifies output
    ensures output[..] == EaseIn(old(output[..]))
  {
    ghost var frame := output[..];
    var len := output.Length;
    for j := 0 to len
      invariant forall k :: 0 <= k < j ==> output[k] == EaseIn(frame)[k]
      invariant forall k :: j <= k < len ==> output[k] == frame[k]
    {
      var t := (j + 1) as real / len as real;
      output[j] := output[j] * Ease(t);
    }
  }

  function Ease(t: real): real {
    t * t * (3.0 - 2.0 * t)
  }

  function EaseOut(tail: real, len: nat): seq<real>
    requires 0 < len
  {
    seq(len, j => tail * Ease(1.0 - (j + 1) as real / len as real))
  }

  function EaseIn(frame: seq<real>): seq<real>
  {
    seq(|frame|, j requires 0 <= j < |frame| => frame[j] * Ease((j + 1) as real / |frame| as real))
  }

  lemma EaseIsAGain(t: real)
    requires 0.0 <= t <= 1.0
    ensures 0.0 <= Ease(t) <= 1.0
  {
    var u := 1.0 - t;
    assert t * t >= 0.0 && t * t * (1.0 + 2.0 * u) == Ease(t);
    assert u * u * (1.0 + 2.0 * t) == 1.0 - Ease(t);
    assert u * u >= 0.0;
  }

  lemma ProductNonNegative(a: real, b: real)
    requires a >= 0.0 && b >= 0.0
    ensures a * b >= 0.0 && (a > 0.0 && b > 0.0 ==> a * b > 0.0)
  {
  }

  lemma GainShrinks(x: real, g: real)
    requires 0.0 <= g <= 1.0
    ensures Abs(x * g) <= Abs(x)
  {
    var y := Abs(x);
    ProductNonNegative(y, 1.0 - g);
    ProductNonNegative(y, g);
    assert y * (1.0 - g) == y - y * g;
    assert x * g == y * g || x * g == -(y * g);
  }

  lemma QuotientInUnit(a: real, b: real)
    requires 0.0 <= a <= b && 0.0 < b
    ensures 0.0 <= a / b <= 1.0
  {
    assert (a / b) * b == a;
  }

  lemma WholeQuotient(a: real)
    requires 0.0 < a
    ensures a / a == 1.0
  {
  }

  /** One faded sample. */
  lemma Faded(x: real, t: real, y: real)
    requires 0.0 <= t <= 1.0 && y == x * Ease(t)
    ensures Abs(y) <= Abs(x) && (t == 0.0 ==> y == 0.0) && (t == 1.0 ==> y == x)
  {
    EaseIsAGain(t);
    GainShrinks(x, Ease(t));
    EaseEnds();
  }

  /** The easing is a smooth step: it rises, is its own mirror image, and starts and ends flat. */
  lemma EaseIsSmooth(s: real, t: real)
    requires 0.0 <= s <= t <= 1.0
    ensures Ease(s) <= Ease(t)
    ensures Ease(1.0 - t) == 1.0 - Ease(t)
    ensures Ease(t) <= 3.0 * t * t && 1.0 - Ease(t) <= 3.0 * (1.0 - t) * (1.0 - t)
  {
    EaseRises(s, t);
    EaseMirrors(t);
    FlatStart(t);
    FlatStart(1.0 - t);
  }

  lemma EaseMirrors(t: real)
    ensures Ease(1.0 - t) == 1.0 - Ease(t)
  {
    var u := 1.0 - t;
    assert u * u == 1.0 - 2.0 * t + t * t;
    assert Ease(u) == (1.0 - 2.0 * t + t * t) * (1.0 + 2.0 * t);
  }

  lemma FlatStart(t: real)
    requires 0.0 <= t <= 1.0
    ensures Ease(t) <= 3.0 * t * t
  {
    ProductNonNegative(t, t);
    ProductNonNegative(t * t, t);
    assert Ease(t) == 3.0 * (t * t) - 2.0 * (t * t * t);
  }

  lemma EaseRises(s: real, t: real)
    requires 0.0 <= s <= t <= 1.0
    ensures Ease(s) <= Ease(t)
  {
    var slope := 2.0 * (t * (1.0 - t)) + 2.0 * (s * (1.0 - s)) + t * (1.0 - s) + s * (1.0 - t);
    ProductNonNegative(t, 1.0 - t);
    ProductNonNegative(s, 1.0 - s);
    ProductNonNegative(t, 1.0 - s);
    ProductNonNegative(s, 1.0 - t);
    ProductNonNegative(t - s, slope);
    EaseDifference(s, t, slope);
  }

  lemma EaseDifference(s: real, t: real, slope: real)
    requires slope == 2.0 * (t * (1.0 - t)) + 2.0 * (s * (1.0 - s)) + t * (1.0 - s) + s * (1.0 - t)
    ensures Ease(t) - Ease(s) == (t - s) * slope
  {
    assert slope == 3.0 * t + 3.0 * s - 2.0 * t * t - 2.0 * t * s - 2.0 * s * s;
  }

  lemma EaseEnds()
    ensures Ease(0.0) == 0.0 && Ease(1.0) == 1.0
  {
  }

  /** The fades only attenuate; an eased-out frame ends in silence, an eased-in one on its own last sample. */
  lemma FadesAttenuate(tail: real, frame: seq<real>, k: nat)
    requires k < |frame|
    ensures Abs(EaseOut(tail, |frame|)[k]) <= Abs(tail)
    ensures Abs(EaseIn(frame)[k]) <= Abs(frame[k])
    ensures k == |frame| - 1 ==> EaseOut(tail, |frame|)[k] == 0.0 && EaseIn(frame)[k] == frame[k]
  {
    var t := (k + 1) as real / |frame| as real;
    QuotientInUnit((k + 1) as real, |frame| as real);
    if k == |frame| - 1 {
      WholeQuotient(|frame| as real);
    }
    Faded(tail, 1.0 - t, EaseOut(tail, |frame|)[k]);
    Faded(frame[k], t, EaseIn(frame)[k]);
  }

  /** On a steady level, fading in and fading out add up to the level. */
  lemma FadesCross(x: real, n: nat, k: nat)
    requires k < n
    ensures EaseIn(seq(n, i => x))[k] + EaseOut(x, n)[k] == x
  {
    PartsGrow(k, k, n);
    CrossAt(x, n, k);
  }

  /** Half-way through a frame a fade in has reached half the level. */
  lemma FadeInHalfWay(x: real, m: nat)
    requires 0 < m
    ensures EaseIn(seq(2 * m, i => x))[m - 1] == x * 0.5
  {
    HalfPart(m);
    PartsGrow(m - 1, m - 1, 2 * m);
    CrossAt(x, 2 * m, m - 1);
    EaseMirrors(0.5);
  }

  lemma HalfPart(m: nat)
    requires 0 < m
    ensures Part(m - 1, 2 * m) == 0.5
  {
    assert m - 1 + 1 == m;
    HalfQuotient(m as real, (2 * m) as real);
  }

  lemma HalfQuotient(a: real, b: real)
    requires 0.0 < a && b == a + a
    ensures a / b == 0.5
  {
    var q := a / b;
    assert q * b == a;
    HalfFactor(q, a, b);
  }

  lemma HalfFactor(q: real, a: real, b: real)
    requires 0.0 < a && b == a + a && q * b == a
    ensures q == 0.5
  {
    var d := q - 0.5;
    assert d * b == q * b - 0.5 * b;
    ZeroFactor(d, b);
  }

  lemma ZeroFactor(d: real, b: real)
    requires 0.0 < b && d * b == 0.0
    ensures d == 0.0
  {
    assert (-d) * b == -(d * b);
    if d > 0.0 {
      ProductNonNegative(d, b);
    } else if d < 0.0 {
      ProductNonNegative(-d, b);
    }
  }

  lemma CrossAt(x: real, n: nat, k: nat)
    requires k < n && 0.0 <= Part(k, n) <= 1.0
    ensures EaseIn(seq(n, i => x))[k] == x * Ease(Part(k, n))
    ensures EaseOut(x, n)[k] == x - x * Ease(Part(k, n))
  {
    EaseMirrors(Part(k, n));
  }

  /** How far into a frame of `n` samples number `k` ends. */
  function Part(k: nat, n: nat): real
    requires k < n
  {
    (k + 1) as real / n as real
  }

  lemma PartsGrow(j: nat, k: nat, n: nat)
    requires j <= k < n
    ensures 0.0 <= Part(j, n) <= Part(k, n) <= 1.0
  {
    QuotientInUnit((k + 1) as real, n as real);
    QuotientInUnit((j + 1) as real, n as real);
    QuotientGrows((j + 1) as real, (k + 1) as real, n as real);
  }

  lemma QuotientGrows(a: real, b: real, c: real)
    requires a <= b && 0.0 < c
    ensures a / c <= b / c
  {
    var d := b / c - a / c;
    assert (a / c) * c == a && (b / c) * c == b;
    assert d * c == b - a;
    FactorNonNegative(d, c);
  }

  lemma FactorNonNegative(d: real, c: real)
    requires 0.0 < c && 0.0 <= d * c
    ensures 0.0 <= d
  {
    if d < 0.0 {
      ProductNonNegative(-d, c);
    }
  }
}
