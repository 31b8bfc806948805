/**
  The single-producer, single-consumer sample ring that the relay's audio
  worklets share with the main thread: a buffer of samples and two positions,
  each stored by one side only and loaded by the other at any moment.

  One action below is one access to shared memory, so a run is an arbitrary
  interleaving of the two sides.
*/
module RingArithmetic {

  /** A whole number of laps other than none is at least one lap long. */
  lemma WholeLaps(d: int, n: int)
    requires 0 < n && d != 0
    ensures d * n >= n || d * n <= -n
  {
    if d > 0 {
      assert (d - 1) * n >= 0;
    } else {
      assert (-1 - d) * n >= 0;
    }
  }

  lemma RemainderIsUnique(x: int, q: int, r: int, n: int)
    requires 0 < n && 0 <= r < n && x == q * n + r
    ensures x % n == r && x / n == q
  {
    var d := x / n - q;
    assert d * n == r - x % n;
    if d != 0 {
      WholeLaps(d, n);
    }
  }

  /** Advancing a wrapped position is wrapping the advanced one. */
  lemma WrapAdd(a: nat, b: nat, n: nat)
    requires 0 < n
    ensures (a % n + b) % n == (a + b) % n
  {
    var q := (a % n + b) / n;
    var r := (a % n + b) % n;
    assert a + b == (a / n + q) * n + r;
    RemainderIsUnique(a + b, a / n + q, r, n);
  }

  /** What the two sides compute from wrapped positions is the true distance, unless it is a whole lap. */
  lemma WrapDistance(w: nat, r: nat, n: nat)
    requires 0 < n && r <= w <= r + n
    ensures (w % n - r % n + n) % n == if w == r + n then 0 else w - r
  {
    var x := w % n - r % n + n;
    var k := w / n - r / n;
    assert x == (w - r) + (1 - k) * n;
    var d := if w == r + n then 0 else w - r;
    if w == r + n {
      assert x == (2 - k) * n + d;
      RemainderIsUnique(x, 2 - k, d, n);
    } else {
      RemainderIsUnique(x, 1 - k, d, n);
    }
  }

  /** Stream positions less than a lap apart lie in different slots. */
  lemma SlotsDiffer(i: nat, j: nat, n: nat)
    requires 0 < n && i < j < i + n
    ensures i % n != j % n
  {
    if i % n == j % n {
      assert j - i == (j / n - i / n) * n;
      RemainderIsUnique(j - i, j / n - i / n, 0, n);
      RemainderIsUnique(j - i, 0, j - i, n);
    }
  }

  lemma MultiplesCombine(a: int, b: int, n: int)
    requires 0 < n && a % n == 0 && b % n == 0
    ensures (a + b) % n == 0 && (a - b) % n == 0
  {
    RemainderIsUnique(a + b, a / n + b / n, 0, n);
    RemainderIsUnique(a - b, a / n - b / n, 0, n);
  }
}

module RelayRing {
  import opened RingArithmetic

  type Sample = real

  datatype Producer =
    | Rest
    | LoadedWrite(block: seq<Sample>, w: nat)
    | Filling(block: seq<Sample>, w: nat, i: nat)

  datatype Consumer =
    | Wait
    | SawWrite(w: nat)
    | Draining(r: nat, frame: nat, out: seq<Sample>)

  /**
    `accepted`, `delivered` and `seen` are the history of the run: every sample
    published by the producer, every sample of a completed frame, and how many
    samples were published when the consumer last loaded the write position.
    `prebuffer` is how many samples the consumer waits for before its first
    frame: 4800 in the playback worklet, none where captured samples are sent.
  */
  datatype State = State(
    buf: seq<Sample>, writePos: nat, readPos: nat, started: bool,
    producer: Producer, consumer: Consumer,
    accepted: seq<Sample>, delivered: seq<Sample>, seen: nat, prebuffer: nat)

  datatype Action =
    | LoadWritePos(block: seq<Sample>)   // producer
    | CheckRoom                          // producer loads readPos and compares
    | CopyIn
    | Publish
    | PeekWritePos                       // consumer
    | CheckReady(frame: nat)             // consumer loads readPos and compares
    | CopyOut
    | Release

  function Init(n: nat, prebuffer: nat): State {
    State(seq(n, i => 0.0), 0, 0, false, Rest, Wait, [], [], 0, prebuffer)
  }

  function Distance(w: nat, r: nat, n: nat): nat
    requires 0 < n
  {
    (w - r + n) % n
  }

  predicate Enabled(s: State, a: Action) {
    match a
    case LoadWritePos(_) => s.producer.Rest?
    case CheckRoom => s.producer.LoadedWrite?
    case CopyIn => s.producer.Filling? && s.producer.i < |s.producer.block|
    case Publish => s.producer.Filling? && s.producer.i == |s.producer.block|
    case PeekWritePos => s.consumer.Wait?
    case CheckReady(_) => s.consumer.SawWrite?
    case CopyOut => s.consumer.Draining? && |s.consumer.out| < s.consumer.frame
    case Release => s.consumer.Draining? && |s.consumer.out| == s.consumer.frame
  }

  function Do(s: State, a: Action): State
    requires 0 < |s.buf| && Enabled(s, a)
  {
    var n := |s.buf|;
    match a
    case LoadWritePos(block) => s.(producer := LoadedWrite(block, s.writePos))
    case CheckRoom =>
      var LoadedWrite(block, w) := s.producer;
      if |block| > n - Distance(w, s.readPos, n) then s.(producer := Rest)
      else s.(producer := Filling(block, w, 0))
    case CopyIn =>
      var Filling(block, w, i) := s.producer;
      s.(buf := s.buf[(w + i) % n := block[i]], producer := Filling(block, w, i + 1))
    case Publish =>
      var Filling(block, w, _) := s.producer;
      s.(writePos := (w + |block|) % n, producer := Rest, accepted := s.accepted + block)
    case PeekWritePos => s.(consumer := SawWrite(s.writePos), seen := |s.accepted|)
    case CheckReady(frame) =>
      var avail := Distance(s.consumer.w, s.readPos, n);
      if !s.started && avail < s.prebuffer then s.(consumer := Wait)
      else if avail < frame then s.(consumer := Wait, started := true)
      else s.(consumer := Draining(s.readPos, frame, []), started := true)
    case CopyOut =>
      var Draining(r, frame, out) := s.consumer;
      s.(consumer := Draining(r, frame, out + [s.buf[(r + |out|) % n]]))
    case Release =>
      var Draining(r, frame, out) := s.consumer;
      s.(readPos := (r + frame) % n, consumer := Wait, delivered := s.delivered + out)
  }

  function Unread(s: State): int {
    |s.accepted| - |s.delivered|
  }

  /** This action publishes a block that leaves no slot free. */
  predicate FillsExactly(s: State, a: Action)
  {
    a == Publish && Enabled(s, a) && Unread(s) + |s.producer.block| == |s.buf|
  }

  /** `Do` over a whole interleaving; disabled actions are simply not schedulable. */
  predicate Schedulable(s: State, run: seq<Action>)
    requires 0 < |s.buf|
    decreases |run|
  {
    run == [] || (Enabled(s, run[0]) && Schedulable(Do(s, run[0]), run[1..]))
  }

  function After(s: State, run: seq<Action>): (t: State)
    requires 0 < |s.buf| && Schedulable(s, run)
    ensures |t.buf| == |s.buf|
    decreases |run|
  {
    if run == [] then s else After(Do(s, run[0]), run[1..])
  }

  predicate NeverFillsExactly(s: State, run: seq<Action>)
    requires 0 < |s.buf| && Schedulable(s, run)
    decreases |run|
  {
    run == [] || (!FillsExactly(s, run[0]) && NeverFillsExactly(Do(s, run[0]), run[1..]))
  }

  // ----- The invariant -----

  /** Everything in stream order, the part of the producer's block already copied included. */
  function Stream(s: State): seq<Sample> {
    s.accepted + if s.producer.Filling? && s.producer.i <= |s.producer.block|
                 then s.producer.block[..s.producer.i] else []
  }

  ghost predicate Inv(s: State) {
    var n := |s.buf|;
    var w := |s.accepted|;
    var r := |s.delivered|;
    && 0 < n
    && r <= w < r + n
    && s.writePos == w % n
    && s.readPos == r % n
    && s.delivered == s.accepted[..r]
    && (s.producer.LoadedWrite? ==> s.producer.w == w % n)
    && (s.producer.Filling? ==>
          && s.producer.w == w % n
          && s.producer.i <= |s.producer.block|
          && w + |s.producer.block| <= r + n)
    && (s.consumer.SawWrite? ==> r <= s.seen <= w && s.consumer.w == s.seen % n)
    && (s.consumer.Draining? ==>
          && s.consumer.r == r % n
          && |s.consumer.out| <= s.consumer.frame
          && r + s.consumer.frame <= w
          && s.consumer.out == s.accepted[r..r + |s.consumer.out|])
    && forall j: nat {:trigger Stream(s)[j]} :: r <= j < |Stream(s)| ==> s.buf[j % n] == Stream(s)[j]
  }

  /**
    The slot a producer writes is never one that holds a sample not yet
    released, whatever the consumer has done since the room was checked.
  */
  lemma CopyInSparesUnread(s: State, j: nat)
    requires Inv(s) && Enabled(s, CopyIn)
    requires |s.delivered| <= j < |Stream(s)|
    ensures (s.producer.w + s.producer.i) % |s.buf| != j % |s.buf|
    ensures (s.producer.w + s.producer.i) % |s.buf| == |Stream(s)| % |s.buf|
  {
    WrapAdd(|s.accepted|, s.producer.i, |s.buf|);
    SlotsDiffer(j, |Stream(s)|, |s.buf|);
  }

  lemma CopyInKeepsInv(s: State)
    requires Inv(s) && Enabled(s, CopyIn)
    ensures Inv(Do(s, CopyIn))
  {
    var n, t := |s.buf|, Do(s, CopyIn);
    var m := |Stream(s)|;
    assert Stream(t) == Stream(s) + [s.producer.block[s.producer.i]];
    WrapAdd(|s.accepted|, s.producer.i, n);
    forall j: nat | |s.delivered| <= j < |Stream(t)|
      ensures t.buf[j % n] == Stream(t)[j]
    {
      if j < m {
        CopyInSparesUnread(s, j);
        assert s.buf[j % n] == Stream(s)[j];
      }
    }
  }

  lemma PublishKeepsInv(s: State)
    requires Inv(s) && Enabled(s, Publish) && !FillsExactly(s, Publish)
    ensures Inv(Do(s, Publish))
  {
    var n, t := |s.buf|, Do(s, Publish);
    PublishedPositions(s);
    assert Stream(t) == Stream(s);
    assert t.delivered == t.accepted[..|s.delivered|];
    if s.consumer.Draining? {
      var r, k := |s.delivered|, |s.consumer.out|;
      assert t.accepted[r..r + k] == s.accepted[r..r + k];
    }
    forall j: nat | |t.delivered| <= j < |Stream(t)|
      ensures t.buf[j % n] == Stream(t)[j]
    {
      assert s.buf[j % n] == Stream(s)[j];
    }
  }

  lemma CheckRoomKeepsInv(s: State)
    requires Inv(s) && Enabled(s, CheckRoom)
    ensures Inv(Do(s, CheckRoom))
  {
    WrapDistance(|s.accepted|, |s.delivered|, |s.buf|);
    assert Stream(Do(s, CheckRoom)) == Stream(s);
  }

  lemma CopyOutKeepsInv(s: State)
    requires Inv(s) && Enabled(s, CopyOut)
    ensures Inv(Do(s, CopyOut))
  {
    var n, t, r, k := |s.buf|, Do(s, CopyOut), |s.delivered|, |s.consumer.out|;
    assert Stream(t) == Stream(s);
    WrapAdd(r, k, n);
    assert s.buf[(r + k) % n] == Stream(s)[r + k];
    assert t.consumer.out == s.accepted[r..r + k + 1];
  }

  lemma ReleaseKeepsInv(s: State)
    requires Inv(s) && Enabled(s, Release)
    ensures Inv(Do(s, Release))
  {
    var t := Do(s, Release);
    assert Stream(t) == Stream(s);
    WrapAdd(|s.delivered|, s.consumer.frame, |s.buf|);
    assert t.delivered == s.accepted[..|t.delivered|];
  }

  lemma CheckReadyKeepsInv(s: State, frame: nat)
    requires Inv(s) && Enabled(s, CheckReady(frame))
    ensures Inv(Do(s, CheckReady(frame)))
  {
    WrapDistance(s.seen, |s.delivered|, |s.buf|);
    assert Stream(Do(s, CheckReady(frame))) == Stream(s);
  }

  lemma StepKeepsInv(s: State, a: Action)
    requires Inv(s) && Enabled(s, a) && !FillsExactly(s, a)
    ensures Inv(Do(s, a))
  {
    match a
    case CopyIn => CopyInKeepsInv(s);
    case Publish => PublishKeepsInv(s);
    case CheckRoom => CheckRoomKeepsInv(s);
    case CopyOut => CopyOutKeepsInv(s);
    case Release => ReleaseKeepsInv(s);
    case CheckReady(frame) => CheckReadyKeepsInv(s, frame);
    case LoadWritePos(_) => assert Stream(Do(s, a)) == Stream(s);
    case PeekWritePos => assert Stream(Do(s, a)) == Stream(s);
  }

  lemma {:induction false} RunKeepsInv(s: State, run: seq<Action>)
    requires Inv(s) && Schedulable(s, run) && NeverFillsExactly(s, run)
    ensures Inv(After(s, run))
    decreases |run|
  {
    if run != [] {
      StepKeepsInv(s, run[0]);
      RunKeepsInv(Do(s, run[0]), run[1..]);
    }
  }

  // ----- Main results -----

  /**
    Over every interleaving in which no published block leaves the ring
    exactly full, the frames delivered are the accepted samples, in order and
    without gap or repetition, and every sample still unread is in its slot.
  */
  lemma Fifo(n: nat, prebuffer: nat, run: seq<Action>)
    requires 0 < n
    requires Schedulable(Init(n, prebuffer), run) && NeverFillsExactly(Init(n, prebuffer), run)
    ensures var t := After(Init(n, prebuffer), run);
            && t.delivered <= t.accepted
            && 0 <= Unread(t) < n
            && Distance(t.writePos, t.readPos, n) == Unread(t)
            && forall j: nat :: |t.delivered| <= j < |t.accepted| ==> t.buf[j % n] == t.accepted[j]
  {
    RunKeepsInv(Init(n, prebuffer), run);
    var t := After(Init(n, prebuffer), run);
    WrapDistance(|t.accepted|, |t.delivered|, n);
    forall j: nat | |t.delivered| <= j < |t.accepted|
      ensures t.buf[j % n] == t.accepted[j]
    {
      assert t.buf[j % n] == Stream(t)[j];
    }
  }

  /**
    The room check lets a block through that takes the last free slot, and
    then, and only then, the positions no longer tell how much is unread: the
    full ring looks empty.
  */
  lemma FullLooksEmpty(s: State)
    requires Inv(s) && Enabled(s, Publish)
    ensures var t := Do(s, Publish);
            && (Distance(t.writePos, t.readPos, |s.buf|) == Unread(t) <==> !FillsExactly(s, Publish))
            && (FillsExactly(s, Publish) ==> Unread(t) == |s.buf| && Distance(t.writePos, t.readPos, |s.buf|) == 0)
  {
    PublishedPositions(s);
    var t := Do(s, Publish);
    WrapDistance(|t.accepted|, |t.delivered|, |s.buf|);
  }

  lemma PublishedPositions(s: State)
    requires Inv(s) && Enabled(s, Publish)
    ensures var t, n := Do(s, Publish), |s.buf|;
            && t.writePos == |t.accepted| % n && t.readPos == |t.delivered| % n
            && |t.accepted| == |s.accepted| + |s.producer.block| && t.delivered == s.delivered
            && |t.delivered| <= |t.accepted| <= |t.delivered| + n
  {
    WrapAdd(|s.accepted|, |s.producer.block|, |s.buf|);
  }

  /** Both sides move whole multiples of `b` samples. */
  predicate WholeBlocks(run: seq<Action>, b: nat)
    requires 0 < b
  {
    forall a :: a in run ==>
      (a.LoadWritePos? ==> |a.block| % b == 0) && (a.CheckReady? ==> a.frame % b == 0)
  }

  ghost predicate Aligned(s: State, b: nat)
    requires 0 < b
  {
    && |s.accepted| % b == 0
    && |s.delivered| % b == 0
    && (!s.producer.Rest? ==> |s.producer.block| % b == 0)
    && (s.consumer.Draining? ==> s.consumer.frame % b == 0)
  }

  lemma {:induction false} WholeBlocksNeverFill(s: State, run: seq<Action>, b: nat)
    requires Inv(s) && 0 < b && Aligned(s, b) && Schedulable(s, run) && WholeBlocks(run, b)
    requires |s.buf| % b != 0
    ensures NeverFillsExactly(s, run)
    decreases |run|
  {
    if run != [] {
      WholeBlocksStep(s, run[0], b);
      StepKeepsInv(s, run[0]);
      WholeBlocksNeverFill(Do(s, run[0]), run[1..], b);
    }
  }

  lemma WholeBlocksStep(s: State, a: Action, b: nat)
    requires Inv(s) && 0 < b && Aligned(s, b) && Enabled(s, a) && WholeBlocks([a], b)
    requires |s.buf| % b != 0
    ensures !FillsExactly(s, a) && Aligned(Do(s, a), b)
  {
    assert a in [a];
    if s.producer.Filling? {
      MultiplesCombine(|s.accepted|, |s.producer.block|, b);
      MultiplesCombine(|s.accepted| + |s.producer.block|, |s.delivered|, b);
    }
    if s.consumer.Draining? {
      MultiplesCombine(|s.delivered|, s.consumer.frame, b);
    }
  }

  /** `run` is schedulable from `s`, in whole blocks of `b`, and fills the ring exactly. */
  predicate Overfills(s: State, run: seq<Action>, b: nat)
    requires 0 < b && 0 < |s.buf|
  {
    Schedulable(s, run) && WholeBlocks(run, b) && !NeverFillsExactly(s, run)
  }

  lemma OverfillsAfter(s: State, a: Action, run: seq<Action>, b: nat)
    requires 0 < b && 0 < |s.buf| && Enabled(s, a) && WholeBlocks([a], b)
    requires Overfills(Do(s, a), run, b)
    ensures Overfills(s, [a] + run, b)
  {
    var whole := [a] + run;
    assert whole[0] == a && whole[1..] == run;
    forall x | x in whole
      ensures (x.LoadWritePos? ==> |x.block| % b == 0) && (x.CheckReady? ==> x.frame % b == 0)
    {
      if x in run {
      } else {
        assert x in [a];
      }
    }
  }

  lemma OneBlockLess(k: nat, b: nat)
    requires 0 < k
    ensures k * b == (k - 1) * b + b
    ensures k > 1 ==> (k - 1) * b >= b
  {
    if k > 1 {
      assert (k - 2) * b >= 0;
    }
  }

  /** A resting producer with room for exactly `k` blocks can go on to fill the ring exactly. */
  lemma FillTheRest(s: State, block: seq<Sample>, k: nat) returns (run: seq<Action>)
    requires Inv(s) && 0 < |block| && 0 < k && s.producer.Rest?
    requires Unread(s) + k * |block| == |s.buf|
    ensures Overfills(s, run, |block|)
    decreases k, |block| + 1
  {
    var b := |block|;
    OneBlockLess(k, b);
    var load := LoadWritePos(block);
    StepKeepsInv(s, load);
    var s1 := Do(s, load);
    WrapDistance(|s1.accepted|, |s1.delivered|, |s1.buf|);
    StepKeepsInv(s1, CheckRoom);
    var rest := FillTheBlock(Do(s1, CheckRoom), block, k);
    OverfillsAfter(s1, CheckRoom, rest, b);
    RemainderIsUnique(b, 1, 0, b);
    OverfillsAfter(s, load, [CheckRoom] + rest, b);
    run := [load] + ([CheckRoom] + rest);
  }

  lemma FillTheBlock(s: State, block: seq<Sample>, k: nat) returns (run: seq<Action>)
    requires Inv(s) && 0 < |block| && 0 < k
    requires s.producer.Filling? && s.producer.block == block
    requires Unread(s) + k * |block| == |s.buf|
    ensures Overfills(s, run, |block|)
    decreases k, |block| - s.producer.i
  {
    var b := |block|;
    if s.producer.i < b {
      StepKeepsInv(s, CopyIn);
      var rest := FillTheBlock(Do(s, CopyIn), block, k);
      OverfillsAfter(s, CopyIn, rest, b);
      run := [CopyIn] + rest;
    } else if k == 1 {
      assert 1 * b == b;
      run := [Publish];
      assert FillsExactly(s, run[0]);
    } else {
      OneBlockLess(k, b);
      assert !FillsExactly(s, Publish);
      StepKeepsInv(s, Publish);
      var rest := FillTheRest(Do(s, Publish), block, k - 1);
      OverfillsAfter(s, Publish, rest, b);
      run := [Publish] + rest;
    }
  }

  /**
    When both sides move whole blocks of `b`, the ring can be filled exactly
    if and only if `b` divides its length. Both deployed rings, of 48000 and of
    144000 samples, are whole multiples of the 128-sample audio quantum.
  */
  lemma ExactFillReachableIff(n: nat, prebuffer: nat, b: nat)
    requires 0 < b && 0 < n
    ensures n % b == 0 <==> exists run :: Overfills(Init(n, prebuffer), run, b)
  {
    if n % b == 0 {
      assert n == (n / b) * b;
      var run := FillTheRest(Init(n, prebuffer), seq(b, i => 0.0), n / b);
      assert Overfills(Init(n, prebuffer), run, b);
    } else {
      forall run | Schedulable(Init(n, prebuffer), run) && WholeBlocks(run, b)
        ensures NeverFillsExactly(Init(n, prebuffer), run)
      {
        WholeBlocksNeverFill(Init(n, prebuffer), run, b);
      }
    }
  }

  // ----- What is delivered, and what is accepted -----

  /** The consumer copies the next `k` samples out and gives their slots back. */
  function CopyingOut(k: nat): seq<Action> {
    if k == 0 then [Release] else [CopyOut] + CopyingOut(k - 1)
  }

  /** One whole call of the consumer that finds a frame. */
  function TakeFrame(frame: nat): seq<Action> {
    [PeekWritePos, CheckReady(frame)] + CopyingOut(frame)
  }

  /** Two checks come before any copying. */
  lemma ChecksFirst(s: State, a: Action, b: Action, rest: seq<Action>)
    requires 0 < |s.buf| && Enabled(s, a) && Enabled(Do(s, a), b)
    ensures Schedulable(s, [a, b] + rest) <==> Schedulable(Do(Do(s, a), b), rest)
    ensures Schedulable(s, [a, b] + rest) ==> After(s, [a, b] + rest) == After(Do(Do(s, a), b), rest)
  {
    var run := [a, b] + rest;
    assert run[0] == a && run[1..] == [b] + rest;
    assert run[1..][0] == b && run[1..][1..] == rest;
  }

  lemma NothingToCopy(s: State, copies: seq<Action>)
    requires 0 < |s.buf| && copies != [] && !Enabled(s, copies[0])
    ensures !Schedulable(s, copies)
  {
  }

  /** Once it has begun, a frame is copied to its end. */
  lemma {:induction false} DrainsAll(s: State, k: nat)
    requires Inv(s) && s.consumer.Draining? && |s.consumer.out| + k == s.consumer.frame
    ensures Schedulable(s, CopyingOut(k))
    ensures var t, d := After(s, CopyingOut(k)), |s.delivered|;
            && t.delivered == s.delivered + s.accepted[d..d + s.consumer.frame]
            && t.accepted == s.accepted && t.started == s.started && t.consumer == Wait
    decreases k
  {
    var run := CopyingOut(k);
    if k == 0 {
      assert run[0] == Release && run[1..] == [];
    } else {
      assert run[0] == CopyOut && run[1..] == CopyingOut(k - 1);
      OneMoreOut(s);
      DrainsAll(Do(s, CopyOut), k - 1);
    }
  }

  lemma OneMoreOut(s: State)
    requires Inv(s) && s.consumer.Draining? && |s.consumer.out| < s.consumer.frame
    ensures var t := Do(s, CopyOut);
            && Inv(t) && t.consumer.Draining? && |t.consumer.out| == |s.consumer.out| + 1 && t.consumer.frame == s.consumer.frame
            && t.accepted == s.accepted && t.delivered == s.delivered && t.started == s.started
  {
    CopyOutKeepsInv(s);
  }

  /** What the two checks of a call decide. */
  lemma ChecksDecide(s: State, frame: nat)
    requires Inv(s) && s.consumer.Wait?
    ensures var s1 := Do(s, PeekWritePos);
            && Inv(s1) && Enabled(s1, CheckReady(frame))
            && var s2 := Do(s1, CheckReady(frame));
               && Inv(s2) && s2.accepted == s.accepted && s2.delivered == s.delivered
               && s2.started == (s.started || Unread(s) >= s.prebuffer)
               && if frame <= Unread(s) && s2.started
                  then s2.consumer.Draining? && s2.consumer.frame == frame && s2.consumer.out == []
                  else s2.consumer == Wait
  {
    var s1 := Do(s, PeekWritePos);
    StepKeepsInv(s, PeekWritePos);
    StepKeepsInv(s1, CheckReady(frame));
    WrapDistance(|s.accepted|, |s.delivered|, |s.buf|);
  }

  lemma CopiesIffDraining(s: State, frame: nat)
    requires Inv(s) && if s.consumer.Draining? then s.consumer.frame == frame && s.consumer.out == [] else s.consumer == Wait
    ensures Schedulable(s, CopyingOut(frame)) <==> s.consumer.Draining?
    ensures s.consumer.Draining? ==>
              var t, d := After(s, CopyingOut(frame)), |s.delivered|;
              && t.delivered == s.delivered + s.accepted[d..d + frame]
              && t.accepted == s.accepted && t.started == s.started && t.consumer == Wait
  {
    if s.consumer.Draining? {
      DrainsAll(s, frame);
    } else {
      NothingToCopy(s, CopyingOut(frame));
    }
  }

  /**
    A waiting consumer gets its frame if and only if that many samples are
    unread and playback has started or may start: then the frame is exactly the
    next samples.
  */
  lemma FrameIsDeliveredIff(s: State, frame: nat)
    requires Inv(s) && s.consumer.Wait?
    ensures Schedulable(s, TakeFrame(frame)) <==> frame <= Unread(s) && (s.started || Unread(s) >= s.prebuffer)
    ensures Schedulable(s, TakeFrame(frame)) ==>
              var t, d := After(s, TakeFrame(frame)), |s.delivered|;
              && t.delivered == s.delivered + s.accepted[d..d + frame]
              && t.accepted == s.accepted && t.started && t.consumer == Wait
  {
    var copies := CopyingOut(frame);
    var s1 := Do(s, PeekWritePos);
    var s2 := Do(s1, CheckReady(frame));
    ChecksDecide(s, frame);
    ChecksFirst(s, PeekWritePos, CheckReady(frame), copies);
    CopiesIffDraining(s2, frame);
  }

  function CopyingIn(k: nat): seq<Action> {
    if k == 0 then [Publish] else [CopyIn] + CopyingIn(k - 1)
  }

  /** One whole call of the producer that finds room. */
  function OfferBlock(block: seq<Sample>): seq<Action> {
    [LoadWritePos(block), CheckRoom] + CopyingIn(|block|)
  }

  lemma {:induction false} FillsAll(s: State, k: nat)
    requires Inv(s) && s.producer.Filling? && s.producer.i + k == |s.producer.block|
    ensures Schedulable(s, CopyingIn(k))
    ensures var t := After(s, CopyingIn(k));
            t.accepted == s.accepted + s.producer.block && t.delivered == s.delivered && t.producer == Rest
    decreases k
  {
    var run, a := CopyingIn(k), if k == 0 then Publish else CopyIn;
    assert run[0] == a && run[1..] == if k == 0 then [] else CopyingIn(k - 1);
    if k > 0 {
      StepKeepsInv(s, a);
      FillsAll(Do(s, a), k - 1);
    }
  }

  /** A resting producer's block is accepted, whole, if and only if it is no longer than the free room. */
  lemma BlockIsAcceptedIff(s: State, block: seq<Sample>)
    requires Inv(s) && s.producer.Rest?
    ensures Schedulable(s, OfferBlock(block)) <==> |block| <= |s.buf| - Unread(s)
    ensures Schedulable(s, OfferBlock(block)) ==>
              var t := After(s, OfferBlock(block));
              t.accepted == s.accepted + block && t.delivered == s.delivered && t.producer == Rest
  {
    var copies := CopyingIn(|block|);
    var s1 := Do(s, LoadWritePos(block));
    var s2 := Do(s1, CheckRoom);
    RoomIsChecked(s, block);
    ChecksFirst(s, LoadWritePos(block), CheckRoom, copies);
    if s2.producer.Filling? {
      FillsAll(s2, |block|);
    } else {
      NothingToCopy(s2, copies);
    }
  }

  lemma RoomIsChecked(s: State, block: seq<Sample>)
    requires Inv(s) && s.producer.Rest?
    ensures var s1 := Do(s, LoadWritePos(block));
            && Inv(s1) && Enabled(s1, CheckRoom)
            && var s2 := Do(s1, CheckRoom);
               && Inv(s2) && s2.accepted == s.accepted && s2.delivered == s.delivered
               && if |block| <= |s.buf| - Unread(s)
                  then s2.producer.Filling? && s2.producer.block == block && s2.producer.i == 0
                  else s2.producer == Rest
  {
    var s1 := Do(s, LoadWritePos(block));
    StepKeepsInv(s, LoadWritePos(block));
    StepKeepsInv(s1, CheckRoom);
    WrapDistance(|s.accepted|, |s.delivered|, |s.buf|);
  }

  // ----- Flushing -----

  /**
    Before it gives a speaker's ring up, the main thread stores the read
    position it has just loaded as the write position. The producer writes
    nothing after that.
  */
  function Flushed(s: State, loaded: nat): State {
    s.(writePos := loaded)
  }

  predicate OnlyConsumes(run: seq<Action>) {
    forall a :: a in run ==> a.PeekWritePos? || a.CheckReady? || a.CopyOut? || a.Release?
  }

  /** The consumer goes on with what it has begun, and does not look at the write position again. */
  predicate OnlyFinishes(run: seq<Action>) {
    OnlyConsumes(run) && PeekWritePos !in run
  }

  lemma {:induction false} ConsumingTakes(s: State, run: seq<Action>)
    requires Inv(s) && Schedulable(s, run) && OnlyConsumes(run)
    ensures Inv(After(s, run))
    ensures After(s, run).accepted == s.accepted && |s.delivered| <= |After(s, run).delivered|
    decreases |run|
  {
    if run != [] {
      assert run[0] in run;
      StepKeepsInv(s, run[0]);
      ConsumingTakes(Do(s, run[0]), run[1..]);
    }
  }

  /** What the consumer has begun does not depend on the write position. */
  lemma {:induction false} FinishingIgnoresFlush(s: State, loaded: nat, run: seq<Action>)
    requires 0 < |s.buf| && Schedulable(Flushed(s, loaded), run) && OnlyFinishes(run)
    ensures Schedulable(s, run) && After(Flushed(s, loaded), run) == Flushed(After(s, run), loaded)
    decreases |run|
  {
    if run != [] {
      assert run[0] in run;
      assert Do(Flushed(s, loaded), run[0]) == Flushed(Do(s, run[0]), loaded);
      FinishingIgnoresFlush(Do(s, run[0]), loaded, run[1..]);
    }
  }

  /**
    The flush races with the consumer. `between` is what the consumer does
    between the flush's load and its store, `later` what it has begun by then and
    finishes. The ring then looks empty if and only if no sample was taken
    meanwhile; a frame taken leaves the rest of a lap to be played again.
  */
  lemma FlushEmptiesIff(s: State, between: seq<Action>, later: seq<Action>)
    requires Inv(s) && s.producer.Rest?
    requires Schedulable(s, between) && OnlyConsumes(between)
    requires Schedulable(Flushed(After(s, between), s.readPos), later) && OnlyFinishes(later)
    ensures var end, n := After(Flushed(After(s, between), s.readPos), later), |s.buf|;
            var taken := |end.delivered| - |s.delivered|;
            && 0 <= taken < n
            && (Distance(end.writePos, end.readPos, n) == 0 <==> taken == 0)
            && (taken > 0 ==> Distance(end.writePos, end.readPos, n) == n - taken)
  {
    var t := After(s, between);
    ConsumingTakes(s, between);
    FinishingIgnoresFlush(t, s.readPos, later);
    ConsumingTakes(t, later);
    FlushLeaves(s, After(t, later));
  }

  lemma FlushLeaves(s: State, e: State)
    requires Inv(s) && Inv(e) && |e.buf| == |s.buf| && e.accepted == s.accepted && |s.delivered| <= |e.delivered|
    ensures var n, taken := |s.buf|, |e.delivered| - |s.delivered|;
            && 0 <= taken < n
            && Distance(Flushed(e, s.readPos).writePos, e.readPos, n) == if taken == 0 then 0 else n - taken
  {
    DistanceBehind(|s.delivered|, |e.delivered|, |s.buf|);
  }

  lemma DistanceBehind(before: nat, now: nat, n: nat)
    requires before <= now < before + n
    ensures (before % n - now % n + n) % n == if now == before then 0 else n - (now - before)
  {
    if now == before {
      WrapDistance(before, before, n);
    } else {
      WrapBack(before, now - before, n);
    }
  }

  /** Seen from ahead, a position is the rest of a lap away. */
  lemma WrapBack(r: nat, taken: nat, n: nat)
    requires 0 < taken < n
    ensures (r % n - (r + taken) % n + n) % n == n - taken
  {
    WrapDistance(r + n, r + taken, n);
    RemainderIsUnique(r + n, r / n + 1, r % n, n);
  }

  /** Such a race is reachable: a frame that is being copied when the flush stores is released after it. */
  lemma FlushDuringDrain(s: State)
    requires Inv(s) && s.producer.Rest? && s.consumer.Draining? && |s.consumer.out| == s.consumer.frame > 0
    ensures var f := Flushed(s, s.readPos);
            && Schedulable(f, [Release])
            && Distance(After(f, [Release]).writePos, After(f, [Release]).readPos, |s.buf|) == |s.buf| - s.consumer.frame
  {
    var f := Flushed(s, s.readPos);
    assert Schedulable(Do(f, Release), []);
    FlushEmptiesIff(s, [], [Release]);
  }
}
