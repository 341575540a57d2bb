/**
 * Landmark quantisation (crates/diaspor-vision/src/score.rs) and the pose tensor layout
 * (crates/diaspor-vision/src/pose_rtmpose.rs), with `f32` modelled as real numbers.
 */
module Vision {
  import opened Common

  // ---------------------------------------------------------------- INT8 landmark code

  function ClampUnit(x: real): real { if x < -1.0 then -1.0 else if x > 1.0 then 1.0 else x }

  /** A float-to-integer cast: truncation toward zero. */
  function Truncate(x: real): int { if x >= 0.0 then x.Floor else -((-x).Floor) }

  function QuantizeI8(value: real): Byte
  {
    var scaled := ClampUnit(value) * 127.0;
    var rounded := scaled + if scaled >= 0.0 then 0.5 else -0.5;
    var n := Truncate(rounded);
    (if n < -127 then -127 else if n > 127 then 127 else n) + 128
  }

  /** The documented inverse: `(byte - 128) / 127`. */
  function Dequantize(b: Byte): real { (b - 128) as real / 127.0 }

  /** The code is the nearest integer to the scaled value. */
  lemma {:induction false} QuantizeRounds(x: real)
    ensures 1 <= QuantizeI8(x) <= 255
    ensures -0.5 <= (QuantizeI8(x) - 128) as real - ClampUnit(x) * 127.0 <= 0.5
  {
    var scaled := ClampUnit(x) * 127.0;
    assert -127.0 <= scaled <= 127.0;
  }

  /** Monotone and antisymmetric about 128. */
  lemma {:induction false} QuantizeShape(x: real, y: real)
    ensures x <= y ==> QuantizeI8(x) <= QuantizeI8(y)
    ensures QuantizeI8(-x) == 256 - QuantizeI8(x)
  {
    assert -127.0 <= ClampUnit(x) * 127.0 <= 127.0;
    assert x <= y ==> ClampUnit(x) * 127.0 <= ClampUnit(y) * 127.0;
    assert ClampUnit(-x) * 127.0 == -(ClampUnit(x) * 127.0);
  }

  /** Every code from 1 to 255 decodes and encodes back to itself; every value decodes within 1/254. */
  lemma {:induction false} QuantizeRoundTrips(b: Byte, x: real)
    requires b >= 1
    ensures QuantizeI8(Dequantize(b)) == b
    ensures -1.0 / 254.0 <= Dequantize(QuantizeI8(x)) - ClampUnit(x) <= 1.0 / 254.0
  {
    assert Dequantize(b) * 127.0 == (b - 128) as real;
    assert ClampUnit(Dequantize(b)) == Dequantize(b);
    QuantizeRounds(Dequantize(b));
    QuantizeRounds(x);
  }

  datatype Landmark = Landmark(x: real, y: real, z: real)

  function Axis(l: Landmark, axis: nat): real { if axis == 0 then l.x else if axis == 1 then l.y else l.z }

  /** Three bytes per landmark, in axis order; decoding byte `3i + axis` recovers that coordinate within 1/254. */
  method FromFace(landmarks: seq<Landmark>) returns (quantized: seq<Byte>)
    ensures |quantized| == 3 * |landmarks|
    ensures forall i :: 0 <= i < |landmarks| ==>
              && quantized[3 * i] == QuantizeI8(landmarks[i].x)
              && quantized[3 * i + 1] == QuantizeI8(landmarks[i].y)
              && quantized[3 * i + 2] == QuantizeI8(landmarks[i].z)
    ensures forall i, axis :: 0 <= i < |landmarks| && 0 <= axis < 3 ==>
              && quantized[3 * i + axis] == QuantizeI8(Axis(landmarks[i], axis))
              && -1.0 / 254.0 <= Dequantize(quantized[3 * i + axis]) - ClampUnit(Axis(landmarks[i], axis)) <= 1.0 / 254.0
  {
    quantized := [];
    for n := 0 to |landmarks|
      invariant |quantized| == 3 * n
      invariant forall i, axis :: 0 <= i < n && 0 <= axis < 3 ==>
                  quantized[3 * i + axis] == QuantizeI8(Axis(landmarks[i], axis))
    {
      var l := landmarks[n];
      quantized := quantized + [QuantizeI8(l.x)];
      quantized := quantized + [QuantizeI8(l.y)];
      quantized := quantized + [QuantizeI8(l.z)];
    }
    forall i | 0 <= i < |landmarks|
      ensures quantized[3 * i] == QuantizeI8(landmarks[i].x)
      ensures quantized[3 * i + 1] == QuantizeI8(landmarks[i].y)
      ensures quantized[3 * i + 2] == QuantizeI8(landmarks[i].z)
    {
      assert quantized[3 * i + 0] == QuantizeI8(Axis(landmarks[i], 0));
      assert quantized[3 * i + 1] == QuantizeI8(Axis(landmarks[i], 1));
      assert quantized[3 * i + 2] == QuantizeI8(Axis(landmarks[i], 2));
    }
    forall i, axis | 0 <= i < |landmarks| && 0 <= axis < 3
      ensures -1.0 / 254.0 <= Dequantize(quantized[3 * i + axis]) - ClampUnit(Axis(landmarks[i], axis)) <= 1.0 / 254.0
    {
      QuantizeRoundTrips(1, Axis(landmarks[i], axis));
    }
  }

  // ---------------------------------------------------------------- HWC to CHW

  function Mean(c: nat): real { if c == 0 then 0.485 else if c == 1 then 0.456 else 0.406 }

  function Std(c: nat): (s: real)
    ensures s > 0.0
  {
    if c == 0 then 0.229 else if c == 1 then 0.224 else 0.225
  }

  function Normalize(c: nat, v: Byte): real { (v as real / 255.0 - Mean(c)) / Std(c) }

  function Denormalize(c: nat, v: real): real { (v * Std(c) + Mean(c)) * 255.0 }

  /** Where output element `n` comes from in the interleaved input; `plane` is height times width. */
  function SourceIndex(plane: nat, n: nat): nat
    requires plane > 0
  {
    (n % plane) * 3 + n / plane
  }

  /** Where input byte `i` goes in the planar output. */
  function TargetIndex(plane: nat, i: nat): nat { (i % 3) * plane + i / 3 }

  lemma {:induction false} ProductAtLeast(k: int, plane: nat)
    requires k >= 1
    ensures k * plane >= plane
  {
    assert (k - 1) * plane >= 0;
    assert k * plane == (k - 1) * plane + plane;
  }

  /** A number has one quotient and one remainder. */
  lemma {:induction false} QuotientUnique(plane: nat, q: int, r: int, c: int, p: int)
    requires 0 <= r < plane && 0 <= p < plane && q * plane + r == c * plane + p
    ensures q == c && r == p
  {
    if q > c {
      ProductAtLeast(q - c, plane);
    } else if q < c {
      ProductAtLeast(c - q, plane);
    }
  }

  lemma {:induction false} DivModUnique(plane: nat, c: nat, p: nat)
    requires p < plane
    ensures (c * plane + p) / plane == c && (c * plane + p) % plane == p
  {
    var n := c * plane + p;
    var q, r := n / plane, n % plane;
    assert q * plane + r == n;
    QuotientUnique(plane, q, r, c, p);
  }

  lemma {:induction false} QuotientBelow(plane: nat, n: nat)
    requires n < 3 * plane
    ensures n / plane < 3
  {
    var q, r := n / plane, n % plane;
    assert q * plane + r == n;
    if q >= 3 {
      ProductAtLeast(q - 2, plane);
    }
  }

  /** Going to the output and back is the identity on input indices. */
  lemma {:induction false} TargetThenSource(plane: nat, i: nat)
    requires i < 3 * plane
    ensures TargetIndex(plane, i) < 3 * plane && SourceIndex(plane, TargetIndex(plane, i)) == i
  {
    var c, p := i % 3, i / 3;
    assert i == 3 * p + c && p < plane;
    DivModUnique(plane, c, p);
    assert c == 0 || c == 1 || c == 2;
  }

  /** Going to the input and back is the identity on output indices. */
  lemma {:induction false} SourceThenTarget(plane: nat, n: nat)
    requires n < 3 * plane
    ensures SourceIndex(plane, n) < 3 * plane && TargetIndex(plane, SourceIndex(plane, n)) == n
  {
    QuotientBelow(plane, n);
    var c, p := n / plane, n % plane;
    assert n == c * plane + p;
    var i := p * 3 + c;
    assert i % 3 == c && i / 3 == p;
  }

  datatype EncodeError = MalformedInput(expected: nat, got: nat)

  method EncodeImagenetChw(rgb: seq<Byte>, height: nat, width: nat) returns (r: Result<seq<real>, EncodeError>)
    ensures |rgb| != height * width * 3 ==> r == Err(MalformedInput(height * width * 3, |rgb|))
    ensures |rgb| == height * width * 3 ==>
              && r.Ok? && |r.value| == 3 * (height * width)
              && forall n :: 0 <= n < |r.value| ==>
                   SourceIndex(height * width, n) < |rgb| &&
                   r.value[n] == Normalize(n / (height * width), rgb[SourceIndex(height * width, n)])
  {
    var plane := height * width;
    if |rgb| != height * width * 3 {
      return Err(MalformedInput(height * width * 3, |rgb|));
    }
    var out: seq<real> := [];
    for c := 0 to 3
      invariant |out| == c * plane
      invariant Placed(rgb, plane, out)
    {
      for y := 0 to height
        invariant |out| == c * plane + y * width
        invariant Placed(rgb, plane, out)
      {
        for x := 0 to width
          invariant |out| == c * plane + y * width + x
          invariant Placed(rgb, plane, out)
        {
          RowInPlane(height, width, y, x);
          PlacedSnoc(rgb, plane, out, c, y * width + x);
          var pixelOff := (y * width + x) * 3 + c;
          out := out + [Normalize(c, rgb[pixelOff])];
        }
        assert (y + 1) * width == y * width + width;
      }
    }
    r := Ok(out);
  }

  predicate Placed(rgb: seq<Byte>, plane: nat, out: seq<real>)
  {
    forall n :: 0 <= n < |out| ==>
      plane > 0 && SourceIndex(plane, n) < |rgb| && out[n] == Normalize(n / plane, rgb[SourceIndex(plane, n)])
  }

  lemma {:induction false} PlacedSnoc(rgb: seq<Byte>, plane: nat, out: seq<real>, c: nat, p: nat)
    requires Placed(rgb, plane, out) && p < plane && c < 3 && |rgb| == 3 * plane && |out| == c * plane + p
    ensures p * 3 + c < |rgb| && Placed(rgb, plane, out + [Normalize(c, rgb[p * 3 + c])])
  {
    DivModUnique(plane, c, p);
    var more := out + [Normalize(c, rgb[p * 3 + c])];
    assert SourceIndex(plane, |out|) == p * 3 + c;
    forall n | 0 <= n < |more|
      ensures SourceIndex(plane, n) < |rgb| && more[n] == Normalize(n / plane, rgb[SourceIndex(plane, n)])
    {
      if n < |out| {
        assert more[n] == out[n];
      }
    }
  }

  lemma {:induction false} RowInPlane(height: nat, width: nat, y: nat, x: nat)
    requires y < height && x < width
    ensures 0 <= y * width + x < height * width
  {
    assert (y + 1) * width <= height * width;
  }

  /** The encoding loses nothing: every input byte is recovered from its place in the output. */
  lemma {:induction false} EncodingIsRecoverable(rgb: seq<Byte>, plane: nat, out: seq<real>, i: nat)
    requires |rgb| == 3 * plane && |out| == 3 * plane && Placed(rgb, plane, out) && i < |rgb|
    ensures TargetIndex(plane, i) < |out| && Denormalize(i % 3, out[TargetIndex(plane, i)]) == rgb[i] as real
  {
    TargetThenSource(plane, i);
    DivModUnique(plane, i % 3, i / 3);
    var v := out[TargetIndex(plane, i)];
    assert v == Normalize(i % 3, rgb[i]);
    assert v * Std(i % 3) == rgb[i] as real / 255.0 - Mean(i % 3);
  }

  /** The published constants: mean 0.485, 0.456, 0.406 and deviation 0.229, 0.224, 0.225 of the scaled byte. */
  lemma {:induction false} NormalizeIs(v: Byte)
    ensures Normalize(0, v) * 0.229 + 0.485 == v as real / 255.0
    ensures Normalize(1, v) * 0.224 + 0.456 == v as real / 255.0
    ensures Normalize(2, v) * 0.225 + 0.406 == v as real / 255.0
  {
  }

  /** Channel, row and column: the value of a pixel stands at `c * h * w + y * w + x`. */
  lemma {:induction false} PixelPlace(rgb: seq<Byte>, height: nat, width: nat, out: seq<real>, c: nat, y: nat, x: nat)
    requires |rgb| == 3 * (height * width) && |out| == 3 * (height * width) && Placed(rgb, height * width, out)
    requires c < 3 && y < height && x < width
    ensures 0 <= c * (height * width) + (y * width + x) < |out| && 0 <= (y * width + x) * 3 + c < |rgb|
    ensures out[c * (height * width) + (y * width + x)] == Normalize(c, rgb[(y * width + x) * 3 + c])
  {
    RowInPlane(height, width, y, x);
    var plane, p := height * width, y * width + x;
    DivModUnique(plane, c, p);
    assert c == 0 || c == 1 || c == 2;
    assert SourceIndex(plane, c * plane + p) == p * 3 + c;
  }

  // ---------------------------------------------------------------- heatmap decoding

  const HEATMAP_WIDTH: nat := 48
  const HEATMAP_HEIGHT: nat := 64
  const CHANNEL: nat := 64 * 48
  const KEYPOINTS: nat := 17
  const SLOTS: nat := 33

  /** The body-model slot of each detector keypoint. */
  const SLOT_OF: seq<nat> := [0, 2, 5, 7, 8, 11, 12, 13, 14, 15, 16, 23, 24, 25, 26, 27, 28]

  datatype Keypoint = Keypoint(x: real, y: real, z: real, visibility: real)

  const ABSENT := Keypoint(0.0, 0.0, 0.0, 0.0)

  predicate IsFirstMaximum(channel: seq<real>, at: nat)
  {
    && at < |channel|
    && (forall i :: 0 <= i < |channel| ==> channel[i] <= channel[at])
    && (forall i :: 0 <= i < at ==> channel[i] < channel[at])
  }

  method ArgmaxChannel(channel: seq<real>) returns (y: nat, x: nat, value: real)
    requires |channel| == CHANNEL
    ensures IsFirstMaximum(channel, y * HEATMAP_WIDTH + x) && value == channel[y * HEATMAP_WIDTH + x]
    ensures x < HEATMAP_WIDTH && y < HEATMAP_HEIGHT
  {
    // None stands for the initial negative infinity.
    var best: Option<real>, bestIdx := None, 0;
    for i := 0 to |channel|
      invariant i == 0 <==> best.None?
      invariant i > 0 ==> bestIdx < i && best == Some(channel[bestIdx]) && IsFirstMaximum(channel[..i], bestIdx)
    {
      assert channel[..i + 1] == channel[..i] + [channel[i]];
      if best.None? || channel[i] > best.value {
        best := Some(channel[i]);
        bestIdx := i;
      }
    }
    assert channel[..|channel|] == channel;
    y, x, value := bestIdx / HEATMAP_WIDTH, bestIdx % HEATMAP_WIDTH, best.value;
  }

  function Clamp01(v: real): real { if v < 0.0 then 0.0 else if v > 1.0 then 1.0 else v }

  function ChannelOf(heatmap: seq<real>, k: nat): seq<real>
    requires |heatmap| == KEYPOINTS * CHANNEL && k < KEYPOINTS
  {
    heatmap[k * CHANNEL..(k + 1) * CHANNEL]
  }

  /** The keypoint is the first maximum of the channel, at its place in the unit square. */
  ghost predicate Locates(channel: seq<real>, kp: Keypoint)
  {
    exists at: nat :: IsFirstMaximum(channel, at) &&
      kp == Keypoint(((at % HEATMAP_WIDTH) * 4) as real / 192.0, ((at / HEATMAP_WIDTH) * 4) as real / 256.0,
                     0.0, Clamp01(channel[at]))
  }

  predicate InUnit(v: real) { 0.0 <= v < 1.0 }

  lemma {:induction false} SlotsAreDistinct()
    ensures |SLOT_OF| == KEYPOINTS
    ensures forall k :: 0 <= k < KEYPOINTS ==> SLOT_OF[k] < SLOTS
    ensures forall k, j :: 0 <= k < j < KEYPOINTS ==> SLOT_OF[k] < SLOT_OF[j]
  {
  }

  /** The joints of the detector, in its order. */
  datatype Joint =
    | Nose | LeftEye | RightEye | LeftEar | RightEar | LeftShoulder | RightShoulder | LeftElbow | RightElbow
    | LeftWrist | RightWrist | LeftHip | RightHip | LeftKnee | RightKnee | LeftAnkle | RightAnkle

  function DetectorIndex(j: Joint): nat
  {
    match j
    case Nose => 0 case LeftEye => 1 case RightEye => 2 case LeftEar => 3 case RightEar => 4
    case LeftShoulder => 5 case RightShoulder => 6 case LeftElbow => 7 case RightElbow => 8
    case LeftWrist => 9 case RightWrist => 10 case LeftHip => 11 case RightHip => 12
    case LeftKnee => 13 case RightKnee => 14 case LeftAnkle => 15 case RightAnkle => 16
  }

  /** The slot of the joint in the published body topology: left before right from the shoulders down. */
  function BodySlot(j: Joint): nat
  {
    match j
    case Nose => 0 case LeftEye => 2 case RightEye => 5 case LeftEar => 7 case RightEar => 8
    case LeftShoulder => 11 case RightShoulder => 12 case LeftElbow => 13 case RightElbow => 14
    case LeftWrist => 15 case RightWrist => 16 case LeftHip => 23 case RightHip => 24
    case LeftKnee => 25 case RightKnee => 26 case LeftAnkle => 27 case RightAnkle => 28
  }

  /** The table sends every joint of the detector to its slot of the body topology. */
  lemma {:induction false} SlotsAreJoints(j: Joint)
    ensures DetectorIndex(j) < |SLOT_OF| && SLOT_OF[DetectorIndex(j)] == BodySlot(j)
  {
  }

  datatype DecodeError = PoseFailed

  const SHAPE: seq<nat> := [1, KEYPOINTS, HEATMAP_HEIGHT, HEATMAP_WIDTH]

  /** Slot of keypoint `k` holds the first maximum of channel `k`, inside the half-open unit square. */
  ghost predicate SlotHolds(heatmap: seq<real>, frame: seq<Keypoint>, k: nat)
    requires |heatmap| == KEYPOINTS * CHANNEL && k < KEYPOINTS
  {
    && |frame| == SLOTS && |SLOT_OF| == KEYPOINTS && SLOT_OF[k] < SLOTS
    && Locates(ChannelOf(heatmap, k), frame[SLOT_OF[k]])
    && InUnit(frame[SLOT_OF[k]].x) && InUnit(frame[SLOT_OF[k]].y) && 0.0 <= frame[SLOT_OF[k]].visibility <= 1.0
  }

  /**
   * A tensor of the wrong shape, type or length is refused. Otherwise each of the 17 mapped
   * slots holds the first maximum of its own channel and the other 16 slots stay empty.
   */
  method DecodeHeatmap(shape: seq<nat>, isF32: bool, heatmap: seq<real>) returns (r: Result<seq<Keypoint>, DecodeError>)
    ensures r.Ok? <==> shape == SHAPE && isF32 && |heatmap| == KEYPOINTS * CHANNEL
    ensures r.Ok? ==> forall k :: 0 <= k < KEYPOINTS ==> SlotHolds(heatmap, r.value, k)
    ensures r.Ok? ==> |r.value| == SLOTS && forall s :: 0 <= s < SLOTS && s !in SLOT_OF ==> r.value[s] == Keypoint(0.0, 0.0, 0.0, 0.0)
  {
    if shape != SHAPE || !isF32 || |heatmap| != KEYPOINTS * CHANNEL {
      return Err(PoseFailed);
    }
    var frame := seq(SLOTS, _ => ABSENT);
    SlotsAreDistinct();
    for k := 0 to KEYPOINTS
      invariant |frame| == SLOTS
      invariant forall j :: 0 <= j < k ==> SlotHolds(heatmap, frame, j)
      invariant forall s :: 0 <= s < SLOTS && s !in SLOT_OF ==> frame[s] == ABSENT
    {
      var channel := ChannelOf(heatmap, k);
      var peakY, peakX, peak := ArgmaxChannel(channel);
      var kp := Keypoint((peakX * 4) as real / 192.0, (peakY * 4) as real / 256.0, 0.0, Clamp01(peak));
      var at := peakY * HEATMAP_WIDTH + peakX;
      assert at % HEATMAP_WIDTH == peakX && at / HEATMAP_WIDTH == peakY;
      assert Locates(channel, kp);
      ghost var before := frame;
      frame := frame[SLOT_OF[k] := kp];
      forall j | 0 <= j < k
        ensures SlotHolds(heatmap, frame, j)
      {
        assert SlotHolds(heatmap, before, j);
        assert SLOT_OF[j] < SLOT_OF[k];
      }
      assert SlotHolds(heatmap, frame, k);
    }
    r := Ok(frame);
  }
}
