/** The batch animation kernels and their dispatcher. A batch is a flat
    input buffer of six-float entries (offset, intensity, originalY,
    wobbleBoost, param1, param2) and a flat output buffer of four-float
    results. The stateful kernels keep per-object state in param1 and
    param2 (slots 4 and 5 of an entry) from one frame to the next. The
    trigonometric library calls are parameters of the model. */
module AnimationBatch {
  import opened RealMath

  /** sinf, cosf and x |-> 1 / sqrtf(x), left uninterpreted. */
  datatype Trig = Trig(sin: real -> real, cos: real -> real, invSqrt: real -> real)

  /** One six-float input entry. */
  datatype Entry = Entry(offset: real, intensity: real, originalY: real, wobbleBoost: real,
                         param1: real, param2: real)

  /** One four-float output result. */
  datatype Out = Out(a: real, b: real, c: real, d: real)

  /** What one kernel does to one entry: the new param1 and param2 (equal
      to the old ones where the kernel does not store state) and the
      result. */
  datatype StepResult = StepResult(param1: real, param2: real, out: Out)

  /** A kernel together with its per-call arguments. */
  datatype Kernel =
    | SnareSnap(snareTrigger: real)
    | Accordion(intensity: real)
    | FiberWhip(leadVol: real, isActive: int)
    | SpiralWave(intensity: real, groove: real)
    | VibratoShake(vibratoAmount: real, intensity: real)
    | TremoloPulse(tremoloAmount: real, intensity: real)
    | CymbalShake(highFreq: real, intensity: real)
    | PanningBob(panActivity: real, intensity: real)
    | SpiritFade(volume: real, delta: real)

  /** The kernels that store state back into slot 4 (param1). */
  predicate WritesParam1(k: Kernel)
  {
    k.SnareSnap? || k.CymbalShake? || k.SpiritFade?
  }

  /** The kernels that store state back into slot 5 (param2). */
  predicate WritesParam2(k: Kernel)
  {
    k.CymbalShake? || k.PanningBob? || k.SpiritFade?
  }

  // ---------------------------------------------------------------------
  // State rules of the stateful kernels
  // ---------------------------------------------------------------------

  /** Snare snap state: a trigger above 0.2 snaps a settled state (below
      0.2) to 1 and leaves a state still snapping alone; without a trigger
      the state decays by 0.1 down to 0. A state in [0, 1] stays there. */
  function SnapState(snareTrigger: real, state: real): (s: real)
    ensures snareTrigger > 0.2 && state < 0.2 ==> s == 1.0
    ensures snareTrigger > 0.2 && state >= 0.2 ==> s == state
    ensures snareTrigger <= 0.2 ==> s == Max(0.0, state - 0.1)
    ensures 0.0 <= state <= 1.0 ==> 0.0 <= s <= 1.0
  {
    if snareTrigger > 0.2 then
      if state < 0.2 then 1.0 else state
    else Max(0.0, state - 0.1)
  }

  /** The snare state after n frames without a trigger. */
  function QuietSnap(state: real, n: nat): real
    decreases n
  {
    if n == 0 then state else QuietSnap(SnapState(0.0, state), n - 1)
  }

  /** Without a trigger the snap state falls by 0.1 per frame to 0 and
      stays there. */
  lemma {:induction false} QuietSnapDecays(state: real, n: nat)
    requires state >= 0.0
    ensures QuietSnap(state, n) == Max(0.0, state - 0.1 * n as real)
    decreases n
  {
    if n > 0 {
      QuietSnapDecays(Max(0.0, state - 0.1), n - 1);
    }
  }

  /** Cymbal rotation: above 0.05 of high-frequency energy the rotation is
      replaced by the jitter value; below, it settles by 10%. */
  function CymbalRotation(highFreq: real, rot: real, jitter: real): (r: real)
    ensures highFreq > 0.05 ==> r == jitter
    ensures highFreq <= 0.05 ==> r == 0.9 * rot && (rot == 0.0 || (Between(r, 0.0, rot) && r != rot))
  {
    if highFreq > 0.05 then jitter else rot * 0.9
  }

  /** The cymbal rotation after n calm frames. */
  function CalmCymbal(highFreq: real, rot: real, n: nat): real
    requires highFreq <= 0.05
    decreases n
  {
    if n == 0 then rot else CalmCymbal(highFreq, CymbalRotation(highFreq, rot, 0.0), n - 1)
  }

  /** n calm frames scale the stored rotation by 0.9^n. */
  lemma {:induction false} CalmCymbalSettles(highFreq: real, rot: real, n: nat)
    requires highFreq <= 0.05
    ensures CalmCymbal(highFreq, rot, n) == Pow(0.9, n) * rot
    decreases n
  {
    if n > 0 {
      CalmCymbalSettles(highFreq, 0.9 * rot, n - 1);
      assert Pow(0.9, n - 1) * (0.9 * rot) == 0.9 * Pow(0.9, n - 1) * rot;
      PowStep(0.9, n);
    }
  }

  /** Cymbal scale: 1 up to 0.4 of high-frequency energy, then growing by
      half the excess; never below 1. */
  function CymbalScale(highFreq: real): (s: real)
    ensures s >= 1.0
    ensures s == 1.0 <==> highFreq <= 0.4
    ensures highFreq > 0.4 ==> s - 1.0 == (highFreq - 0.4) / 2.0
  {
    if highFreq > 0.4 then 1.0 + (highFreq - 0.4) * 0.5 else 1.0
  }

  /** Panning bob: the stored bob moves a tenth of the way toward the pan
      activity, never past it. */
  function NextBob(bob: real, panActivity: real): (r: real)
    ensures Between(r, bob, panActivity)
    ensures r - panActivity == 0.9 * (bob - panActivity)
  {
    bob + (panActivity - bob) * 0.1
  }

  /** The bob after n frames of constant pan activity. */
  function BobAfter(bob: real, panActivity: real, n: nat): real
    decreases n
  {
    if n == 0 then bob else BobAfter(NextBob(bob, panActivity), panActivity, n - 1)
  }

  /** Under constant pan activity the gap to it shrinks by 0.9 per frame. */
  lemma {:induction false} BobConverges(bob: real, panActivity: real, n: nat)
    ensures BobAfter(bob, panActivity, n) - panActivity == Pow(0.9, n) * (bob - panActivity)
    decreases n
  {
    if n > 0 {
      var next := NextBob(bob, panActivity);
      BobConverges(next, panActivity, n - 1);
      var q, g := Pow(0.9, n - 1), bob - panActivity;
      assert BobAfter(bob, panActivity, n) - panActivity == q * (next - panActivity);
      assert next - panActivity == 0.9 * g;
      assert q * (0.9 * g) == (0.9 * q) * g;
      PowStep(0.9, n);
    }
  }

  /** Spirit fade state (opacity, flee speed). */
  datatype Spirit = Spirit(opacity: real, flee: real)

  predicate SpiritInRange(s: Spirit)
  {
    0.0 <= s.opacity <= 0.8 && 0.0 <= s.flee <= 0.2
  }

  /** Spirit fade rule: a quiet frame (volume below 0.1) aims the opacity at
      0.8 and slows the flee by 0.01 down to 0; a loud frame aims it at 0
      and, while the spirit is still visible (opacity above 0.1), speeds
      the flee by 0.01 up to 0.2. The opacity then moves 5% toward its
      aim. Opacity in [0, 0.8] and flee speed in [0, 0.2] stay there. */
  function SpiritStep(volume: real, s: Spirit): (r: Spirit)
    ensures volume < 0.1 ==> Between(r.opacity, s.opacity, 0.8) && r.opacity - 0.8 == 0.95 * (s.opacity - 0.8)
    ensures volume >= 0.1 ==> Between(r.opacity, s.opacity, 0.0) && r.opacity == 0.95 * s.opacity
    ensures volume < 0.1 ==> r.flee == Max(0.0, s.flee - 0.01)
    ensures volume >= 0.1 && s.opacity > 0.1 ==> r.flee == Min(0.2, s.flee + 0.01)
    ensures volume >= 0.1 && s.opacity <= 0.1 ==> r.flee == s.flee
    ensures SpiritInRange(s) ==> SpiritInRange(r)
  {
    var target := if volume < 0.1 then 0.8 else 0.0;
    var flee :=
      if volume < 0.1 then Max(0.0, s.flee - 0.01)
      else if s.opacity > 0.1 then Min(0.2, s.flee + 0.01)
      else s.flee;
    Spirit(s.opacity + (target - s.opacity) * 0.05, flee)
  }

  // ---------------------------------------------------------------------
  // One entry
  // ---------------------------------------------------------------------

  /** What kernel k does to entry number i (e) at the given time. */
  function EntryStep(k: Kernel, trig: Trig, time: real, i: int, e: Entry): (r: StepResult)
    ensures WritesParam1(k) || r.param1 == e.param1
    ensures WritesParam2(k) || r.param2 == e.param2
    ensures r.out.d == 0.0
    ensures k.SnareSnap? ==> r.out == Out(0.0, r.param1, 0.0, 0.0)
    ensures k.CymbalShake? ==> r.out == Out(r.param1, r.param2, CymbalScale(k.highFreq), 0.0)
    ensures k.SnareSnap? ==> r.param1 == SnapState(k.snareTrigger, e.param1)
    ensures k.CymbalShake? ==>
      var twitch, seed := k.highFreq * 0.2, time * 10.0 + i as real;
      r.param1 == CymbalRotation(k.highFreq, e.param1, trig.sin(seed) * twitch) &&
      r.param2 == CymbalRotation(k.highFreq, e.param2, trig.cos(seed * 1.3) * twitch)
    ensures k.PanningBob? ==> r.param2 == NextBob(e.param2, k.panActivity)
    ensures k.PanningBob? ==>
      var bobHeight := r.param2 * 1.5 * k.intensity;
      r.out.b == e.param1 * bobHeight * 0.2 && r.out.c == 0.6 + bobHeight * 0.8
    ensures k.SpiritFade? ==> Spirit(r.param1, r.param2) == SpiritStep(k.volume, Spirit(e.param1, e.param2))
    ensures k.SpiritFade? ==> r.out.a == r.param1 && r.out.c == r.param2
  {
    match k
    case SnareSnap(trigger) =>
      var s := SnapState(trigger, e.param1);
      StepResult(s, e.param2, Out(0.0, s, 0.0, 0.0))
    case Accordion(intensity) =>
      var animTime := time + e.offset;
      var stretchY := 1.0 + Max(0.0, trig.sin(animTime * 10.0)) * 0.31 * intensity;
      StepResult(e.param1, e.param2, Out(stretchY, trig.invSqrt(stretchY), 0.0, 0.0))
    case FiberWhip(leadVol, isActive) =>
      var whip := leadVol * 2.0;
      var baseRotY := trig.sin(time * 0.5 + e.offset) * 0.1;
      var childOffset := e.param1 * 0.5;
      var rotZ := 0.785398 + trig.sin(time * 2.0 + childOffset) * 0.1;
      var branchRotZ := if isActive != 0 then rotZ + trig.sin(time * 10.0 + childOffset) * whip else rotZ;
      StepResult(e.param1, e.param2, Out(baseRotY, branchRotZ, 0.0, 0.0))
    case SpiralWave(intensity, groove) =>
      var animTime := time + e.offset + i as real * 0.5;
      var rotY := trig.sin(animTime * 2.0) * 0.2 * intensity;
      var yOffset := trig.sin(animTime * 3.0) * 0.1 * (1.0 + groove);
      var scale := 1.0 + trig.sin(animTime * 4.0) * 0.05 * intensity;
      StepResult(e.param1, e.param2, Out(rotY, yOffset, scale, 0.0))
    case VibratoShake(amount, _) =>
      var shakeSpeed := 50.0 + amount * 100.0;
      var shakeAmount := 0.05 + amount * 0.25;
      var phase := i as real * 0.5;
      var rotX := -1.5708 + trig.sin(time * shakeSpeed + phase) * shakeAmount;
      var rotY := trig.cos(time * shakeSpeed * 1.3 + phase) * shakeAmount * 0.8;
      StepResult(e.param1, e.param2, Out(rotX, rotY, shakeSpeed, 0.0))
    case TremoloPulse(amount, intensity) =>
      var pulseSpeed := 8.0 + amount * 15.0;
      var pulseAmount := 0.1 + amount * 0.3;
      var wave := trig.sin(time * pulseSpeed + e.offset);
      var pulse := 1.0 + wave * pulseAmount;
      var opacity := 0.7 + wave * 0.2 * intensity;
      var emission := 0.3 + amount * 0.7;
      StepResult(e.param1, e.param2, Out(pulse, opacity, emission, 0.0))
    case CymbalShake(highFreq, _) =>
      var twitch := highFreq * 0.2;
      var seed := time * 10.0 + i as real;
      var rotZ := CymbalRotation(highFreq, e.param1, trig.sin(seed) * twitch);
      var rotX := CymbalRotation(highFreq, e.param2, trig.cos(seed * 1.3) * twitch);
      StepResult(rotZ, rotX, Out(rotZ, rotX, CymbalScale(highFreq), 0.0))
    case PanningBob(panActivity, intensity) =>
      var nextBob := NextBob(e.param2, panActivity);
      var bobHeight := nextBob * 1.5 * intensity;
      var posY := trig.sin(time * 2.0 + e.offset) * 0.1 + bobHeight;
      var rotZ := e.param1 * bobHeight * 0.2;
      var glow := 0.6 + bobHeight * 0.8;
      StepResult(e.param1, nextBob, Out(posY, rotZ, glow, 0.0))
    case SpiritFade(volume, _) =>
      var s := SpiritStep(volume, Spirit(e.param1, e.param2));
      var posY := e.originalY + trig.sin(time * 1.5 + e.offset) * 0.2;
      StepResult(s.opacity, s.flee, Out(s.opacity, posY, s.flee, 0.0))
  }

  // ---------------------------------------------------------------------
  // The batch loop
  // ---------------------------------------------------------------------

  /** Entry i of a flat input buffer. */
  function EntryAt(input: seq<real>, i: int): Entry
    requires 0 <= i && 6 * i + 6 <= |input|
  {
    var b := 6 * i;
    Entry(input[b], input[b + 1], input[b + 2], input[b + 3], input[b + 4], input[b + 5])
  }

  /** Entry i's state slots in inp and its result in out are those r gives. */
  predicate Stored(inp: seq<real>, out: seq<real>, i: int, r: StepResult)
    requires 0 <= i && 6 * i + 6 <= |inp| && 4 * i + 4 <= |out|
  {
    && inp[6 * i + 4] == r.param1 && inp[6 * i + 5] == r.param2
    && out[4 * i] == r.out.a && out[4 * i + 1] == r.out.b
    && out[4 * i + 2] == r.out.c && out[4 * i + 3] == r.out.d
  }

  /** The write-back of entry i: its two state slots and its four result
      slots take r's values; nothing else changes. */
  method StoreEntry(inp: seq<real>, out: seq<real>, i: int, r: StepResult) returns (inp': seq<real>, out': seq<real>)
    requires 0 <= i && 6 * i + 6 <= |inp| && 4 * i + 4 <= |out|
    ensures |inp'| == |inp| && |out'| == |out|
    ensures Stored(inp', out', i, r)
    ensures forall j :: 0 <= j < |inp| && j != 6 * i + 4 && j != 6 * i + 5 ==> inp'[j] == inp[j]
    ensures forall j :: 0 <= j < |out| && (j < 4 * i || j >= 4 * i + 4) ==> out'[j] == out[j]
  {
    var b := 6 * i;
    inp' := inp[b + 4 := r.param1][b + 5 := r.param2];
    var o := 4 * i;
    out' := out[o := r.out.a][o + 1 := r.out.b][o + 2 := r.out.c][o + 3 := r.out.d];
  }

  /** Entry m's four read-only slots agree in a and b. */
  predicate SameInputs(a: seq<real>, b: seq<real>, m: int)
    requires 0 <= m && 6 * m + 6 <= |a| && 6 * m + 6 <= |b|
  {
    a[6 * m] == b[6 * m] && a[6 * m + 1] == b[6 * m + 1] && a[6 * m + 2] == b[6 * m + 2] && a[6 * m + 3] == b[6 * m + 3]
  }

  /** The buffers both hold count entries. */
  predicate Fits(input: seq<real>, output: seq<real>, count: int)
  {
    6 * count <= |input| && 4 * count <= |output|
  }

  /** (input', output') is what running the per-entry step over the first
      count entries of (input, output) leaves: each of those entries' state
      and result as the step gives them from the entry as it was; every
      other input slot and every output slot past the batch unchanged. */
  predicate StepsDone(step: (int, Entry) -> StepResult, input: seq<real>, output: seq<real>, count: int,
                      input': seq<real>, output': seq<real>)
    requires Fits(input, output, count)
  {
    && |input'| == |input| && |output'| == |output|
    && (forall i :: 0 <= i < count ==> Stored(input', output', i, step(i, EntryAt(input, i))))
    && (forall j :: 0 <= j < |input| && j >= 6 * count ==> input'[j] == input[j])
    && (forall m :: 0 <= m < count ==> SameInputs(input', input, m))
    && (forall j :: 0 <= j < |output| && j >= 4 * count ==> output'[j] == output[j])
  }

  /** Kernel k's batch has run over the first count entries. */
  predicate BatchDone(k: Kernel, trig: Trig, time: real, input: seq<real>, output: seq<real>, count: int,
                      input': seq<real>, output': seq<real>)
    requires Fits(input, output, count)
  {
    StepsDone((i, e) => EntryStep(k, trig, time, i, e), input, output, count, input', output')
  }

  /** The loop shared by all batch kernels: entry by entry, read the entry,
      store back its state, write its result. */
  method RunSteps(step: (int, Entry) -> StepResult, input: seq<real>, count: int, output: seq<real>)
    returns (input': seq<real>, output': seq<real>)
    requires Fits(input, output, count)
    ensures StepsDone(step, input, output, count, input', output')
  {
    input', output' := input, output;
    var n := if count < 0 then 0 else count;
    var i := 0;
    while i < n
      invariant 0 <= i <= n
      invariant |input'| == |input| && |output'| == |output|
      invariant forall m :: 0 <= m < i ==> Stored(input', output', m, step(m, EntryAt(input, m)))
      invariant forall j :: 0 <= j < |input| && j >= 6 * i ==> input'[j] == input[j]
      invariant forall m :: 0 <= m < i ==> SameInputs(input', input, m)
      invariant forall j :: 4 * i <= j < |output| ==> output'[j] == output[j]
    {
      var e := EntryAt(input', i);
      assert e == EntryAt(input, i);
      ghost var before := input';
      input', output' := StoreEntry(input', output', i, step(i, e));
      forall m | 0 <= m <= i
        ensures SameInputs(input', input, m)
      {
        assert SameInputs(input', before, m);
        assert SameInputs(before, input, m);
      }
      i := i + 1;
    }
  }

  /** Kernel k's batch: only slots 4 and 5 of the first count entries and
      the first count results can change, and a slot the kernel keeps no
      state in keeps its value. */
  method RunBatch(k: Kernel, trig: Trig, time: real, input: seq<real>, count: int, output: seq<real>)
    returns (input': seq<real>, output': seq<real>)
    requires Fits(input, output, count)
    ensures BatchDone(k, trig, time, input, output, count, input', output')
    ensures forall i :: 0 <= i < count && !WritesParam1(k) ==> input'[6 * i + 4] == input[6 * i + 4]
    ensures forall i :: 0 <= i < count && !WritesParam2(k) ==> input'[6 * i + 5] == input[6 * i + 5]
  {
    var step := (i, e) => EntryStep(k, trig, time, i, e);
    input', output' := RunSteps(step, input, count, output);
    forall m | 0 <= m < count
      ensures !WritesParam1(k) ==> input'[6 * m + 4] == input[6 * m + 4]
      ensures !WritesParam2(k) ==> input'[6 * m + 5] == input[6 * m + 5]
    {
      assert Stored(input', output', m, step(m, EntryAt(input, m)));
    }
  }

  // ---------------------------------------------------------------------
  // The dispatcher
  // ---------------------------------------------------------------------

  datatype Option<T> = None | Some(value: T)

  /** The animation type code of each kernel. */
  function TypeCode(k: Kernel): int
  {
    match k
    case SnareSnap(_) => 13
    case Accordion(_) => 14
    case FiberWhip(_, _) => 15
    case SpiralWave(_, _) => 16
    case VibratoShake(_, _) => 17
    case TremoloPulse(_, _) => 18
    case CymbalShake(_, _) => 19
    case PanningBob(_, _) => 20
    case SpiritFade(_, _) => 21
  }

  /** The kernels that take the groove-derived intensity. */
  predicate TakesIntensity(k: Kernel)
  {
    !(k.SnareSnap? || k.FiberWhip? || k.SpiritFade?)
  }

  /** The kernels driven by the audio parameter. */
  predicate TakesAudio(k: Kernel)
  {
    !(k.Accordion? || k.SpiralWave?)
  }

  /** The audio-driven argument of kernel k. */
  function AudioArg(k: Kernel): real
    requires TakesAudio(k)
  {
    match k
    case SnareSnap(t) => t
    case FiberWhip(v, _) => v
    case VibratoShake(a, _) => a
    case TremoloPulse(a, _) => a
    case CymbalShake(h, _) => h
    case PanningBob(p, _) => p
    case SpiritFade(v, _) => v
  }

  /** The switch of processBatchUniversal_c: the type codes 13 to 21 select
      a kernel; its intensity argument is 1 + 5 * groove, its audio
      argument is audioParam; any other code selects nothing. */
  function Route(animType: int, groove: real, audioParam: real): (r: Option<Kernel>)
    ensures r.Some? <==> 13 <= animType <= 21
    ensures r.Some? ==> TypeCode(r.value) == animType
    ensures r.Some? && TakesIntensity(r.value) ==> r.value.intensity == 1.0 + 5.0 * groove
    ensures r.Some? && TakesAudio(r.value) ==> AudioArg(r.value) == audioParam
    ensures r.Some? && r.value.FiberWhip? ==> r.value.isActive == 1
    ensures r.Some? && r.value.SpiralWave? ==> r.value.groove == groove
  {
    var intensity := 1.0 + groove * 5.0;
    if animType == 13 then Some(SnareSnap(audioParam))
    else if animType == 14 then Some(Accordion(intensity))
    else if animType == 15 then Some(FiberWhip(audioParam, 1))
    else if animType == 16 then Some(SpiralWave(intensity, groove))
    else if animType == 17 then Some(VibratoShake(audioParam, intensity))
    else if animType == 18 then Some(TremoloPulse(audioParam, intensity))
    else if animType == 19 then Some(CymbalShake(audioParam, intensity))
    else if animType == 20 then Some(PanningBob(audioParam, intensity))
    else if animType == 21 then Some(SpiritFade(audioParam, 0.016))
    else None
  }

  /** processBatchUniversal_c: an unknown animation type leaves both
      buffers as they were; a known one runs its kernel over the batch. The
      beat phase and the kick level are not used by any kernel. */
  method ProcessBatchUniversal(animType: int, trig: Trig, input: seq<real>, count: int, time: real,
                               beatPhase: real, kick: real, groove: real, audioParam: real,
                               output: seq<real>)
    returns (input': seq<real>, output': seq<real>)
    requires Fits(input, output, count)
    ensures !(13 <= animType <= 21) ==> input' == input && output' == output
    ensures 13 <= animType <= 21 ==>
      var k := Route(animType, groove, audioParam).value;
      TypeCode(k) == animType && BatchDone(k, trig, time, input, output, count, input', output')
  {
    match Route(animType, groove, audioParam)
    case None =>
      input', output' := input, output;
    case Some(k) =>
      input', output' := RunBatch(k, trig, time, input, count, output);
  }
}
