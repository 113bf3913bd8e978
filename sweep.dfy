/** Stepping the lens angle forward and backward through its sweep range. When
    the angle runs off one end of the range it restarts at the other end and
    the lens pitch moves one step in the same direction, so repeated steps scan
    every (angle, pitch) combination. */
module Sweep {

  const AngleDelta: real := 0.001
  const PitchDelta: real := 0.01
  /** `(float)Math.PI * 2.1f`, as the single-precision value it evaluates to. */
  const AngleRange: real := 6.597344398498535
  const AngleStart: real := 0.0

  /** The two parameters a step changes. */
  datatype Setting = Setting(angle: real, pitchLens: real)

  /** The angle lies in the sweep range. */
  predicate InRange(s: Setting)
  {
    AngleStart <= s.angle <= AngleRange
  }

  /** A forward step runs past the end of the range. */
  predicate ForwardWraps(s: Setting)
  {
    s.angle + AngleDelta > AngleRange
  }

  /** A backward step runs past the start of the range. */
  predicate BackwardWraps(s: Setting)
  {
    s.angle - AngleDelta < AngleStart
  }

  /** Forward: the angle grows by AngleDelta; past AngleRange it restarts at
      zero and the pitch grows by exactly PitchDelta. */
  function Forward(s: Setting): (r: Setting)
    ensures r.angle <= AngleRange
    ensures ForwardWraps(s) ==> r == Setting(0.0, s.pitchLens + PitchDelta)
    ensures !ForwardWraps(s) ==> r == Setting(s.angle + AngleDelta, s.pitchLens)
  {
    var angle := s.angle + AngleDelta;
    if angle > AngleRange then Setting(0.0, s.pitchLens + PitchDelta) else Setting(angle, s.pitchLens)
  }

  /** Backward: the angle shrinks by AngleDelta; below AngleStart it restarts
      at AngleRange and the pitch shrinks by exactly PitchDelta. */
  function Backward(s: Setting): (r: Setting)
    ensures r.angle >= AngleStart
    ensures BackwardWraps(s) ==> r == Setting(AngleRange, s.pitchLens - PitchDelta)
    ensures !BackwardWraps(s) ==> r == Setting(s.angle - AngleDelta, s.pitchLens)
  {
    var angle := s.angle - AngleDelta;
    if angle < AngleStart then Setting(AngleRange, s.pitchLens - PitchDelta) else Setting(angle, s.pitchLens)
  }

  /** The pitch changes on a forward step exactly when the angle wraps. */
  lemma ForwardPitchChangesIffWrap(s: Setting)
    ensures Forward(s).pitchLens != s.pitchLens <==> ForwardWraps(s)
  {
  }

  /** The pitch changes on a backward step exactly when the angle wraps. */
  lemma BackwardPitchChangesIffWrap(s: Setting)
    ensures Backward(s).pitchLens != s.pitchLens <==> BackwardWraps(s)
  {
  }

  /** Neither step leaves the sweep range once inside it. */
  lemma StepsKeepRange(s: Setting)
    requires InRange(s)
    ensures InRange(Forward(s)) && InRange(Backward(s))
  {
  }

  /** Stepping back undoes a forward step, except that a wrapped angle comes
      back as AngleRange; the pitch is always restored. */
  lemma BackwardAfterForward(s: Setting)
    requires InRange(s)
    ensures Backward(Forward(s)) == if ForwardWraps(s) then Setting(AngleRange, s.pitchLens) else s
  {
  }

  /** Stepping forward undoes a backward step, except that a wrapped angle comes
      back as zero; the pitch is always restored. */
  lemma ForwardAfterBackward(s: Setting)
    requires InRange(s)
    ensures Forward(Backward(s)) == if BackwardWraps(s) then Setting(0.0, s.pitchLens) else s
  {
  }

  /** Half a step before the end of the range, one forward step wraps the
      angle to zero and adds exactly PitchDelta to the pitch. */
  lemma WrapNearEnd(pitchLens: real)
    ensures Forward(Setting(AngleRange - AngleDelta / 2.0, pitchLens)) == Setting(0.0, pitchLens + PitchDelta)
  {
  }
}
