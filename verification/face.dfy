/**
 The per-shape face drawn by `renderEyes` and `renderMouth` in src/Login.js: a pure,
 total lookup from the shape's expression, the global mode and the blink flag.
 Colours, sizes of the eye whites and animation timings are presentation and are
 not part of the lookup.
 */
module Face {

  import opened Options
  import opened Character

  /**
   The eye animation target. `scaleX` is `None` when the target leaves the horizontal
   scale as it was (the closed-eye target sets only `scaleY`); `pupil` is the pupil scale.
   */
  datatype Eyes = Eyes(scaleX: Option<real>, scaleY: real, pupil: real)

  datatype Fill = Filled | Transparent

  /** The mouth animation target: width and height in pixels, the CSS border radius, the fill. */
  datatype Mouth = Mouth(width: nat, height: nat, radius: string, fill: Fill)

  /** Eyes are drawn shut while blinking and while the password field has focus. */
  predicate EyesShut(mode: Mode, blinking: bool) {
    blinking || mode == PasswordFocus
  }

  /** A shape looks delighted when it wide-smiles or the whole scene is in the `happy` mode. */
  predicate Delighted(e: Expression, mode: Mode) {
    e == WideSmile || mode == Happy
  }

  function EyesFor(e: Expression, mode: Mode, blinking: bool): (r: Eyes)
    ensures r.scaleY == 0.1 <==> EyesShut(mode, blinking)
    ensures r.scaleX == None <==> EyesShut(mode, blinking)
    ensures !EyesShut(mode, blinking) && Delighted(e, mode) ==> r.scaleX == Some(1.3) && r.scaleY == 0.7
    ensures !EyesShut(mode, blinking) && !Delighted(e, mode) && e == Surprised ==> r.scaleX == Some(1.2) && r.scaleY == 1.4
    ensures !EyesShut(mode, blinking) && !Delighted(e, mode) && e != Surprised ==> r.scaleX == Some(1.0) && r.scaleY == 1.0
    ensures r.pupil == (if e == Surprised then 1.3 else 1.0)
  {
    var pupil := if e == Surprised then 1.3 else 1.0;
    if blinking || mode == PasswordFocus then Eyes(None, 0.1, pupil)
    else if e == WideSmile || mode == Happy then Eyes(Some(1.3), 0.7, pupil)
    else if e == Surprised then Eyes(Some(1.2), 1.4, pupil)
    else Eyes(Some(1.0), 1.0, pupil)
  }

  const WideCurve := "0 0 30px 30px"
  const NarrowCurve := "0 0 22px 22px"
  const Round := "50%"
  const InvertedCurve := "30px 30px 0 0"

  function MouthFor(e: Expression, mode: Mode): (r: Mouth)
    ensures Delighted(e, mode) ==> r == Mouth(55, 25, WideCurve, Filled)
    ensures e == Frown && mode == Sad ==> r == Mouth(40, 3, InvertedCurve, Transparent)
    ensures r.fill == Transparent <==> e == Frown && mode != Happy
    ensures r.radius == InvertedCurve <==> e == Frown && mode == Sad
    ensures r.radius == InvertedCurve ==> r.width == 40 && r.height == 3
    ensures e == Frown && mode != Happy && mode != Sad ==> r == Mouth(40, 15, NarrowCurve, Transparent)
    ensures e == Smile && mode != Happy ==> r == Mouth(45, 15, NarrowCurve, Filled)
    ensures e == Surprised && mode != Happy ==> r == Mouth(25, 25, Round, Filled)
  {
    var width :=
      if e == WideSmile || mode == Happy then 55
      else if e == Smile then 45
      else if e == Surprised then 25
      else 40;
    var height :=
      if e == WideSmile || mode == Happy then 25
      else if e == Smile then 15
      else if e == Surprised then 25
      else if mode == Sad then 3 else 15;
    var radius :=
      if e == WideSmile || mode == Happy then WideCurve
      else if e == Smile then NarrowCurve
      else if e == Surprised then Round
      else if mode == Sad then InvertedCurve else NarrowCurve;
    var fill :=
      if e == WideSmile || e == Smile || mode == Happy then Filled
      else if e == Surprised then Filled else Transparent;
    assert e.Smile? || e.WideSmile? || e.Surprised? || e.Frown?;
    Mouth(width, height, radius, fill)
  }

  /** The face drawn for one shape of a scene state. */
  function FaceOf(s: State, shape: Shape): (Eyes, Mouth) {
    (EyesFor(s.faces.Get(shape), s.mode, s.blinking), MouthFor(s.faces.Get(shape), s.mode))
  }

  /**
   Square of the pupil displacement for a shape centred at `center` while the eyes aim
   at `target`: the distance divided by 20 and capped at 7, so its square is capped at 49.
   */
  function PupilTravelSq(target: Point, center: Point): (r: real)
    ensures 0.0 <= r <= 49.0
    ensures DistSq(target, center) <= 19600 ==> r * 400.0 == DistSq(target, center) as real
    ensures DistSq(target, center) >= 19600 ==> r == 49.0
  {
    var d := DistSq(target, center) as real / 400.0;
    if d < 49.0 then d else 49.0
  }

  /** The "Whoa!" speed badge shows while the last measured speed exceeds 3 px/ms. */
  predicate SpeedBadge(s: State) {
    s.speedSq > 9.0
  }

  /** After a move with a positive time difference, the badge shows exactly when the move was fast. */
  lemma SpeedBadgeAfterMove(s: State, x: int, y: int, now: int)
    requires now - s.lastTime > 0
    ensures SpeedBadge(Step(s, MouseMove(x, y, now)).next) <==>
      DistSq(Point(x, y), s.lastPos) > 9 * (now - s.lastTime) * (now - s.lastTime)
  {
    var h := OnMouseMove(s, x, y, now);
    assert Step(s, MouseMove(x, y, now)).next.speedSq == h.speedSq;
    BadgeThreshold(h.speedSq, DistSq(Point(x, y), s.lastPos), now - s.lastTime);
  }

  /** A squared speed recorded as `d / t²` exceeds 9 exactly when `d` exceeds `9 t²`. */
  lemma BadgeThreshold(q: real, d: int, t: int)
    requires t > 0 && q * (t * t) as real == d as real
    ensures q > 9.0 <==> d > 9 * t * t
  {
    var m := t * t;
    assert m >= 1 by {
      assert t * t >= t * 1;
    }
    assert 9 * t * t == 9 * m;
    var k := m as real;
    ScaleCompare(q, k, 9.0);
    assert (9 * m) as real == 9.0 * k;
  }

  /** Whatever the expressions, every face in the `happy` mode shows the wide filled smile and squinting eyes, unless blinking. */
  lemma HappyFaces(s: State, shape: Shape)
    requires s.mode == Happy
    ensures FaceOf(s, shape).1 == Mouth(55, 25, WideCurve, Filled)
    ensures !s.blinking ==> FaceOf(s, shape).0 == Eyes(Some(1.3), 0.7, if s.faces.Get(shape) == Surprised then 1.3 else 1.0)
  {
  }

  /** While the password field has focus no blink starts, and every shape's eyes are shut anyway. */
  lemma PasswordShutsEyes(s: State, shape: Shape)
    requires s.mode == PasswordFocus
    ensures FaceOf(s, shape).0.scaleY == 0.1
    ensures Step(s, BlinkTick).next.blinking == s.blinking
  {
  }

  /**
   The sad mouth is keyed on the mode, not on the expression: after a rejected submit,
   focusing a field keeps every expression sad but draws a transparent smile-shaped
   mouth instead of the inverted curve.
   */
  lemma SadExpressionOutsideSadMode(t0: int, shape: Shape)
    ensures
      var s := Step(Step(Init(t0), Submit("", "")).next, FocusEmail).next;
      && s.faces.Get(shape) == Frown
      && FaceOf(s, shape).1 == Mouth(40, 15, NarrowCurve, Transparent)
  {
  }
}
