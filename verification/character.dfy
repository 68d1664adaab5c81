/**
 The interaction state machine of the login scene (src/Login.js): four shapes with
 faces, one global interaction mode, a blink flag, a wobble flag for the yellow shape,
 the pointer-speed tracker, and the one-shot timers the handlers schedule.

 Every event handler and every timer callback of the component is one case of the
 pure function `Step`. Clocks and `Math.random` never appear inside: the current time
 and the random draws arrive as event parameters, and a timer callback runs when the
 environment delivers `Fire(t)` for a timer `t` that is still pending.
 */
module Character {

  import opened Options
  import Identifier

  /** The component's `characterState`: 'idle', 'email', 'password', 'happy', 'sad'. */
  datatype Mode = Idle | EmailFocus | PasswordFocus | Happy | Sad

  datatype Shape = Purple | Orange | Black | Yellow

  /** Per-shape expression; `Frown` is the component's 'sad' expression. */
  datatype Expression = Smile | WideSmile | Surprised | Frown

  /** The expressions of the four shapes: a total map from `Shape` to `Expression`. */
  datatype Faces = Faces(purple: Expression, orange: Expression, black: Expression, yellow: Expression)
  {
    function Get(shape: Shape): Expression {
      match shape
      case Purple => purple
      case Orange => orange
      case Black => black
      case Yellow => yellow
    }

    /** `{...prev, [shape]: e}`: the given shape takes `e`, every other shape keeps its expression. */
    function Set(shape: Shape, e: Expression): (r: Faces)
      ensures r.Get(shape) == e
      ensures forall other :: other != shape ==> r.Get(other) == Get(other)
    {
      match shape
      case Purple => this.(purple := e)
      case Orange => this.(orange := e)
      case Black => this.(black := e)
      case Yellow => this.(yellow := e)
    }
  }

  /** All four shapes showing the same expression. */
  function Uniform(e: Expression): (r: Faces)
    ensures forall shape :: r.Get(shape) == e
  {
    Faces(e, e, e, e)
  }

  datatype Point = Point(x: int, y: int)

  /** The one-shot `setTimeout` callbacks the component schedules. */
  datatype Timer =
    | BlinkReset                     // 150 ms after a blink starts
    | ExpressionReset(shape: Shape)  // 2.5 s after a random expression
    | WobbleReset                    // 1 s after a wobble starts
    | LoginFollowUp(name: string)    // 1.5 s after an accepted submit: `onLogin(name)`
    | SadFollowUp                    // 1.5 s after a rejected submit

  /**
   The component's state. `pointer` is the `mousePos` state, `lastPos` and `lastTime`
   the refs used for the speed estimate, `speedSq` the square of `mouseSpeed`, and
   `aimedAt` the pointer position the eyes were last aimed at (the gaze effect's input).
   */
  datatype State = State(
    mode: Mode,
    faces: Faces,
    blinking: bool,
    wobbling: bool,
    speedSq: real,
    pointer: Point,
    lastPos: Point,
    lastTime: int,
    aimedAt: Point,
    pending: multiset<Timer>)

  datatype Event =
    | FocusEmail
    | FocusPassword
    | Blur
    | Submit(email: string, password: string)
    | BlinkTick
    | ExprTick(shape: Shape, draw: real)
    | MouseMove(x: int, y: int, now: int)
    | Fire(timer: Timer)

  /** What a step hands back: the next state and, when `onLogin` was called, its argument. */
  datatype Outcome = Outcome(next: State, login: Option<string>)

  /** The state at mount, `mountTime` being `Date.now()` at the first render. */
  function Init(mountTime: int): (s: State)
    ensures s.mode == Idle && s.faces == Uniform(Smile)
    ensures !s.blinking && !s.wobbling && s.pending == multiset{}
    ensures s.lastTime == mountTime
    ensures s.pointer == s.lastPos == s.aimedAt == Point(0, 0) && s.speedSq == 0.0
  {
    State(Idle, Uniform(Smile), false, false, 0.0, Point(0, 0), Point(0, 0), mountTime, Point(0, 0), multiset{})
  }

  /** The weighted expression draw of the random-expression interval: 70% / 20% / 10%. */
  function Draw(r: real): (e: Expression)
    ensures e != Frown
    ensures e == Smile <==> r < 0.7
    ensures e == WideSmile <==> 0.7 <= r < 0.9
    ensures e == Surprised <==> 0.9 <= r
  {
    if r < 0.7 then Smile
    else if r < 0.9 then WideSmile
    else Surprised
  }

  /** `['purple', 'orange', 'black', 'yellow']`, in the order the component lists them. */
  const Shapes: seq<Shape> := [Purple, Orange, Black, Yellow]

  /** `shapes[Math.floor(Math.random() * shapes.length)]` for a draw in [0, 1). */
  function PickShape(draw: real): (shape: Shape)
    requires 0.0 <= draw < 1.0
    ensures forall i :: 0 <= i < 4 ==> (shape == Shapes[i] <==> i as real <= draw * 4.0 < (i + 1) as real)
  {
    Shapes[(draw * 4.0).Floor]
  }

  /** The random-expression event for two draws of `Math.random()`. */
  function ExprTickFromDraws(shapeDraw: real, exprDraw: real): Event
    requires 0.0 <= shapeDraw < 1.0
  {
    ExprTick(PickShape(shapeDraw), exprDraw)
  }

  // ---------------------------------------------------------------- handlers

  /** `handleSubmit`: both strings non-empty gives `happy`, anything else `sad`; either way a follow-up is scheduled. */
  function OnSubmit(s: State, email: string, password: string): (r: State)
    ensures |email| > 0 && |password| > 0 ==>
      && r.mode == Happy
      && r.faces == Uniform(WideSmile)
      && r.pending == s.pending + multiset{LoginFollowUp(Identifier.LocalPart(email))}
    ensures !(|email| > 0 && |password| > 0) ==>
      && r.mode == Sad
      && r.faces == Uniform(Frown)
      && r.pending == s.pending + multiset{SadFollowUp}
    ensures r.(mode := s.mode, faces := s.faces, pending := s.pending) == s
  {
    if |email| > 0 && |password| > 0 then
      s.(mode := Happy, faces := Uniform(WideSmile),
         pending := s.pending + multiset{LoginFollowUp(Identifier.LocalPart(email))})
    else
      s.(mode := Sad, faces := Uniform(Frown), pending := s.pending + multiset{SadFollowUp})
  }

  /** The blink interval body: a blink starts, with its reset scheduled, unless the password field has focus. */
  function OnBlinkTick(s: State): (r: State)
    ensures s.mode == PasswordFocus ==> r == s
    ensures s.mode != PasswordFocus ==> r.blinking && r.pending == s.pending + multiset{BlinkReset}
    ensures r.(blinking := s.blinking, pending := s.pending) == s
  {
    if s.mode != PasswordFocus then s.(blinking := true, pending := s.pending + multiset{BlinkReset})
    else s
  }

  /** The random-expression interval body: only in `idle`, the chosen shape takes the drawn expression and a revert is scheduled. */
  function OnExprTick(s: State, shape: Shape, draw: real): (r: State)
    ensures s.mode != Idle ==> r == s
    ensures s.mode == Idle ==>
      && r.faces.Get(shape) == Draw(draw)
      && r.faces.Get(shape) != Frown
      && (forall other :: other != shape ==> r.faces.Get(other) == s.faces.Get(other))
      && r.pending == s.pending + multiset{ExpressionReset(shape)}
    ensures r.(faces := s.faces, pending := s.pending) == s
  {
    if s.mode == Idle then
      s.(faces := s.faces.Set(shape, Draw(draw)), pending := s.pending + multiset{ExpressionReset(shape)})
    else s
  }

  /** Square of the Euclidean distance between two points. */
  function DistSq(a: Point, b: Point): int {
    (a.x - b.x) * (a.x - b.x) + (a.y - b.y) * (a.y - b.y)
  }

  /**
   The `mousemove` listener. With a positive time difference the (squared) speed is
   recorded and a wobble starts when the speed exceeds 3 px/ms and none is running;
   the last sample and the pointer are updated on every move.
   */
  function OnMouseMove(s: State, x: int, y: int, now: int): (r: State)
    ensures r.lastPos == Point(x, y) && r.pointer == Point(x, y) && r.lastTime == now
    ensures now - s.lastTime <= 0 ==> r.speedSq == s.speedSq && r.wobbling == s.wobbling && r.pending == s.pending
    ensures now - s.lastTime > 0 ==>
      r.speedSq * ((now - s.lastTime) * (now - s.lastTime)) as real == DistSq(Point(x, y), s.lastPos) as real
    ensures r.wobbling && !s.wobbling <==>
      now - s.lastTime > 0 && !s.wobbling
      && DistSq(Point(x, y), s.lastPos) > 9 * (now - s.lastTime) * (now - s.lastTime)
    ensures r.wobbling && !s.wobbling ==> r.pending == s.pending + multiset{WobbleReset}
    ensures !(r.wobbling && !s.wobbling) ==> r.wobbling == s.wobbling && r.pending == s.pending
    ensures r.(speedSq := s.speedSq, wobbling := s.wobbling, pending := s.pending,
               pointer := s.pointer, lastPos := s.lastPos, lastTime := s.lastTime) == s
  {
    var here := Point(x, y);
    var timeDiff := now - s.lastTime;
    var sampled :=
      if timeDiff > 0 then
        var speedSq := DistSq(here, s.lastPos) as real / (timeDiff * timeDiff) as real;
        SpeedSqMeaning(DistSq(here, s.lastPos), timeDiff);
        if speedSq > 9.0 && !s.wobbling then
          s.(speedSq := speedSq, wobbling := true, pending := s.pending + multiset{WobbleReset})
        else
          s.(speedSq := speedSq)
      else s;
    sampled.(lastPos := here, lastTime := now, pointer := here)
  }

  /** The squared speed exceeds 9 exactly when the squared distance exceeds 9 times the squared time. */
  lemma SpeedSqMeaning(d: int, t: int)
    requires d >= 0 && t > 0
    ensures (d as real / (t * t) as real) * (t * t) as real == d as real
    ensures d as real / (t * t) as real > 9.0 <==> d > 9 * t * t
  {
    var k := (t * t) as real;
    assert k >= 1.0;
    var q := d as real / k;
    assert q * k == d as real;
    ScaleCompare(q, k, 9.0);
    assert (9 * t * t) as real == 9.0 * k;
  }

  /** Multiplying by a positive factor keeps a strict comparison. */
  lemma ScaleCompare(q: real, k: real, c: real)
    requires k > 0.0
    ensures q > c <==> q * k > c * k
  {
    if q > c {
      assert (q - c) * k > 0.0;
    } else {
      assert (c - q) * k >= 0.0;
    }
  }

  /** A timer callback. Every callback sets its state unconditionally; none is ever cancelled. */
  function OnTimer(s: State, t: Timer): (r: State)
    ensures t.BlinkReset? ==> r == s.(blinking := false)
    ensures t.ExpressionReset? ==> r == s.(faces := s.faces.Set(t.shape, Smile))
    ensures t.WobbleReset? ==> r == s.(wobbling := false)
    ensures t.LoginFollowUp? ==> r == s
    ensures t.SadFollowUp? ==> r == s.(mode := Idle, faces := Uniform(Smile))
  {
    match t
    case BlinkReset => s.(blinking := false)
    case ExpressionReset(shape) => s.(faces := s.faces.Set(shape, Smile))
    case WobbleReset => s.(wobbling := false)
    case LoginFollowUp(_) => s
    case SadFollowUp => s.(mode := Idle, faces := Uniform(Smile))
  }

  /**
   The event handler or callback for `e`, before the gaze effect runs. Focus and blur
   only set the mode, a timer that is not pending does nothing, and only a pointer
   move touches the pointer sample or the gaze.
   */
  function Handle(s: State, e: Event): (r: State)
    ensures e == FocusEmail ==> r == s.(mode := EmailFocus)
    ensures e == FocusPassword ==> r == s.(mode := PasswordFocus)
    ensures e == Blur ==> r == s.(mode := Idle)
    ensures e.Fire? && e.timer !in s.pending ==> r == s
    ensures e.Fire? && e.timer in s.pending ==> r.pending == s.pending - multiset{e.timer}
    ensures !e.MouseMove? ==> r.pointer == s.pointer && r.lastPos == s.lastPos && r.lastTime == s.lastTime
    ensures r.aimedAt == s.aimedAt
  {
    match e
    case FocusEmail => s.(mode := EmailFocus)
    case FocusPassword => s.(mode := PasswordFocus)
    case Blur => s.(mode := Idle)
    case Submit(email, password) => OnSubmit(s, email, password)
    case BlinkTick => OnBlinkTick(s)
    case ExprTick(shape, draw) => OnExprTick(s, shape, draw)
    case MouseMove(x, y, now) => OnMouseMove(s, x, y, now)
    case Fire(t) =>
      if t in s.pending then OnTimer(s.(pending := s.pending - multiset{t}), t) else s
  }

  /**
   One event followed by the gaze effect, which re-aims the eyes whenever the
   pointer sample or the mode changed, except while the password field has focus.
   */
  function Step(s: State, e: Event): (o: Outcome)
    ensures o.next.mode != PasswordFocus && (e.MouseMove? || o.next.mode != s.mode) ==>
      o.next.aimedAt == o.next.pointer
    ensures o.next.mode == PasswordFocus ==> o.next.aimedAt == s.aimedAt
    ensures o.login.Some? <==> e.Fire? && e.timer.LoginFollowUp? && e.timer in s.pending
    ensures o.login.Some? ==> o.login.value == e.timer.name
  {
    var next := Aim(s, Handle(s, e), e.MouseMove?);
    var login :=
      if e.Fire? && e.timer.LoginFollowUp? && e.timer in s.pending then Some(e.timer.name) else None;
    Outcome(next, login)
  }

  /** The gaze effect: it runs after a pointer sample or a mode change, and does nothing in password mode. */
  function Aim(s: State, h: State, moved: bool): (r: State)
    ensures r == h.(aimedAt := r.aimedAt)
    ensures h.mode != PasswordFocus && (moved || h.mode != s.mode) ==> r.aimedAt == h.pointer
    ensures !(h.mode != PasswordFocus && (moved || h.mode != s.mode)) ==> r.aimedAt == h.aimedAt
  {
    if h.mode != PasswordFocus && (moved || h.mode != s.mode) then h.(aimedAt := h.pointer) else h
  }

  /** Runs a sequence of events, collecting the identifiers passed to `onLogin`. */
  function Run(s: State, es: seq<Event>): (State, seq<string>)
    decreases |es|
  {
    if |es| == 0 then (s, [])
    else
      var o := Step(s, es[0]);
      var (last, names) := Run(o.next, es[1..]);
      (last, (if o.login.Some? then [o.login.value] else []) + names)
  }

  // ---------------------------------------------------------------- invariant

  /** Number of copies of `t` pending. */
  function Count(s: State, t: Timer): nat {
    s.pending[t]
  }

  /**
   What holds in every reachable state:
   - a blink in progress always has its reset pending;
   - the wobble flag is up exactly when one wobble reset is pending, and never more than one;
   - the `sad` mode always has its recovery pending;
   - every pending login identifier is free of '@';
   - the speed refs and the `mousePos` state agree;
   - outside password mode the eyes aim at the current pointer.
   */
  ghost predicate Inv(s: State) {
    TimersInv(s) && PointerInv(s)
  }

  ghost predicate TimersInv(s: State) {
    && (s.blinking ==> BlinkReset in s.pending)
    && Count(s, WobbleReset) == (if s.wobbling then 1 else 0)
    && (s.mode == Sad ==> SadFollowUp in s.pending)
    && (forall t :: t in s.pending && t.LoginFollowUp? ==> '@' !in t.name)
  }

  ghost predicate PointerInv(s: State) {
    && s.pointer == s.lastPos
    && (s.mode != PasswordFocus ==> s.aimedAt == s.pointer)
  }

  lemma InitInv(mountTime: int)
    ensures Inv(Init(mountTime))
  {
  }

  lemma StepInv(s: State, e: Event)
    requires Inv(s)
    ensures Inv(Step(s, e).next)
  {
    match e {
      case Fire(t) => FireInv(s, t);
      case Submit(email, password) => SubmitInv(s, email, password);
      case MouseMove(x, y, now) => MouseMoveInv(s, x, y, now);
      case BlinkTick => BlinkTickInv(s);
      case ExprTick(shape, draw) => ExprTickInv(s, shape, draw);
      case _ =>
    }
    FinishStep(s, e);
  }

  /** Once the handler keeps the timer part of the invariant, the gaze effect completes the step. */
  lemma FinishStep(s: State, e: Event)
    requires Inv(s) && TimersInv(Handle(s, e))
    ensures Inv(Step(s, e).next)
  {
    var h := Handle(s, e);
    assert h.pointer == h.lastPos;
    assert !e.MouseMove? ==> h.aimedAt == s.aimedAt && h.pointer == s.pointer;
    AimInv(s, h, e.MouseMove?);
  }

  lemma BlinkTickInv(s: State)
    requires Inv(s)
    ensures TimersInv(Handle(s, BlinkTick))
  {
    var h := OnBlinkTick(s);
    assert h.pending[WobbleReset] == s.pending[WobbleReset];
    assert forall u :: u in h.pending ==> u in s.pending || u == BlinkReset;
  }

  lemma ExprTickInv(s: State, shape: Shape, draw: real)
    requires Inv(s)
    ensures TimersInv(Handle(s, ExprTick(shape, draw)))
  {
    var h := OnExprTick(s, shape, draw);
    assert h.pending[WobbleReset] == s.pending[WobbleReset];
    assert forall u :: u in h.pending ==> u in s.pending || u == ExpressionReset(shape);
  }

  /** The gaze effect restores the pointer part of the invariant and leaves the rest alone. */
  lemma AimInv(s: State, h: State, moved: bool)
    requires PointerInv(s) && TimersInv(h)
    requires h.pointer == h.lastPos
    requires !moved && h.mode == s.mode ==> h.aimedAt == s.aimedAt && h.pointer == s.pointer
    ensures Inv(Aim(s, h, moved))
  {
  }

  lemma FireInv(s: State, t: Timer)
    requires Inv(s)
    ensures TimersInv(Handle(s, Fire(t)))
  {
    if t in s.pending {
      var rest := s.pending - multiset{t};
      assert forall u :: u in rest ==> u in s.pending;
      assert rest[WobbleReset] == s.pending[WobbleReset] - (if t == WobbleReset then 1 else 0);
      var h := OnTimer(s.(pending := rest), t);
      assert h.pending == rest;
      assert t != SadFollowUp ==> h.mode == s.mode;
    }
  }

  lemma SubmitInv(s: State, email: string, password: string)
    requires Inv(s)
    ensures TimersInv(Handle(s, Submit(email, password)))
  {
    var h := OnSubmit(s, email, password);
    assert h.pending[WobbleReset] == s.pending[WobbleReset];
    forall u | u in h.pending && u.LoginFollowUp?
      ensures '@' !in u.name
    {
      if u !in s.pending {
        assert u == LoginFollowUp(Identifier.LocalPart(email));
      }
    }
  }

  lemma MouseMoveInv(s: State, x: int, y: int, now: int)
    requires Inv(s)
    ensures TimersInv(Handle(s, MouseMove(x, y, now)))
  {
    var h := OnMouseMove(s, x, y, now);
    if h.wobbling && !s.wobbling {
      assert h.pending[WobbleReset] == 1;
    }
    assert forall u :: u in h.pending ==> u in s.pending || u == WobbleReset;
  }

  /** Every state reached from an invariant state by any event sequence satisfies the invariant. */
  lemma {:induction false} RunInv(s: State, es: seq<Event>)
    requires Inv(s)
    ensures Inv(Run(s, es).0)
    decreases |es|
  {
    if |es| > 0 {
      StepInv(s, es[0]);
      RunInv(Step(s, es[0]).next, es[1..]);
    }
  }

  /** Every identifier handed to `onLogin` along any run from an invariant state is free of '@'. */
  lemma {:induction false} RunNamesHaveNoAt(s: State, es: seq<Event>)
    requires Inv(s)
    ensures forall i :: 0 <= i < |Run(s, es).1| ==> '@' !in Run(s, es).1[i]
    decreases |es|
  {
    if |es| > 0 {
      var o := Step(s, es[0]);
      StepInv(s, es[0]);
      RunNamesHaveNoAt(o.next, es[1..]);
      var rest := Run(o.next, es[1..]).1;
      var head: seq<string> := if o.login.Some? then [o.login.value] else [];
      assert Run(s, es).1 == head + rest;
      if o.login.Some? {
        assert o.login.value == es[0].timer.name;
        assert es[0].timer in s.pending;
      }
    }
  }

  // ---------------------------------------------------------------- properties of single steps

  /** Focus and blur set the mode unconditionally, from any mode, and never touch the faces. */
  lemma FocusSetsMode(s: State, e: Event)
    requires e == FocusEmail || e == FocusPassword || e == Blur
    ensures Step(s, e).next.mode == (if e == FocusEmail then EmailFocus else if e == FocusPassword then PasswordFocus else Idle)
    ensures Step(s, e).next.faces == s.faces
    ensures Step(s, e).next.pending == s.pending && Step(s, e).login == None
  {
  }

  /** Focus followed by blur returns to `idle` with the faces intact. */
  lemma FocusThenBlur(s: State, focus: Event)
    requires focus == FocusEmail || focus == FocusPassword
    ensures Step(Step(s, focus).next, Blur).next.mode == Idle
    ensures Step(Step(s, focus).next, Blur).next.faces == s.faces
  {
  }

  /** A rejected submit and its follow-up bring the scene back to `idle` with every shape smiling. */
  lemma RejectedSubmitRecovers(s: State, email: string, password: string)
    requires |email| == 0 || |password| == 0
    ensures Step(s, Submit(email, password)).next.mode == Sad
    ensures Step(Step(s, Submit(email, password)).next, Fire(SadFollowUp)).next.mode == Idle
    ensures Step(Step(s, Submit(email, password)).next, Fire(SadFollowUp)).next.faces == Uniform(Smile)
  {
  }

  /** An accepted submit and its follow-up hand the e-mail's local part to `onLogin`. */
  lemma AcceptedSubmitLogsIn(s: State, email: string, password: string)
    requires |email| > 0 && |password| > 0
    ensures Step(s, Submit(email, password)).next.mode == Happy
    ensures Step(s, Submit(email, password)).next.faces == Uniform(WideSmile)
    ensures Step(Step(s, Submit(email, password)).next, Fire(LoginFollowUp(Identifier.LocalPart(email)))).login
      == Some(Identifier.LocalPart(email))
  {
  }

  /** The random expression never changes a face outside `idle`, and in `idle` changes only the chosen one. */
  lemma ExprTickOnlyInIdle(s: State, shape: Shape, draw: real)
    ensures s.mode != Idle ==> Step(s, ExprTick(shape, draw)).next.faces == s.faces
    ensures s.mode == Idle ==>
      && Step(s, ExprTick(shape, draw)).next.faces == s.faces.Set(shape, Draw(draw))
      && Step(s, ExprTick(shape, draw)).next.faces.Get(shape) != Frown
  {
  }

  /**
   Two draws of `Math.random()` drive one random-expression tick: in `idle` the shape in
   the quarter of [0, 1) holding the first draw takes the expression the second draw
   selects, and every other shape keeps its expression; outside `idle` nothing changes.
   */
  lemma RandomTickFromDraws(s: State, shapeDraw: real, exprDraw: real, i: int)
    requires 0.0 <= shapeDraw < 1.0
    requires 0 <= i < 4 && i as real <= shapeDraw * 4.0 < (i + 1) as real
    ensures s.mode == Idle ==>
      && Step(s, ExprTickFromDraws(shapeDraw, exprDraw)).next.faces.Get(Shapes[i]) == Draw(exprDraw)
      && (forall j :: 0 <= j < 4 && j != i ==>
            Step(s, ExprTickFromDraws(shapeDraw, exprDraw)).next.faces.Get(Shapes[j]) == s.faces.Get(Shapes[j]))
    ensures s.mode != Idle ==> Step(s, ExprTickFromDraws(shapeDraw, exprDraw)).next.faces == s.faces
  {
    assert PickShape(shapeDraw) == Shapes[i];
  }

  /** A pending expression revert sets its shape back to `smile` whatever the mode, even over a submit's faces. */
  lemma RevertIgnoresMode(s: State, shape: Shape)
    requires ExpressionReset(shape) in s.pending
    ensures Step(s, Fire(ExpressionReset(shape))).next.faces.Get(shape) == Smile
    ensures Step(s, Fire(ExpressionReset(shape))).next.mode == s.mode
    ensures forall other :: other != shape ==>
      Step(s, Fire(ExpressionReset(shape))).next.faces.Get(other) == s.faces.Get(other)
  {
  }

  /** A blink never starts while the password field has focus; the reset always clears it. */
  lemma BlinkRules(s: State)
    ensures Step(s, BlinkTick).next.blinking <==> s.mode != PasswordFocus || s.blinking
    ensures BlinkReset in s.pending ==> !Step(s, Fire(BlinkReset)).next.blinking
  {
  }

  /** A wobble already in progress is never restarted, however fast the pointer moves. */
  lemma WobbleNotRestarted(s: State, x: int, y: int, now: int)
    requires Inv(s) && s.wobbling
    ensures Count(Step(s, MouseMove(x, y, now)).next, WobbleReset) == 1
  {
  }

  /** While the password field keeps focus, no event moves the eyes. */
  lemma GazeFrozenInPassword(s: State, e: Event)
    requires Step(s, e).next.mode == PasswordFocus
    ensures Step(s, e).next.aimedAt == s.aimedAt
  {
  }

  // ---------------------------------------------------------------- concrete runs

  /**
   The expression revert is not cancelled by a later pick of the same shape: the first
   revert lands while the second pick's hold is still pending.
   */
  lemma RevertRacesLaterPick(t0: int)
    ensures
      var s1 := Step(Init(t0), ExprTick(Purple, 0.95)).next;
      var s2 := Step(s1, ExprTick(Purple, 0.8)).next;
      var s3 := Step(s2, Fire(ExpressionReset(Purple))).next;
      && s2.faces.Get(Purple) == WideSmile
      && s3.faces.Get(Purple) == Smile
      && ExpressionReset(Purple) in s3.pending
  {
    var s0 := Init(t0);
    var s1 := Step(s0, ExprTick(Purple, 0.95)).next;
    assert s1.mode == Idle && s1.pending == multiset{ExpressionReset(Purple)};
    var s2 := Step(s1, ExprTick(Purple, 0.8)).next;
    assert s2.faces.Get(Purple) == WideSmile;
    assert s2.pending == multiset{ExpressionReset(Purple), ExpressionReset(Purple)};
    var s3 := Step(s2, Fire(ExpressionReset(Purple))).next;
    assert s3.pending == multiset{ExpressionReset(Purple)};
  }

  /** A revert scheduled before a rejected submit turns one sad face back to a smile while the mode is still `sad`. */
  lemma RevertOverwritesSadFace(t0: int)
    ensures
      var s1 := Step(Init(t0), ExprTick(Yellow, 0.1)).next;
      var s2 := Step(s1, Submit("", "")).next;
      var s3 := Step(s2, Fire(ExpressionReset(Yellow))).next;
      && s2.faces == Uniform(Frown)
      && s3.mode == Sad
      && s3.faces.Get(Yellow) == Smile
      && s3.faces.Get(Purple) == Frown
  {
  }
}
