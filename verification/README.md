# Animated login portal: interaction state machine

A Dafny model of the discrete behaviour of a small React page. The page has three views:
a cosmic hero page, a login page and a welcome card. The login page shows four cartoon
shapes (purple, orange, black, yellow). Their faces react to which form field has focus,
to whether a submit was accepted, to a blink timer, to a random-expression timer and to
the pointer's speed.

The model has six modules:

- `Identifier` is the user identifier handed to the host after a login. It is the part
  of the e-mail before the first `@`, as `email.split('@')[0]` computes it.
- `Character` is the login scene as a pure `Step(state, event)`. Its state holds the
  global mode (`idle`, `email`, `password`, `happy`, `sad`) and a total map from shape to
  expression. It also holds the blink and wobble flags, the pointer-speed tracker and
  the multiset of pending one-shot timers. Each handler and each timer callback of the
  component is one case of `Step`. The time and the `Math.random` draws come in as event
  parameters. A timer callback runs when the event `Fire(t)` arrives for a pending `t`.
- `Face` is the eye and mouth lookup that the render draws for each shape.
- `App` is the three-view router: its view selection and its four transitions.
- `Portal` puts the router and the scene together. A scene is mounted while the login
  page shows and thrown away when the page goes away. The timers of a discarded scene
  keep running. Only the login follow-up among them still has an effect: it calls the
  router's `onLogin`.

Where the intended behaviour of the page differs from what src/Login.js does, the model
follows src/Login.js:

- The intended behaviour is that a pending per-shape revert is cancelled when a state change
  overrides it, and that timers are cancelled when their state is left. src/Login.js cancels
  no `setTimeout`. So a revert can overwrite the faces a submit set
  (`Character.RevertOverwritesSadFace`). A revert can also land while a later pick of the
  same shape is still on hold (`Character.RevertRacesLaterPick`). And going back to the
  hero page does not stop an accepted login from completing (`Portal.BackDoesNotCancelLogin`).
- The focus transitions are meant to start from `idle`. src/Login.js sets the mode
  from any mode.
- The inverted "sad" mouth is meant to follow the sad expression. src/Login.js keys it
  on the `sad` mode. A sad expression in any other mode except `happy` draws a
  transparent, smile-shaped mouth (`Face.SadExpressionOutsideSadMode`).

## Model

| member | source | states |
|---|---|---|
| Identifier.LocalPart | src/Login.js:158 | the identifier is a prefix of the e-mail, contains no '@', and stops either at the end of the e-mail or right before its first '@' |
| Identifier.LocalPartUnique | src/Login.js:158 | those three properties define the identifier uniquely: any prefix with them equals it |
| Identifier.LocalPartOfAddress | src/Login.js:158 | round trip: for an '@'-free local part, the identifier of `local@domain` is that local part |
| Identifier.LocalPartWithoutAt | src/Login.js:158 | an e-mail with no '@' is passed to the host whole |
| Identifier.LocalPartExample | src/Login.js:158 | "a@b.com" gives "a" |
| Character.Init | src/Login.js:5-22 | at mount the mode is idle, every shape smiles, nothing blinks or wobbles, no timer is pending, the pointer, the last sample position and the gaze target are all (0, 0), so the first pointer sample measures its speed from the origin, the stored speed is 0, and the last sample time is the mount time |
| Character.Draw | src/Login.js:56-65 | the weighted draw never yields the sad expression; it smiles exactly below 0.7, wide-smiles exactly in [0.7, 0.9), and is surprised exactly from 0.9 |
| Character.PickShape | src/Login.js:53-54 | for a draw in [0, 1), the i-th shape is picked exactly when the draw lies in [i/4, (i+1)/4) |
| Character.RandomTickFromDraws | src/Login.js:51-70 | for two random draws in idle mode, the shape whose quarter of [0, 1) holds the first draw takes the expression the second draw selects and every other shape keeps its expression; outside idle no face changes |
| Character.OnSubmit | src/Login.js:146-178 | both fields non-empty: mode happy, all four shapes wide-smile, and a login follow-up carrying the e-mail's identifier is scheduled; otherwise: mode sad, all four sad, and the sad follow-up is scheduled; nothing else changes |
| Character.OnBlinkTick | src/Login.js:40-45 | in password mode nothing changes; otherwise a blink starts and its reset is scheduled; nothing else changes |
| Character.OnExprTick | src/Login.js:51-79 | outside idle nothing changes; in idle only the chosen shape changes, to the drawn expression (never sad), and its revert is scheduled |
| Character.OnMouseMove | src/Login.js:87-108 | the pointer and last sample always move to the new point and time; with a positive time gap the stored squared speed times the squared gap equals the squared distance; a wobble starts, with one reset scheduled, exactly when the gap is positive, no wobble runs, and the squared distance exceeds 9 times the squared gap |
| Character.SpeedSqMeaning | src/Login.js:92-100 | `speed > 3.0` on the squared speed is the same test as dx²+dy² > 9·dt² |
| Character.OnTimer | src/Login.js:43-176 | each callback sets its value with no check: blink reset clears the blink, expression reset makes its shape smile, wobble reset clears the wobble, the sad follow-up restores idle with all smiles, the login follow-up leaves the scene as it is |
| Character.Handle | src/Login.js:518-537 | focus on e-mail, focus on password and blur set only the mode; a timer that is no longer pending changes nothing, and a pending one is removed from the pending set when it runs; only a pointer move changes the pointer and speed sample; no handler moves the gaze |
| Character.Aim | src/Login.js:116-144 | the gaze effect changes nothing but the gaze target; it re-aims at the pointer exactly when the mode is not password and the pointer was sampled or the mode changed, and otherwise keeps the previous target |
| Character.Step | src/Login.js:116-144 | the eyes re-aim at the pointer after a move or a mode change outside password mode, and never move in password mode; `onLogin` is called exactly when a pending login follow-up fires, with its identifier |
| Character.InitInv | src/Login.js:5-22 | the mount state satisfies the scene invariant |
| Character.StepInv | src/Login.js:38-113 | every event keeps the invariant: a blink has its reset pending; exactly one wobble reset is pending while wobbling and none otherwise; sad mode has its recovery pending; the speed refs match the pointer; outside password mode the eyes aim at the pointer; pending identifiers contain no '@' |
| Character.FinishStep | src/Login.js:116-144 | once a handler keeps the timer part of the invariant, the gaze effect restores the pointer part, so the whole step keeps the invariant |
| Character.AimInv | src/Login.js:116-144 | the gaze effect leaves every timer fact alone, and afterwards outside password mode the eyes aim at the pointer |
| Character.FireInv | src/Login.js:73-78 | a timer firing keeps the timer part of the invariant |
| Character.SubmitInv | src/Login.js:146-178 | a submit keeps the timer part of the invariant, and its new identifier contains no '@' |
| Character.MouseMoveInv | src/Login.js:87-108 | a pointer sample keeps the timer part of the invariant; in particular it never schedules a second wobble reset |
| Character.BlinkTickInv | src/Login.js:40-45 | a blink tick keeps the timer part of the invariant |
| Character.ExprTickInv | src/Login.js:51-79 | a random-expression tick keeps the timer part of the invariant |
| Character.RunInv | src/Login.js:38-113 | every state reachable by any event sequence keeps the invariant |
| Character.RunNamesHaveNoAt | src/Login.js:157-159 | along any run, every identifier passed to `onLogin` is free of '@' |
| Character.FocusSetsMode | src/Login.js:518-537 | focus on e-mail, focus on password and blur set the mode to email, password and idle from any mode, leaving the faces and timers unchanged |
| Character.FocusThenBlur | src/Login.js:518-519 | focusing a field and then blurring it returns to idle with the faces as they were |
| Character.RejectedSubmitRecovers | src/Login.js:160-176 | a submit with an empty field goes sad and its follow-up restores idle with every shape smiling |
| Character.AcceptedSubmitLogsIn | src/Login.js:149-159 | a submit with both fields filled goes happy with all wide smiles, and its follow-up calls `onLogin` with the e-mail's identifier |
| Character.ExprTickOnlyInIdle | src/Login.js:51-70 | the random expression leaves all faces alone outside idle; in idle it changes only the chosen shape, never to sad |
| Character.RevertIgnoresMode | src/Login.js:73-77 | a pending revert makes its shape smile whatever the mode and the current expression, and changes neither the mode nor the other shapes |
| Character.BlinkRules | src/Login.js:40-45 | after a blink tick the eyes blink exactly when the mode is not password or a blink was already on; a blink reset always ends the blink |
| Character.WobbleNotRestarted | src/Login.js:100-103 | a pointer sample during a wobble, however fast, leaves exactly one wobble reset pending |
| Character.GazeFrozenInPassword | src/Login.js:116-117 | no event that ends in password mode moves the eyes |
| Character.RevertRacesLaterPick | src/Login.js:67-78 | the first revert of a shape lands even though a later pick of the same shape still has its own revert pending |
| Character.RevertOverwritesSadFace | src/Login.js:73-78 | a revert scheduled before a rejected submit turns one sad face back to a smile while the mode stays sad |
| Face.EyesFor | src/Login.js:205-213 | the eyes are shut (vertical scale 0.1, horizontal scale untouched) exactly when blinking or in password mode; otherwise they squint (1.3 by 0.7) for a wide smile or the happy mode, widen (1.2 by 1.4) when surprised, and are neutral otherwise; the pupil grows to 1.3 exactly when surprised |
| Face.MouthFor | src/Login.js:262-280 | for a wide smile, and in happy mode whatever the expression, the mouth is the 55×25 wide filled curve; a sad expression in sad mode gives the transparent inverted 40×3 curve; it is transparent exactly for a sad expression outside happy mode; the inverted 40×3 curve shows exactly for a sad expression in sad mode; smile and surprised outside happy mode give their own fixed shapes |
| Face.PupilTravelSq | src/Login.js:132-135 | the squared pupil displacement never exceeds 7², equals the squared distance over 20² within 140 px, and is 7² beyond |
| Face.SpeedBadgeAfterMove | src/Login.js:475 | after a sample with a positive time gap the speed badge shows exactly when the move was faster than 3 px/ms |
| Face.HappyFaces | src/Login.js:262-280 | in happy mode every shape draws the wide filled smile and, unless blinking, squinting eyes |
| Face.PasswordShutsEyes | src/Login.js:206-207 | in password mode every shape's eyes are shut and a blink tick starts no blink |
| Face.SadExpressionOutsideSadMode | src/Login.js:267-277 | after a rejected submit and a focus, every shape still has the sad expression but draws the transparent 40×15 smile-curve mouth |
| App.Init | src/App.js:6-8 | the first view is the hero page and the user name is empty |
| App.ViewOf | src/App.js:10-64 | the welcome view, with the stored name, shows exactly when logged in, whatever `showLogin` is; the login page shows exactly when not logged in and `showLogin`; the hero page otherwise |
| App.Press | src/App.js:17-58 | a button not on screen does nothing; Enter Portal leads to the login page, Back and Logout to the hero page; only Logout clears the login flag; no button changes the name |
| App.OnLogin | src/App.js:42-45 | the welcome view then greets exactly the given name, and `showLogin` is unchanged |
| App.EnterThenBack | src/App.js:30-64 | Enter Portal followed by Back restores the hero state exactly |
| App.LoginThenLogout | src/App.js:17-20 | logging in and then out always ends on the hero page with the name kept |
| Portal.Init | src/App.js:6-8 | the page starts on the hero view with no scene and no stray timers |
| Portal.Discard | src/App.js:30-49 | leaving the login page drops the scene and keeps all its pending timers |
| Portal.Show | src/App.js:30-49 | a scene is mounted exactly while the login page shows; arriving on the page mounts a fresh scene; staying on it keeps the scene; leaving it adds all of the scene's pending timers to the detached ones, which no other move changes |
| Portal.LogIn | src/App.js:41-46 | the scene's `onLogin` shows the welcome view with the given name and drops the scene, whose pending timers join the detached ones |
| Portal.Step | src/App.js:5-64 | a click moves the router by its button; a scene event with no scene mounted is lost; a scene event that does not log in only updates the scene; one that logs in shows the welcome view with the login identifier and no scene; a late timer not pending does nothing, a late non-login timer only leaves the detached set, and a late login follow-up still shows the welcome view with its identifier |
| Portal.StepInv | src/App.js:5-64 | every page input keeps the page invariant: a scene is mounted exactly on the login page and satisfies the scene invariant; the name and every pending identifier contain no '@' |
| Portal.DiscardInv | src/App.js:30-49 | dropping a scene keeps every pending identifier '@'-free |
| Portal.RunInv | src/App.js:5-64 | every reachable page satisfies the page invariant |
| Portal.WelcomeNameHasNoAt | src/App.js:14 | from the initial page, whatever happens, the welcome card never greets a name containing '@' |
| Portal.SubmitReachesWelcome | src/Login.js:149-159 | on the login page, an accepted submit and its follow-up show the welcome view with the e-mail's identifier |
| Portal.SubmitPending | src/Login.js:157-159 | an accepted submit keeps the scene mounted with the login follow-up pending |
| Portal.RejectedSubmitStays | src/Login.js:160-176 | a rejected submit and its follow-up keep the login page, with the scene back in idle |
| Portal.BackDoesNotCancelLogin | src/Login.js:157-159 | pressing Back after an accepted submit shows the hero page, but the submit's follow-up still logs in to the welcome view |
| Portal.LogoutShowsHero | src/App.js:17-20 | Logout from the welcome view shows the hero page with no scene and keeps the name |
| Portal.ExampleLogin | src/App.js:41-46 | entering the portal and logging in as "a@b.com" with password "x" ends on a welcome card for "a" |

## Left out

- Particle field (src/CosmicHero.js): floating-point trigonometry over float buffers, and three.js rendering. It is not part of this model.
- Gaze geometry: the `atan2`/`cos`/`sin` pupil vector and the bounding-rectangle reads are not modelled. The model keeps only the pointer position the eyes last aimed at (`aimedAt`) and the capped squared travel (`Face.PupilTravelSq`). A shape whose element is not laid out is not modelled; every shape is treated as mounted.
- Character.Draw: the draws of `Math.random()` are exact reals, not doubles. The thresholds 0.7 and 0.9 are taken as the exact decimals, while the code compares with the nearest doubles. The double nearest 0.7 lies slightly below 7/10, so a draw equal to it wide-smiles in the code but smiles here. The double nearest 0.9 lies slightly above 9/10 with no double in between, so that threshold agrees. `Character.PickShape` is exact for doubles, because multiplying by 4 does not round.
- Character.OnMouseMove: stores the square of `mouseSpeed`, not `mouseSpeed`, because Dafny has no square root. The threshold test is the same. Arithmetic is exact, with no IEEE rounding.
- Timer periods and delays (3.5 s, 150 ms, 2.5 s, 1 s, 1.5 s): a timer fires whenever the environment delivers it, so timing orders are not restricted. Restarting an interval when its effect re-registers on a mode change is not modelled.
- React scheduling: every event is assumed to be handled after the previous render. So the pointer listener sees the current wobble flag, and two samples within one render are not modelled.
- Random sparkles, hearts, hands, sweat drop, framer-motion animation values, colours, eye-white sizes and the style tables: presentation only.
- DOM details: the field `onChange` wiring is not modelled, because the field contents arrive as the `Submit` parameters. Also left out: `preventDefault`, the browser's `type="email"` validation, and the blur a button click causes before its submit.
- Timers of a discarded scene other than the login follow-up: they would only update unmounted component state, so they are kept as `detached` and have no effect when they fire.
- Pointer coordinates and `Date.now()` are taken as integers.
