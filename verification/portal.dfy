/**
 The page as a whole: the router of src/App.js hosting the login scene of src/Login.js.

 The login scene exists exactly while the router shows the login page: it is mounted
 afresh when the page appears and discarded when it goes away. Its intervals and
 listeners stop with it, but its one-shot timers are never cleared. A discarded scene's
 timers therefore stay `detached` and still fire later; all of them only touch the
 discarded scene's state except the login follow-up, which calls the router's
 `onLogin` and so still logs the user in.
 */
module Portal {

  import opened Options
  import Identifier
  import opened App
  import Character

  datatype Portal = Portal(app: AppState, scene: Option<Character.State>, detached: multiset<Character.Timer>)

  datatype Input =
    | Click(button: Button, now: int)      // `now` is the mount time if the click shows the login page
    | Scene(event: Character.Event)        // an input or timer of the mounted login scene
    | LateFire(timer: Character.Timer)     // a timer left behind by a discarded login scene

  function Init(): (p: Portal)
    ensures ViewOf(p.app) == Hero && p.scene == None && p.detached == multiset{}
  {
    Portal(App.Init(), None, multiset{})
  }

  /** Discards the mounted scene, if any; its pending timers stay behind. */
  function Discard(p: Portal): (r: Portal)
    ensures r.scene == None && r.app == p.app
    ensures p.scene.Some? ==> r.detached == p.detached + p.scene.value.pending
    ensures p.scene.None? ==> r.detached == p.detached
  {
    match p.scene
    case None => p
    case Some(s) => Portal(p.app, None, p.detached + s.pending)
  }

  /** Moves the router to `a`, mounting a fresh scene at `now` when the login page appears and discarding it when the page goes away. */
  function Show(p: Portal, a: AppState, now: int): (r: Portal)
    ensures r.app == a
    ensures r.scene.Some? <==> ViewOf(a) == LoginPage
    ensures ViewOf(a) == LoginPage && p.scene.None? ==> r.scene == Some(Character.Init(now)) && r.detached == p.detached
    ensures ViewOf(a) == LoginPage && p.scene.Some? ==> r.scene == p.scene && r.detached == p.detached
    ensures ViewOf(a) != LoginPage ==>
      r.detached == p.detached + (if p.scene.Some? then p.scene.value.pending else multiset{})
  {
    if ViewOf(a) == LoginPage then
      if p.scene.None? then Portal(a, Some(Character.Init(now)), p.detached) else p.(app := a)
    else Discard(p).(app := a)
  }

  /** The router's `onLogin`: the welcome page replaces the login page, whose scene is discarded. */
  function LogIn(p: Portal, name: string): (r: Portal)
    ensures ViewOf(r.app) == Welcome(name)
    ensures r.scene == None
    ensures r.app.showLogin == p.app.showLogin
    ensures r.detached == p.detached + (if p.scene.Some? then p.scene.value.pending else multiset{})
  {
    Discard(p).(app := OnLogin(p.app, name))
  }

  /**
   One input to the page. A click goes to the router, a scene event to the mounted scene
   (and is lost when none is mounted), a late timer only leaves the detached set unless
   it is a login follow-up, which logs in.
   */
  function Step(p: Portal, i: Input): (r: Portal)
    ensures i.Click? ==> r.app == Press(p.app, i.button)
    ensures i.Scene? && p.scene.None? ==> r == p
    ensures i.Scene? && p.scene.Some? && !Character.Step(p.scene.value, i.event).login.Some? ==>
      r == p.(scene := Some(Character.Step(p.scene.value, i.event).next))
    ensures i.Scene? && p.scene.Some? && Character.Step(p.scene.value, i.event).login.Some? ==>
      ViewOf(r.app) == Welcome(Character.Step(p.scene.value, i.event).login.value) && r.scene == None
    ensures i.LateFire? && i.timer !in p.detached ==> r == p
    ensures i.LateFire? && i.timer in p.detached && !i.timer.LoginFollowUp? ==>
      r == p.(detached := p.detached - multiset{i.timer})
    ensures i.LateFire? && i.timer in p.detached && i.timer.LoginFollowUp? ==>
      ViewOf(r.app) == Welcome(i.timer.name) && r.scene == None
      && r.detached == p.detached - multiset{i.timer} + (if p.scene.Some? then p.scene.value.pending else multiset{})
  {
    match i
    case Click(b, now) => Show(p, Press(p.app, b), now)
    case Scene(e) =>
      if p.scene.None? then p
      else
        var o := Character.Step(p.scene.value, e);
        if o.login.Some? then LogIn(p.(scene := Some(o.next)), o.login.value)
        else p.(scene := Some(o.next))
    case LateFire(t) =>
      if t !in p.detached then p
      else
        var rest := p.(detached := p.detached - multiset{t});
        if t.LoginFollowUp? then LogIn(rest, t.name) else rest
  }

  function Run(p: Portal, ins: seq<Input>): Portal
    decreases |ins|
  {
    if |ins| == 0 then p else Run(Step(p, ins[0]), ins[1..])
  }

  /**
   What holds on every reachable page:
   - a login scene is mounted exactly while the login page shows, and it satisfies the scene invariant;
   - the user name, and every login identifier still pending, is free of '@'.
   */
  ghost predicate Inv(p: Portal) {
    && (p.scene.Some? <==> ViewOf(p.app) == LoginPage)
    && (p.scene.Some? ==> Character.Inv(p.scene.value))
    && '@' !in p.app.userName
    && (forall t :: t in p.detached && t.LoginFollowUp? ==> '@' !in t.name)
  }

  lemma InitInv()
    ensures Inv(Init())
  {
  }

  lemma StepInv(p: Portal, i: Input)
    requires Inv(p)
    ensures Inv(Step(p, i))
  {
    match i
    case Click(b, now) =>
      var a := Press(p.app, b);
      if ViewOf(a) == LoginPage && p.scene.None? {
        Character.InitInv(now);
      }
      DiscardInv(p);
    case Scene(e) =>
      if p.scene.Some? {
        var s := p.scene.value;
        var o := Character.Step(s, e);
        Character.StepInv(s, e);
        var q := p.(scene := Some(o.next));
        DiscardInv(q);
        if o.login.Some? {
          assert e.Fire? && e.timer in s.pending;
        }
      }
    case LateFire(t) =>
      if t in p.detached {
        var rest := p.(detached := p.detached - multiset{t});
        assert forall u :: u in rest.detached ==> u in p.detached;
        DiscardInv(rest);
      }
  }

  /** Discarding a scene keeps every pending login identifier free of '@'. */
  lemma DiscardInv(p: Portal)
    requires p.scene.Some? ==> Character.Inv(p.scene.value)
    requires forall t :: t in p.detached && t.LoginFollowUp? ==> '@' !in t.name
    ensures forall t :: t in Discard(p).detached && t.LoginFollowUp? ==> '@' !in t.name
  {
  }

  /** Every page reached from the initial one satisfies the invariant. */
  lemma {:induction false} RunInv(p: Portal, ins: seq<Input>)
    requires Inv(p)
    ensures Inv(Run(p, ins))
    decreases |ins|
  {
    if |ins| > 0 {
      StepInv(p, ins[0]);
      RunInv(Step(p, ins[0]), ins[1..]);
    }
  }

  /** Whatever happens, the welcome page never greets a name containing '@'. */
  lemma WelcomeNameHasNoAt(ins: seq<Input>)
    ensures ViewOf(Run(Init(), ins).app).Welcome? ==> '@' !in ViewOf(Run(Init(), ins).app).name
  {
    InitInv();
    RunInv(Init(), ins);
  }

  /** An accepted submit on the login page, once its follow-up fires, shows the welcome page with the e-mail's local part. */
  lemma SubmitReachesWelcome(p: Portal, email: string, password: string)
    requires Inv(p) && ViewOf(p.app) == LoginPage
    requires |email| > 0 && |password| > 0
    ensures
      var name := Identifier.LocalPart(email);
      var q := Step(Step(p, Scene(Character.Submit(email, password))), Scene(Character.Fire(Character.LoginFollowUp(name))));
      ViewOf(q.app) == Welcome(name) && q.scene == None
  {
    var name := Identifier.LocalPart(email);
    var s1 := SubmitPending(p, email, password);
    var o := Character.Step(s1, Character.Fire(Character.LoginFollowUp(name)));
    assert o.login == Some(name);
  }

  /** After an accepted submit on the login page, the scene stays mounted with the login follow-up pending. */
  lemma SubmitPending(p: Portal, email: string, password: string) returns (s1: Character.State)
    requires Inv(p) && ViewOf(p.app) == LoginPage
    requires |email| > 0 && |password| > 0
    ensures Step(p, Scene(Character.Submit(email, password))) == p.(scene := Some(s1))
    ensures Character.LoginFollowUp(Identifier.LocalPart(email)) in s1.pending
  {
    var o := Character.Step(p.scene.value, Character.Submit(email, password));
    assert o.login == None;
    s1 := o.next;
  }

  /** A rejected submit keeps the login page; its follow-up returns the scene to `idle`. */
  lemma RejectedSubmitStays(p: Portal, email: string, password: string)
    requires Inv(p) && ViewOf(p.app) == LoginPage
    requires |email| == 0 || |password| == 0
    ensures
      var q := Step(Step(p, Scene(Character.Submit(email, password))), Scene(Character.Fire(Character.SadFollowUp)));
      ViewOf(q.app) == LoginPage && q.scene.Some? && q.scene.value.mode == Character.Idle
  {
    var o1 := Character.Step(p.scene.value, Character.Submit(email, password));
    assert o1.login == None;
    var s1 := o1.next;
    assert Character.SadFollowUp in s1.pending;
    var o2 := Character.Step(s1, Character.Fire(Character.SadFollowUp));
    assert o2.login == None && o2.next.mode == Character.Idle;
  }

  /**
   Going back to the hero page does not cancel an accepted login: the follow-up of the
   discarded scene still fires and the welcome page appears.
   */
  lemma BackDoesNotCancelLogin(p: Portal, email: string, password: string, now: int)
    requires Inv(p) && ViewOf(p.app) == LoginPage
    requires |email| > 0 && |password| > 0
    ensures
      var name := Identifier.LocalPart(email);
      var q1 := Step(p, Scene(Character.Submit(email, password)));
      var q2 := Step(q1, Click(BackToCosmos, now));
      var q3 := Step(q2, LateFire(Character.LoginFollowUp(name)));
      ViewOf(q2.app) == Hero && ViewOf(q3.app) == Welcome(name)
  {
    var name := Identifier.LocalPart(email);
    var s1 := SubmitPending(p, email, password);
    var q2 := Step(p.(scene := Some(s1)), Click(BackToCosmos, now));
    assert ViewOf(q2.app) == Hero;
    assert Character.LoginFollowUp(name) in q2.detached;
  }

  /** Logging out shows the hero page again with no scene mounted, and the name is kept. */
  lemma LogoutShowsHero(p: Portal, now: int)
    requires Inv(p) && ViewOf(p.app).Welcome?
    ensures ViewOf(Step(p, Click(Logout, now)).app) == Hero
    ensures Step(p, Click(Logout, now)).scene == None
    ensures Step(p, Click(Logout, now)).app.userName == p.app.userName
  {
  }

  /** The worked example: enter the portal, log in as "a@b.com" with password "x", and be greeted as "a". */
  lemma ExampleLogin(t0: int)
    ensures
      var ins := [Click(EnterPortal, t0),
                 Scene(Character.Submit("a@b.com", "x")),
                 Scene(Character.Fire(Character.LoginFollowUp("a")))];
      ViewOf(Run(Init(), ins).app) == Welcome("a")
  {
    Identifier.LocalPartExample();
    var ins := [Click(EnterPortal, t0),
               Scene(Character.Submit("a@b.com", "x")),
               Scene(Character.Fire(Character.LoginFollowUp("a")))];
    var p1 := Step(Init(), ins[0]);
    var p2 := Step(p1, ins[1]);
    var p3 := Step(p2, ins[2]);
    assert Run(Init(), ins) == Run(p1, ins[1..]);
    assert ins[1..][1..] == [ins[2]];
    assert Run(p2, [ins[2]]) == p3;
  }
}
