/**
 The three-view router of src/App.js: two flags and the user name decide whether the
 page shows the welcome card, the login scene or the cosmic hero; three buttons and
 the login callback are its only transitions.
 */
module App {

  /** The component's `useState` hooks. */
  datatype AppState = AppState(showLogin: bool, loggedIn: bool, userName: string)

  datatype View = Welcome(name: string) | LoginPage | Hero

  datatype Button = EnterPortal | BackToCosmos | Logout

  /** The hooks' initial values. */
  function Init(): (a: AppState)
    ensures ViewOf(a) == Hero && a.userName == ""
  {
    AppState(false, false, "")
  }

  /** The render: `isLoggedIn` wins over `showLogin`, and with neither the hero is shown. */
  function ViewOf(a: AppState): (v: View)
    ensures v.Welcome? <==> a.loggedIn
    ensures v.Welcome? ==> v.name == a.userName
    ensures v == LoginPage <==> !a.loggedIn && a.showLogin
    ensures v == Hero <==> !a.loggedIn && !a.showLogin
  {
    if a.loggedIn then Welcome(a.userName)
    else if a.showLogin then LoginPage
    else Hero
  }

  /** The button each view renders; a button is pressable only on its own view. */
  function ButtonOf(v: View): Button {
    match v
    case Welcome(_) => Logout
    case LoginPage => BackToCosmos
    case Hero => EnterPortal
  }

  /**
   The click handlers. Enter Portal sets only `showLogin`, Back clears only `showLogin`,
   Logout clears both flags and keeps the name; a button not on screen cannot be pressed.
   */
  function Press(a: AppState, b: Button): (r: AppState)
    ensures b != ButtonOf(ViewOf(a)) ==> r == a
    ensures r.userName == a.userName && r.loggedIn == (a.loggedIn && b != Logout)
    ensures b == ButtonOf(ViewOf(a)) && b == EnterPortal ==> ViewOf(r) == LoginPage
    ensures b == ButtonOf(ViewOf(a)) && b != EnterPortal ==> ViewOf(r) == Hero
    ensures b == ButtonOf(ViewOf(a)) ==> r.showLogin == (b == EnterPortal)
  {
    if b != ButtonOf(ViewOf(a)) then a
    else
      match b
      case EnterPortal => a.(showLogin := true)
      case BackToCosmos => a.(showLogin := false)
      case Logout => a.(loggedIn := false, showLogin := false)
  }

  /** The `onLogin` callback handed to the login scene: it records the name and logs in, leaving `showLogin` alone. */
  function OnLogin(a: AppState, name: string): (r: AppState)
    ensures ViewOf(r) == Welcome(name)
    ensures r.showLogin == a.showLogin
  {
    a.(userName := name, loggedIn := true)
  }

  /** Enter Portal and Back are inverse: the hero page comes back exactly as it was. */
  lemma EnterThenBack(a: AppState)
    requires ViewOf(a) == Hero
    ensures Press(Press(a, EnterPortal), BackToCosmos) == a
  {
  }

  /** Logging in and then out returns to the hero page, whichever page the login came from, and keeps the name. */
  lemma LoginThenLogout(a: AppState, name: string)
    ensures ViewOf(Press(OnLogin(a, name), Logout)) == Hero
    ensures Press(OnLogin(a, name), Logout).userName == name
  {
  }
}
