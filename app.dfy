/**
 * app/page.js: which screen `AppContent` shows for the session state, and
 * the profile-click handler.
 */
module App {
  import opened Wrappers
  import opened Text
  import opened Identity
  import Auth

  datatype Screen = LoadingScreen | AuthForm | StudentPage | TeacherPage | AdminDashboard

  /** `renderPage`: the page for a role; any role it does not know gets the student page. */
  function RenderPage(role: string): (screen: Screen)
    ensures screen == TeacherPage <==> role == "teacher"
    ensures screen == AdminDashboard <==> role == "admin"
    ensures screen == StudentPage <==> role != "teacher" && role != "admin"
    ensures screen !in {LoadingScreen, AuthForm}
  {
    match role
    case "student" => StudentPage
    case "teacher" => TeacherPage
    case "admin" => AdminDashboard
    case _ => StudentPage
  }

  /**
   * `AppContent`: loading first, then the sign-in form without a user, then
   * the role's page. The loading screen shows exactly while loading, the
   * sign-in form exactly when loading is over and nobody is signed in.
   */
  function AppScreen(isLoading: bool, user: Option<User>): (screen: Screen)
    ensures screen == LoadingScreen <==> isLoading
    ensures screen == AuthForm <==> !isLoading && user.None?
    ensures !isLoading && user.Some? ==> screen == RenderPage(user.value.role)
  {
    if isLoading then LoadingScreen
    else if user.None? then AuthForm
    else RenderPage(user.value.role)
  }

  /** After a mock login the teacher page is shown exactly when the address contains "teacher". */
  lemma ScreenAfterLogin(email: string)
    ensures AppScreen(false, Some(Auth.LoginUser(email))) == TeacherPage <==> Contains(email, "teacher")
    ensures AppScreen(false, Some(Auth.LoginUser(email))) == AdminDashboard <==>
      !Contains(email, "teacher") && Contains(email, "admin")
  {
  }

  /** The state `AppContent` keeps itself. */
  class AppContent {
    var showTeacherProfile: bool

    constructor ()
      ensures !showTeacherProfile
    {
      showTeacherProfile := false;
    }

    /** `handleProfileClick`: only a teacher's click sets the flag; any other leaves it as it was. */
    method ProfileClick(user: Option<User>)
      modifies this
      ensures user.Some? && user.value.role == "teacher" ==> showTeacherProfile
      ensures !(user.Some? && user.value.role == "teacher") ==> showTeacherProfile == old(showTeacherProfile)
    {
      if user.Some? && user.value.role == "teacher" {
        showTeacherProfile := true;
      }
    }
  }
}
