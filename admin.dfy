/**
 * components/dashboards/AdminDashboard.js: the managed user list, the
 * add-user form, deletion, the active/inactive switch, the system figures
 * and the role icon and badge maps.
 */
module Admin {
  import opened Wrappers
  import opened Sequences

  /** A row of the user table. `attendanceRate` is `undefined` (None) for non-students added here. */
  datatype ManagedUser = ManagedUser(
    id: string, name: string, email: string, role: string,
    status: string, lastLogin: string, attendanceRate: Option<int>)

  /** The add-user form. */
  datatype NewUserForm = NewUserForm(name: string, email: string, role: string)

  /** The form as it starts and as a successful add leaves it. */
  const EmptyForm := NewUserForm("", "", "student")

  /** The users the dashboard starts with. */
  const InitialUsers: seq<ManagedUser> := [
    ManagedUser("1", "Alice Johnson", "alice@student.com", "student", "active", "2024-01-20", Some(85)),
    ManagedUser("2", "Bob Smith", "bob@student.com", "student", "active", "2024-01-19", Some(92)),
    ManagedUser("3", "Dr. Carol Davis", "carol@teacher.com", "teacher", "active", "2024-01-20", None),
    ManagedUser("4", "Prof. David Wilson", "david@teacher.com", "teacher", "active", "2024-01-19", None)
  ]

  // ------------------------------------------------------------------- add

  /** `handleAddUser` accepts the form only with a name and an email (both non-empty). */
  predicate FormComplete(form: NewUserForm): (ok: bool)
    ensures ok <==> |form.name| > 0 && |form.email| > 0
  {
    form.name != "" && form.email != ""
  }

  /** The row a valid add appends: active, never logged in, rate 0 for a student and undefined otherwise. */
  function NewManagedUser(id: string, form: NewUserForm): (u: ManagedUser)
    ensures u.id == id && u.name == form.name && u.email == form.email && u.role == form.role
    ensures u.status == "active" && u.lastLogin == "Never"
    ensures u.attendanceRate == if form.role == "student" then Some(0) else None
  {
    ManagedUser(id, form.name, form.email, form.role, "active", "Never",
                if form.role == "student" then Some(0) else None)
  }

  // ---------------------------------------------------------------- delete

  /** `handleDeleteUser`'s new list: every row with that id gone, the others kept in order and multiplicity. */
  function WithoutUser(users: seq<ManagedUser>, id: string): (r: seq<ManagedUser>)
    ensures IsSubsequence(r, users)
    ensures forall u :: u in r <==> u in users && u.id != id
    ensures forall u :: (multiset(r)[u] == if u.id != id then multiset(users)[u] else 0)
    decreases |users|
  {
    if |users| == 0 then []
    else
      assert users == [users[0]] + users[1..];
      if users[0].id != id then [users[0]] + WithoutUser(users[1..], id)
      else WithoutUser(users[1..], id)
  }

  /** Deleting an id no row has is a no-op. */
  lemma {:induction false} DeleteAbsent(users: seq<ManagedUser>, id: string)
    requires forall u :: u in users ==> u.id != id
    ensures WithoutUser(users, id) == users
    decreases |users|
  {
    if |users| > 0 {
      assert users[0] in users;
      assert forall u :: u in users[1..] ==> u in users;
      DeleteAbsent(users[1..], id);
    }
  }

  // ---------------------------------------------------------------- status

  /** `"active"` becomes `"inactive"`; every other status becomes `"active"`. */
  function FlipStatus(status: string): (r: string)
    ensures r == "inactive" <==> status == "active"
    ensures r == "active" <==> status != "active"
  {
    if status == "active" then "inactive" else "active"
  }

  /**
   * `toggleUserStatus`'s new list: the rows with that id change status, active
   * to inactive and anything else to active; no other row or field changes.
   */
  function WithToggledStatus(users: seq<ManagedUser>, id: string): (r: seq<ManagedUser>)
    ensures |r| == |users|
    ensures forall i :: 0 <= i < |users| && users[i].id != id ==> r[i] == users[i]
    ensures forall i :: 0 <= i < |users| && users[i].id == id ==>
      r[i].(status := users[i].status) == users[i] &&
      (users[i].status == "active" <==> r[i].status == "inactive") &&
      (users[i].status != "active" <==> r[i].status == "active")
  {
    seq(|users|, i requires 0 <= i < |users| =>
      if users[i].id == id then users[i].(status := FlipStatus(users[i].status)) else users[i])
  }

  /** Every status is one of the two the dashboard writes. */
  predicate StatusesValid(users: seq<ManagedUser>) {
    forall u :: u in users ==> u.status == "active" || u.status == "inactive"
  }

  /** Switching the same user twice restores the list, for the statuses the dashboard writes. */
  lemma ToggleTwice(users: seq<ManagedUser>, id: string)
    requires StatusesValid(users)
    ensures WithToggledStatus(WithToggledStatus(users, id), id) == users
  {
    var once := WithToggledStatus(users, id);
    var twice := WithToggledStatus(once, id);
    forall i | 0 <= i < |users| ensures twice[i] == users[i] {
      assert users[i] in users;
    }
  }

  /** A status outside the two is not restored by two switches: the first makes it "active", the second "inactive". */
  lemma ToggleTwiceUnknownStatus(users: seq<ManagedUser>, id: string, i: nat)
    requires i < |users| && users[i].id == id
    requires users[i].status != "active" && users[i].status != "inactive"
    ensures WithToggledStatus(WithToggledStatus(users, id), id)[i].status == "inactive"
    ensures WithToggledStatus(WithToggledStatus(users, id), id) != users
  {
    var once := WithToggledStatus(users, id);
    assert once[i].status == "active";
    var twice := WithToggledStatus(once, id);
    assert twice[i].status == "inactive";
    assert twice[i] != users[i];
  }

  /** Every operation of the dashboard keeps the statuses valid. */
  lemma StatusesStayValid(users: seq<ManagedUser>, id: string, form: NewUserForm)
    requires StatusesValid(users)
    ensures StatusesValid(WithToggledStatus(users, id))
    ensures StatusesValid(WithoutUser(users, id))
    ensures StatusesValid(users + [NewManagedUser(id, form)])
  {
    var t := WithToggledStatus(users, id);
    forall u | u in t ensures u.status == "active" || u.status == "inactive" {
      var i :| 0 <= i < |t| && t[i] == u;
      assert users[i] in users;
    }
  }

  // ----------------------------------------------------------------- stats

  /** How many rows have status "active". */
  function CountActive(users: seq<ManagedUser>): (n: nat)
    ensures n <= |users|
  {
    if |users| == 0 then 0
    else (if users[0].status == "active" then 1 else 0) + CountActive(users[1..])
  }

  /** How many rows have the given role. */
  function CountRole(users: seq<ManagedUser>, role: string): (n: nat)
    ensures n <= |users|
  {
    if |users| == 0 then 0
    else (if users[0].role == role then 1 else 0) + CountRole(users[1..], role)
  }

  datatype SystemStats = SystemStats(
    totalUsers: nat, activeUsers: nat, totalStudents: nat, totalTeachers: nat,
    averageAttendance: int, systemUptime: string)

  /** `systemStats`; the average and the uptime are fixed figures in the source. */
  function Stats(users: seq<ManagedUser>): (st: SystemStats)
    ensures st.activeUsers <= st.totalUsers
  {
    SystemStats(|users|, CountActive(users), CountRole(users, "student"), CountRole(users, "teacher"), 87, "99.9%")
  }

  /** Students and teachers together are never more than all users. */
  lemma {:induction false} StudentsAndTeachersBounded(users: seq<ManagedUser>)
    ensures Stats(users).totalStudents + Stats(users).totalTeachers <= Stats(users).totalUsers
    decreases |users|
  {
    if |users| > 0 {
      StudentsAndTeachersBounded(users[1..]);
    }
  }

  /** Counting over a list with one more row at the end. */
  lemma {:induction false} CountsAppend(users: seq<ManagedUser>, u: ManagedUser, role: string)
    ensures CountActive(users + [u]) == CountActive(users) + (if u.status == "active" then 1 else 0)
    ensures CountRole(users + [u], role) == CountRole(users, role) + (if u.role == role then 1 else 0)
    decreases |users|
  {
    if |users| > 0 {
      assert (users + [u])[1..] == users[1..] + [u];
      CountsAppend(users[1..], u, role);
    } else {
      assert users + [u] == [u];
    }
  }

  /** A valid add raises the user and active counts by one, and the count of the new user's role. */
  lemma StatsAfterAdd(users: seq<ManagedUser>, id: string, form: NewUserForm)
    ensures Stats(users + [NewManagedUser(id, form)]).totalUsers == |users| + 1
    ensures Stats(users + [NewManagedUser(id, form)]).activeUsers == CountActive(users) + 1
    ensures Stats(users + [NewManagedUser(id, form)]).totalStudents
         == CountRole(users, "student") + (if form.role == "student" then 1 else 0)
  {
    CountsAppend(users, NewManagedUser(id, form), "student");
  }

  // ----------------------------------------------------------- role tables

  datatype RoleIcon = GraduationCapIcon | BookOpenIcon | SettingsIcon

  /** `getRoleIcon`: `undefined` (None) for a role outside the three. */
  function RoleIconFor(role: string): (icon: Option<RoleIcon>)
    ensures icon == Some(GraduationCapIcon) <==> role == "student"
    ensures icon == Some(BookOpenIcon) <==> role == "teacher"
    ensures icon == Some(SettingsIcon) <==> role == "admin"
    ensures icon == None <==> role !in {"student", "teacher", "admin"}
  {
    match role
    case "student" => Some(GraduationCapIcon)
    case "teacher" => Some(BookOpenIcon)
    case "admin" => Some(SettingsIcon)
    case _ => None
  }

  /** `getRoleBadgeVariant`: `undefined` (None) for a role outside the three. */
  function RoleBadgeVariant(role: string): (variant: Option<string>)
    ensures variant == Some("destructive") <==> role == "admin"
    ensures variant == Some("default") <==> role == "teacher"
    ensures variant == Some("secondary") <==> role == "student"
    ensures variant == None <==> role !in {"student", "teacher", "admin"}
  {
    match role
    case "admin" => Some("destructive")
    case "teacher" => Some("default")
    case "student" => Some("secondary")
    case _ => None
  }

  // ------------------------------------------------------------- dashboard

  /** The dashboard component's state. */
  class AdminDashboardState {
    var users: seq<ManagedUser>
    var newUser: NewUserForm

    constructor ()
      ensures users == InitialUsers && newUser == EmptyForm
      ensures StatusesValid(users)
    {
      users := InitialUsers;
      newUser := EmptyForm;
    }

    /** The form's name box. */
    method SetFormName(name: string)
      modifies this`newUser
      ensures newUser == old(newUser).(name := name)
    {
      newUser := newUser.(name := name);
    }

    /** The form's email box. */
    method SetFormEmail(email: string)
      modifies this`newUser
      ensures newUser == old(newUser).(email := email)
    {
      newUser := newUser.(email := email);
    }

    /** The form's role selector. */
    method SetFormRole(role: string)
      modifies this`newUser
      ensures newUser == old(newUser).(role := role)
    {
      newUser := newUser.(role := role);
    }

    /**
     * `handleAddUser`: with a name and an email, one row is appended and the
     * form is reset; otherwise neither the list nor the form changes.
     * `id` is the clock reading the source uses as the new id.
     */
    method AddUser(id: string)
      modifies this
      ensures !FormComplete(old(newUser)) ==> users == old(users) && newUser == old(newUser)
      ensures FormComplete(old(newUser)) ==>
        users == old(users) + [NewManagedUser(id, old(newUser))] && newUser == EmptyForm
      ensures StatusesValid(old(users)) ==> StatusesValid(users)
    {
      if StatusesValid(users) {
        StatusesStayValid(users, id, newUser);
      }
      if newUser.name != "" && newUser.email != "" {
        var user := NewManagedUser(id, newUser);
        users := users + [user];
        newUser := EmptyForm;
      }
    }

    /** `handleDeleteUser` */
    method DeleteUser(id: string)
      modifies this`users
      ensures users == WithoutUser(old(users), id)
      ensures StatusesValid(old(users)) ==> StatusesValid(users)
    {
      users := WithoutUser(users, id);
    }

    /** `toggleUserStatus` */
    method ToggleUserStatus(id: string)
      modifies this`users
      ensures users == WithToggledStatus(old(users), id)
      ensures StatusesValid(old(users)) ==> StatusesValid(users)
    {
      if StatusesValid(users) {
        StatusesStayValid(users, id, newUser);
      }
      users := WithToggledStatus(users, id);
    }
  }
}
