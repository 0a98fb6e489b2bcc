/**
 * The login page: the chosen role is stored, admins must give the fixed
 * credentials, and each role is sent to its own landing page.
 */
module Login {
  import opened Wrappers
  import opened Storage
  import Text
  import MainLayout

  const AdminEmail := "admin@mail.com"
  const AdminPassword := "12345678"
  const RoleKey := "role"
  const MissingFieldsMessage := "Please enter your email and password."
  const InvalidAdminMessage := "Invalid admin credentials."

  /** The admin check: the email compared without case, the password exactly. */
  function AdminCredentialsOk(email: string, password: string): (b: bool)
    ensures b ==> password == AdminPassword && |email| == |AdminEmail|
  {
    Text.Lower(email) == AdminEmail && password == AdminPassword
  }

  /** The email comparison ignores case. */
  lemma AdminEmailIgnoresCase(e1: string, e2: string, password: string)
    requires Text.Lower(e1) == Text.Lower(e2)
    ensures AdminCredentialsOk(e1, password) <==> AdminCredentialsOk(e2, password)
  {
  }

  /** The fixed credentials pass the check; so does the email in any letter case. */
  lemma AdminCredentialsAccepted(email: string)
    requires Text.Lower(email) == AdminEmail
    ensures AdminCredentialsOk(AdminEmail, AdminPassword)
    ensures AdminCredentialsOk(email, AdminPassword)
  {
    var e := AdminEmail;
    assert e[0] == 'a' && e[1] == 'd' && e[2] == 'm' && e[3] == 'i' && e[4] == 'n' && e[5] == '@' && e[6] == 'm';
    assert e[7] == 'a' && e[8] == 'i' && e[9] == 'l' && e[10] == '.' && e[11] == 'c' && e[12] == 'o' && e[13] == 'm';
    Text.LowerOfLowercase(e);
  }

  /**
   * The landing page of a successful login. For each role the form offers,
   * it is the first entry of the menu the sidebar shows for that role; any
   * other role lands on the dashboard.
   */
  function LandingPath(role: string): (path: string)
    ensures role in {"user", "staff", "admin"} ==>
      MainLayout.Menu(Some(role)) != [] && path == MainLayout.Href(MainLayout.Menu(Some(role))[0])
    ensures role != "admin" && role != "staff" ==> path == MainLayout.Href(MainLayout.Dashboard)
  {
    if role == "admin" then "/admin" else if role == "staff" then "/staff" else "/"
  }

  /**
   * What a login attempt leaves behind: the storage, where the router was
   * sent (if anywhere), and the error toast's message (if any).
   */
  datatype Outcome = Outcome(storage: Store, navigation: Option<string>, error: Option<string>)

  class LoginPage {
    var email: string
    var password: string
    var role: string

    constructor ()
      ensures email == "" && password == "" && role == "user"
    {
      email, password, role := "", "", "user";
    }

    method SetEmail(e: string)
      modifies this`email
      ensures email == e
    {
      email := e;
    }

    method SetPassword(p: string)
      modifies this`password
      ensures password == p
    {
      password := p;
    }

    method SetRole(r: string)
      modifies this`role
      ensures role == r
    {
      role := r;
    }

    /**
     * `handleLogin`. An empty field is an error and changes nothing.
     * Otherwise the role is stored first; an admin with wrong credentials
     * then has the role key removed (whatever it held before) and gets an
     * error; every other case navigates to the role's landing page.
     */
    method HandleLogin(storage: Store) returns (out: Outcome)
      ensures email == "" || password == "" ==>
        out == Outcome(storage, None, Some(MissingFieldsMessage))
      ensures email != "" && password != "" && role == "admin" && !AdminCredentialsOk(email, password) ==>
        out == Outcome(RemoveItem(storage, RoleKey), None, Some(InvalidAdminMessage))
      ensures email != "" && password != "" && (role != "admin" || AdminCredentialsOk(email, password)) ==>
        out == Outcome(SetItem(storage, RoleKey, role), Some(LandingPath(role)), None)
      ensures out.navigation == Some("/admin") <==>
        email != "" && password != "" && role == "admin" && AdminCredentialsOk(email, password)
    {
      if email == "" || password == "" {
        return Outcome(storage, None, Some(MissingFieldsMessage));
      }
      var store := SetItem(storage, RoleKey, role);
      if role == "admin" {
        if AdminCredentialsOk(email, password) {
          out := Outcome(store, Some("/admin"), None);
        } else {
          store := RemoveItem(store, RoleKey);
          assert store == RemoveItem(storage, RoleKey);
          out := Outcome(store, None, Some(InvalidAdminMessage));
        }
      } else if role == "staff" {
        out := Outcome(store, Some("/staff"), None);
      } else {
        out := Outcome(store, Some("/"), None);
      }
    }
  }
}
