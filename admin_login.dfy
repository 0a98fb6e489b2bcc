/** The separate administrator login page. */
module AdminLogin {
  import opened Wrappers
  import opened Storage
  import Login

  const IsAdminKey := "isAdmin"

  class AdminLoginPage {
    var email: string
    var password: string

    constructor ()
      ensures email == "" && password == ""
    {
      email, password := "", "";
    }

    method SetEmail(e: string)
      modifies this`email
      ensures email == e
    {
      email := e;
    }

    method SetPassword(p: string)
      modifies this`password
      ensures password == p
    {
      password := p;
    }

    /**
     * `handleLogin`: the admin credentials set the `isAdmin` flag and go to
     * the admin page, leaving the `role` key alone; anything else is an
     * error that changes nothing.
     */
    method HandleLogin(storage: Store) returns (out: Login.Outcome)
      ensures Login.AdminCredentialsOk(email, password) ==>
        out == Login.Outcome(SetItem(storage, IsAdminKey, "true"), Some("/admin"), None)
      ensures !Login.AdminCredentialsOk(email, password) ==>
        out == Login.Outcome(storage, None, Some(Login.InvalidAdminMessage))
      ensures GetItem(out.storage, Login.RoleKey) == GetItem(storage, Login.RoleKey)
    {
      if Login.AdminCredentialsOk(email, password) {
        out := Login.Outcome(SetItem(storage, IsAdminKey, "true"), Some("/admin"), None);
      } else {
        out := Login.Outcome(storage, None, Some(Login.InvalidAdminMessage));
      }
    }
  }
}
