/**
 * How the stored role is read by the three places that use it: the login
 * pages write it, the sidebar and the ticket list read it.
 */
module RoleConsistency {
  import opened Wrappers
  import opened Storage
  import opened MainLayout
  import Tickets
  import TicketList
  import Login
  import AdminLogin

  /**
   * The sidebar and the ticket list agree on who counts as a user: the user
   * menu shows exactly when the ticket list selects by author.
   */
  lemma UserMenuIffUserTickets(stored: Option<string>)
    ensures Menu(stored) == UserGroup <==> TicketList.EffectiveRole(stored) == "user"
  {
  }

  /** The staff menu shows exactly when the ticket list selects by assignee. */
  lemma StaffMenuIffStaffTickets(stored: Option<string>)
    ensures Menu(stored) == StaffGroup <==> TicketList.EffectiveRole(stored) == "staff"
  {
  }

  /**
   * A role string the application does not know gets no menu at all, yet
   * the ticket list shows it every ticket, as it does for an admin.
   */
  lemma UnknownRoleSeesEverything(stored: Option<string>, all: seq<Tickets.Ticket>, userName: string, staffName: string)
    requires stored.Some? && stored.value !in {"", "user", "staff", "admin"}
    ensures Menu(stored) == []
    ensures TicketList.VisibleTickets(TicketList.EffectiveRole(stored), all, userName, staffName) == all
  {
  }

  /** A successful login lands on the first entry of the menu its stored role shows. */
  lemma LoginLandsOnFirstMenuEntry(storage: Store, role: string)
    requires role in {"user", "staff", "admin"}
    ensures var m := Menu(GetItem(SetItem(storage, Login.RoleKey, role), Login.RoleKey));
            m != [] && Href(m[0]) == Login.LandingPath(role)
  {
  }

  /**
   * A failed admin login erases whatever role was stored, so afterwards the
   * sidebar shows the user menu and the ticket list treats the session as a
   * user's.
   */
  lemma FailedAdminLoginFallsBackToUser(storage: Store)
    ensures var after := GetItem(RemoveItem(storage, Login.RoleKey), Login.RoleKey);
            Menu(after) == UserGroup && TicketList.EffectiveRole(after) == "user"
  {
  }

  /**
   * The administrator login page sets only `isAdmin`, which neither the
   * sidebar nor the ticket list reads: both behave as before the login.
   */
  lemma AdminPageLoginChangesNoView(storage: Store)
    ensures var after := GetItem(SetItem(storage, AdminLogin.IsAdminKey, "true"), Login.RoleKey);
            Menu(after) == Menu(GetItem(storage, Login.RoleKey))
            && TicketList.EffectiveRole(after) == TicketList.EffectiveRole(GetItem(storage, Login.RoleKey))
  {
  }
}
