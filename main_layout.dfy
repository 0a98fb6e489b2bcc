/** The sidebar of the main layout: which menu entries the stored role shows. */
module MainLayout {
  import opened Wrappers
  import Text

  datatype MenuEntry = Dashboard | NewTicket | AssignedTickets | AllTickets | Settings

  /** The link of a menu entry: a path inside the application. */
  function Href(e: MenuEntry): (h: string)
    ensures |h| >= 1 && h[0] == '/'
  {
    match e
    case Dashboard => "/"
    case NewTicket => "/tickets/new"
    case AssignedTickets => "/staff"
    case AllTickets => "/admin"
    case Settings => "/admin/settings"
  }

  const UserGroup := [Dashboard, NewTicket]
  const StaffGroup := [AssignedTickets]
  const AdminGroup := [AllTickets, Settings]

  /**
   * The sidebar: the three groups, each rendered under its own condition
   * (`isUser || !role`, `isStaff`, `isAdmin`). At most one group shows,
   * and an unrecognised non-empty role shows nothing.
   */
  function Menu(role: Option<string>): (m: seq<MenuEntry>)
    ensures !Text.Truthy(role) || role == Some("user") ==> m == UserGroup
    ensures role == Some("staff") ==> m == StaffGroup
    ensures role == Some("admin") ==> m == AdminGroup
    ensures Text.Truthy(role) && role.value != "user" && role.value != "staff" && role.value != "admin" ==> m == []
    ensures m == [] || m == UserGroup || m == StaffGroup || m == AdminGroup
  {
    (if role == Some("user") || !Text.Truthy(role) then UserGroup else [])
    + (if role == Some("staff") then StaffGroup else [])
    + (if role == Some("admin") then AdminGroup else [])
  }
}
