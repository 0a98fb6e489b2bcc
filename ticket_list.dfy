/**
 * The ticket list view: which tickets a role sees, the search box over
 * them, and the controls shown per role.
 */
module TicketList {
  import opened Wrappers
  import opened Seqs
  import opened Tickets
  import Text
  import MainLayout

  /** `localStorage.getItem('role') || 'user'`: a missing or empty role counts as "user". */
  function EffectiveRole(stored: Option<string>): (role: string)
    ensures role != ""
    ensures stored.Some? && stored.value != "" ==> role == stored.value
    ensures stored.None? || stored.value == "" ==> role == "user"
  {
    if Text.Truthy(stored) then stored.value else "user"
  }

  predicate AuthoredBy(t: Ticket, name: string)
  {
    t.author.name == name
  }

  /** `t.assignedTo?.name === name`: an unassigned ticket is assigned to nobody. */
  predicate AssignedTo(t: Ticket, name: string)
  {
    t.assignedTo.Some? && t.assignedTo.value.name == name
  }

  /**
   * The tickets a role sees: "user" sees the designated user's own tickets,
   * "staff" the tickets assigned to the designated staff member, and any
   * other role every ticket. Each selection keeps the original order.
   */
  function VisibleTickets(role: string, all: seq<Ticket>, userName: string, staffName: string): (r: seq<Ticket>)
    ensures IsSubsequence(r, all)
    ensures role == "user" ==> forall t :: t in r <==> t in all && AuthoredBy(t, userName)
    ensures role == "user" ==> forall t :: AuthoredBy(t, userName) ==> multiset(r)[t] == multiset(all)[t]
    ensures role == "staff" ==> forall t :: t in r <==> t in all && AssignedTo(t, staffName)
    ensures role == "staff" ==> forall t :: AssignedTo(t, staffName) ==> multiset(r)[t] == multiset(all)[t]
    ensures role != "user" && role != "staff" ==> r == all
  {
    if role == "user" then Filter(all, (t: Ticket) => AuthoredBy(t, userName))
    else if role == "staff" then Filter(all, (t: Ticket) => AssignedTo(t, staffName))
    else
      SubsequenceReflexive(all);
      all
  }

  /**
   * The search box: the lower-cased term occurs in the lower-cased subject
   * or id. The empty term matches every ticket; a term longer than both
   * the subject and the id matches none.
   */
  function MatchesSearch(t: Ticket, term: string): (b: bool)
    ensures term == "" ==> b
    ensures b ==> |term| <= |t.subject| || |term| <= |t.id|
  {
    Text.Includes(Text.Lower(t.subject), Text.Lower(term)) || Text.Includes(Text.Lower(t.id), Text.Lower(term))
  }

  /** `filteredTickets`: the matching tickets, in order. */
  function Search(tickets: seq<Ticket>, term: string): (r: seq<Ticket>)
    ensures IsSubsequence(r, tickets)
    ensures forall t :: t in r <==> t in tickets && MatchesSearch(t, term)
    ensures forall t :: MatchesSearch(t, term) ==> multiset(r)[t] == multiset(tickets)[t]
  {
    Filter(tickets, (t: Ticket) => MatchesSearch(t, term))
  }

  /** An empty search term keeps every ticket. */
  lemma SearchEmptyTermKeepsAll(tickets: seq<Ticket>)
    ensures Search(tickets, "") == tickets
  {
    FilterKeepsAll(tickets, (t: Ticket) => MatchesSearch(t, ""));
  }

  /** Terms that lower-case alike select the same tickets. */
  lemma SearchIgnoresTermCase(tickets: seq<Ticket>, a: string, b: string)
    requires Text.Lower(a) == Text.Lower(b)
    ensures Search(tickets, a) == Search(tickets, b)
  {
    FilterCongruent(tickets, (t: Ticket) => MatchesSearch(t, a), (t: Ticket) => MatchesSearch(t, b));
  }

  /** Searching for a term or for its lower-cased form gives the same tickets. */
  lemma SearchLowerCasedTerm(tickets: seq<Ticket>, term: string)
    ensures Search(tickets, Text.Lower(term)) == Search(tickets, term)
  {
    Text.LowerIdempotent(term);
    SearchIgnoresTermCase(tickets, Text.Lower(term), term);
  }

  /** What the view renders. */
  datatype Screen =
    | Loading
    | NoTicketsFound(newTicketButton: bool)
    | TicketTable(newTicketButton: bool, rows: seq<Ticket>, authorColumn: bool, assigneeColumn: bool)

  /** The state of one ticket list view. */
  class TicketListView {
    var role: Option<string>
    var tickets: seq<Ticket>
    var searchTerm: string
    var loading: bool

    constructor ()
      ensures role == None && tickets == [] && searchTerm == "" && loading
    {
      role, tickets, searchTerm, loading := None, [], "", true;
    }

    /**
     * `fetchTickets`: read the stored role, select the tickets it may see
     * from `all`, and leave the loading state.
     */
    method FetchTickets(stored: Option<string>, all: seq<Ticket>, userName: string, staffName: string)
      modifies this`role, this`tickets, this`loading
      ensures role == Some(EffectiveRole(stored))
      ensures tickets == VisibleTickets(EffectiveRole(stored), all, userName, staffName)
      ensures !loading
    {
      loading := true;
      var storedRole := if Text.Truthy(stored) then stored.value else "user";
      role := Some(storedRole);
      var displayTickets: seq<Ticket> := [];
      if storedRole == "user" {
        displayTickets := Filter(all, (t: Ticket) => AuthoredBy(t, userName));
      } else if storedRole == "staff" {
        displayTickets := Filter(all, (t: Ticket) => AssignedTo(t, staffName));
      } else {
        displayTickets := all;
      }
      tickets := displayTickets;
      loading := false;
    }

    /** Typing in the search box. */
    method SetSearchTerm(term: string)
      modifies this`searchTerm
      ensures searchTerm == term
    {
      searchTerm := term;
    }

    /** `filteredTickets`: the fetched tickets that match the current search term, in order. */
    function FilteredTickets(): (r: seq<Ticket>)
      reads this
      ensures IsSubsequence(r, tickets)
      ensures forall t :: t in r <==> t in tickets && MatchesSearch(t, searchTerm)
    {
      Search(tickets, searchTerm)
    }

    /**
     * `isAdmin`: the author and assignee columns are shown, exactly when
     * the sidebar shows the admin group for the same role.
     */
    function IsAdmin(): (b: bool)
      reads this
      ensures b <==> MainLayout.Menu(role) == MainLayout.AdminGroup
    {
      role == Some("admin")
    }

    /**
     * `isUser`: the New Ticket button is shown. The sidebar then shows the
     * user group, and the admin columns are not shown.
     */
    function IsUser(): (b: bool)
      reads this
      ensures b ==> MainLayout.Menu(role) == MainLayout.UserGroup
      ensures b ==> !IsAdmin()
    {
      role == Some("user")
    }

    /**
     * The rendered screen: the loading message while loading, then the
     * empty-state message when no ticket survives the search, and the
     * table of the surviving tickets otherwise.
     */
    function Render(): (s: Screen)
      reads this
      ensures s.Loading? <==> loading
      ensures s.NoTicketsFound? <==> !loading && FilteredTickets() == []
      ensures !s.Loading? ==> (s.newTicketButton <==> role == Some("user"))
      ensures s.TicketTable? ==> s.rows == FilteredTickets() && s.rows != []
      ensures s.TicketTable? ==> (s.authorColumn <==> role == Some("admin")) && s.assigneeColumn == s.authorColumn
    {
      if loading then Loading
      else if |FilteredTickets()| == 0 then NoTicketsFound(IsUser())
      else TicketTable(IsUser(), FilteredTickets(), IsAdmin(), IsAdmin())
    }
  }
}
