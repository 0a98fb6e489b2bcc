/** The ticket record the list view works on. */
module Tickets {
  import opened Wrappers

  datatype TicketStatus = Open | InProgress | Resolved | Closed

  /** An author or an assignee: a display name and an avatar reference. */
  datatype Person = Person(name: string, avatarUrl: string)

  /**
   * One support ticket. `assignedTo` and `priority` are read by the list
   * view although the record type does not declare them, so both may be
   * missing.
   */
  datatype Ticket = Ticket(
    id: string,
    subject: string,
    description: string,
    category: string,
    status: TicketStatus,
    lastUpdated: string,
    replies: nat,
    author: Person,
    assignedTo: Option<Person>,
    priority: Option<string>)
}
