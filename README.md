# DeskFlow helpdesk front end — a Dafny model of its decision logic

DeskFlow is a helpdesk web front end. Users file support tickets, staff and
admins work on them, and a side panel suggests knowledge-base articles
while a ticket is being written. Almost all of it is markup. This project
models the parts that make decisions, and proves what they promise:

- **Toast store** (`toast_store.dfy`). Toasts are short notifications. The
  store's reducer handles four actions: ADD (the list is capped at one toast),
  UPDATE, DISMISS and REMOVE. Around it sit the id counter (`genId`), the
  queue of ids waiting for removal, and `dispatch`. `dispatch` replaces the
  shared state and hands the new state to every subscribed listener. The
  store is a class. Its reducer actions are pure functions over
  `seq<ToasterToast>`. The removal queue is a set of pending ids.
- **Ticket list** (`tickets.dfy`, `ticket_list.dfy`). The stored role picks
  the visible tickets: a user sees their own, staff see the tickets assigned
  to them, and any other role sees all. A missing or empty stored role counts
  as "user". A case-insensitive search over subject and id then filters that
  list. The view decides whether to show the New Ticket button, the admin
  columns or the empty-state message.
- **Suggested articles** (`suggested_articles.dfy`). A lookup starts only
  when subject length > 4 and description length > 19. A successful answer
  replaces the suggestions. A failed one empties them and shows no error. The
  panel renders one of four states.
- **New-ticket form** (`new_ticket_form.dfy`). The schema requires a subject
  of at least 5 characters and a description of at least 20. These are
  exactly the panel's thresholds. On blur, the form commits the pair
  (subject, description) only when both are non-empty.
- **Login pages and sidebar** (`login.dfy`, `admin_login.dfy`,
  `main_layout.dfy`, `role_consistency.dfy`). `localStorage` is a
  `map<string, string>` (`storage.dfy`). Each login handler returns the new
  storage, where it navigates, and its error message. The sidebar maps the
  stored role to a group of menu entries.
- Shared pieces: `Seqs` (`map` and `filter` over sequences, with the
  subsequence relation), `Text` (ASCII lower-casing, `includes`, decimal
  `toString`) and `Wrappers` (`Option`).

Behaviours worth knowing, each proved:

- DISMISS checks JavaScript truthiness when it queues (`if (toastId)`). It
  checks `toastId === undefined` when it closes. A dismiss with the empty
  string as id therefore queues every toast for removal and closes none of
  them, as long as no toast's id is empty (`DismissEmptyIdQueuesAll`). Ids
  made by `genId` are never empty.
- A failed admin login on the main login page removes the `role` key. Any
  role stored earlier is lost, so the sidebar and the ticket list then treat
  the session as a user's (`FailedAdminLoginFallsBackToUser`).
- The separate admin login page writes only `isAdmin`. No view reads that
  key (`AdminPageLoginChangesNoView`).
- An unknown role string gets no menu entries, yet the ticket list shows it
  every ticket (`UnknownRoleSeesEverything`).
- The sidebar and the ticket list handle a missing role the same way. Both
  treat it as "user" (`UserMenuIffUserTickets`).
- The suggestion component does not tag its lookups. Answers are applied in
  the order they arrive, so a late answer to an older query overwrites a
  newer one. A design in which stale answers are discarded would need a
  generation marker. The model follows the component and does not claim
  "last query wins".

## Model

| member | source | states |
|---|---|---|
| `ToastStore.ReduceAdd` | src/hooks/use-toast.ts:86-90 | After ADD_TOAST the list is exactly `[t]`: the new toast first, never more than `TOAST_LIMIT` = 1 |
| `ToastStore.Patched` | src/hooks/use-toast.ts:96 | The spread `{ ...t, ...toast }`: every field the patch leaves out keeps the toast's value, a patch carrying the toast's own id keeps that id, and the result already holds every value the patch supplies, so patching again changes nothing |
| `ToastStore.ReduceUpdate` | src/hooks/use-toast.ts:92-98 | UPDATE_TOAST keeps length, order and ids. Entries whose id equals the patch's id take the supplied fields. All others are unchanged |
| `ToastStore.UpdateIdempotent` | src/hooks/use-toast.ts:92-98 | Sending the same UPDATE_TOAST twice leaves the list as sending it once |
| `ToastStore.ReduceDismiss` | src/hooks/use-toast.ts:110-118 | DISMISS_TOAST changes only `open`. An entry is closed iff no id was given or its id matches. Length and order are kept |
| `ToastStore.ReduceRemove` | src/hooks/use-toast.ts:121-129 | REMOVE_TOAST without an id empties the list. With an id it drops exactly the entries with that id and keeps the rest, each as often as before, in order |
| `ToastStore.Reduce` | src/hooks/use-toast.ts:84-131 | `reducer`: ADD_TOAST leaves exactly the new toast. UPDATE and DISMISS keep the length, and REMOVE never grows the list. No action but ADD brings in an id that was not already there |
| `ToastStore.ReduceKeepsLimit` | src/hooks/use-toast.ts:84-131 | No action takes the list past `TOAST_LIMIT` |
| `ToastStore.QueuedAfter` | src/hooks/use-toast.ts:104-108 | The removal queue after an action: DISMISS with a truthy id queues exactly that id; DISMISS with `undefined` or "" queues exactly the ids of the current toasts; any other action leaves the queue unchanged |
| `ToastStore.DismissQueueIdempotent` | src/hooks/use-toast.ts:72-81 | Repeating a dismiss queues no further ids |
| `ToastStore.DismissEmptyIdQueuesAll` | src/hooks/use-toast.ts:104-118 | Dismissing with id "" queues every toast's id and closes no toast (when no id is empty) |
| `ToastStore.NextCount` | src/hooks/use-toast.ts:38 | The counter stays below `Number.MAX_SAFE_INTEGER` |
| `ToastStore.CountAfterClosedForm` | src/hooks/use-toast.ts:37-40 | n calls of `genId` advance the counter by n modulo `MAX_SAFE_INTEGER` |
| `ToastStore.ModDistinct` | src/hooks/use-toast.ts:38 | Counter values fewer than `MAX_SAFE_INTEGER` steps apart differ |
| `ToastStore.ConsecutiveIdsDistinct` | src/hooks/use-toast.ts:37-40 | Any two of fewer than `MAX_SAFE_INTEGER` consecutive `genId` calls return different id strings |
| `ToastStore.IdsWrapAround` | src/hooks/use-toast.ts:38 | After `MAX_SAFE_INTEGER` calls the counter returns to its start, so ids repeat |
| `ToastStore.Store.constructor` | src/hooks/use-toast.ts:134-137 | Initially: no toasts, no pending removals, no listeners, counter 0 |
| `ToastStore.Store.GenId` | src/hooks/use-toast.ts:37-40 | Sets count := (count + 1) mod `MAX_SAFE_INTEGER` and returns its decimal string |
| `ToastStore.Store.AddToRemoveQueue` | src/hooks/use-toast.ts:72-81 | Adds the id to the pending set. An id already pending leaves the set unchanged |
| `ToastStore.Store.Reducer` | src/hooks/use-toast.ts:84-131 | Returns the reducer's list. Only DISMISS queues ids: the given truthy id, or otherwise every current toast's id (loop over the toasts) |
| `ToastStore.Store.Dispatch` | src/hooks/use-toast.ts:140-143 | The shared list becomes `Reduce(old, action)`, and every registered listener holds that same list afterwards |
| `ToastStore.Store.Toast` | src/hooks/use-toast.ts:148-169 | Generates a fresh id and leaves exactly one toast, carrying that id, `open = true` and the given fields. Listeners are notified |
| `ToastStore.Store.RemovalTimerFires` | src/hooks/use-toast.ts:75-78 | A fired timer forgets its id and dispatches REMOVE_TOAST for it |
| `ToastStore.Store.Subscribe` | src/hooks/use-toast.ts:178 | Appends the listener |
| `ToastStore.Store.IndexOf` | src/hooks/use-toast.ts:180 | Returns the first position of the listener, or -1 iff it is absent |
| `ToastStore.Store.Unsubscribe` | src/hooks/use-toast.ts:179-184 | Removes the first occurrence of the listener. Leaves the list as it was when the listener is absent |
| `ToastStore.Listener.constructor` | src/hooks/use-toast.ts:174 | A new subscriber starts from the state it was given |
| `ToastStore.Listener.SetState` | src/hooks/use-toast.ts:174 | The subscriber's state becomes the dispatched list |
| `Seqs.Map` | src/hooks/use-toast.ts:95 | `map`: same length, element i is f of input element i |
| `Seqs.Filter` | src/components/tickets/ticket-list.tsx:87-91 | `filter`: keeps exactly the elements satisfying p, each with its multiplicity, as an order-preserving subsequence |
| `Seqs.FilterKeepsAll` | src/components/tickets/ticket-list.tsx:87-91 | A filter that accepts every element returns the input |
| `Seqs.FilterCongruent` | src/components/tickets/ticket-list.tsx:87-91 | Filters with predicates that agree on the elements give equal results |
| `Seqs.SubsequenceReflexive` | src/components/tickets/ticket-list.tsx:77-79 | A list is a subsequence of itself (used when a role sees everything) |
| `Text.LowerChar` | src/components/tickets/ticket-list.tsx:89 | ASCII capitals map to lower case and all other characters are kept. The result has no capitals |
| `Text.Lower` | src/components/tickets/ticket-list.tsx:89-90 | `toLowerCase` keeps length and lower-cases each character |
| `Text.LowerIdempotent` | src/components/tickets/ticket-list.tsx:89-90 | Lower-casing twice equals lower-casing once |
| `Text.LowerOfLowercase` | src/app/login/page.tsx:58 | A string without capitals is unchanged by lower-casing |
| `Text.Includes` | src/components/tickets/ticket-list.tsx:89-90 | `includes`: the empty needle is found in every string, and a needle longer than the string is never found |
| `Text.DigitChar` | src/hooks/use-toast.ts:39 | Decimal digit character of d |
| `Text.DecimalString` | src/hooks/use-toast.ts:39 | `toString` of a count: non-empty decimal digits that, read most significant first, denote n exactly. The first digit is 0 only for n = 0, and there are at least two digits iff n >= 10 |
| `Text.DecimalStringInjective` | src/hooks/use-toast.ts:39 | Different counts give different id strings (the digits read back to the count) |
| `Storage.SetItem` | src/app/login/page.tsx:52 | After `setItem`, `getItem` of that key returns the value (not null), and every other key reads as before |
| `Storage.RemoveItem` | src/app/login/page.tsx:63 | After `removeItem`, `getItem` of that key returns null, and every other key reads as before |
| `TicketList.EffectiveRole` | src/components/tickets/ticket-list.tsx:63 | A missing or empty stored role becomes "user". Any other stored value is kept |
| `TicketList.VisibleTickets` | src/components/tickets/ticket-list.tsx:68-79 | "user": exactly the tickets the designated user authored. "staff": exactly those assigned to the designated staff member, never unassigned ones. Other roles: all tickets. Always an order-preserving subsequence |
| `TicketList.MatchesSearch` | src/components/tickets/ticket-list.tsx:87-91 | The empty term matches every ticket. A match needs the term to be no longer than the subject or the id |
| `TicketList.Search` | src/components/tickets/ticket-list.tsx:87-91 | Keeps a ticket iff the lower-cased subject or id includes the lower-cased term. Order-preserving subsequence, multiplicities kept |
| `TicketList.SearchEmptyTermKeepsAll` | src/components/tickets/ticket-list.tsx:87-91 | The empty term keeps every ticket |
| `TicketList.SearchIgnoresTermCase` | src/components/tickets/ticket-list.tsx:87-91 | Terms equal after lower-casing select the same tickets |
| `TicketList.SearchLowerCasedTerm` | src/components/tickets/ticket-list.tsx:87-91 | Searching for the lower-cased term gives the same result as the term |
| `TicketList.TicketListView.constructor` | src/components/tickets/ticket-list.tsx:55-58 | Starts with no role, no tickets, empty search and loading |
| `TicketList.TicketListView.FetchTickets` | src/components/tickets/ticket-list.tsx:61-82 | Role becomes the effective stored role, tickets become that role's visible tickets, and loading ends |
| `TicketList.TicketListView.SetSearchTerm` | src/components/tickets/ticket-list.tsx:109 | The search term becomes the typed text |
| `TicketList.TicketListView.FilteredTickets` | src/components/tickets/ticket-list.tsx:87-91 | The fetched tickets that match the current term, in their order |
| `TicketList.TicketListView.IsAdmin` | src/components/tickets/ticket-list.tsx:93 | The admin columns show iff the sidebar shows the admin group for the same role |
| `TicketList.TicketListView.IsUser` | src/components/tickets/ticket-list.tsx:94 | When the New Ticket button shows, the sidebar shows the user group and the admin columns do not show |
| `TicketList.TicketListView.Render` | src/components/tickets/ticket-list.tsx:93-156 | Loading first. Otherwise: empty state iff no ticket matches, else a table of the matches. New Ticket button iff role "user". Author and Assigned To columns iff role "admin" |
| `SuggestedArticles.RenderPanel` | src/components/tickets/suggested-articles.tsx:37-91 | Prompt iff both fields are empty. Three skeletons iff there is input and a lookup is pending. "No suggestions" iff there is input, nothing pending and no suggestions. Otherwise the suggestions in order |
| `SuggestedArticles.TriggersLookup` | src/components/tickets/suggested-articles.tsx:21 | A lookup is only ever asked about a non-empty subject and a non-empty description |
| `SuggestedArticles.SuggestionPanel.constructor` | src/components/tickets/suggested-articles.tsx:17-18 | No suggestions, nothing pending |
| `SuggestedArticles.SuggestionPanel.IsPending` | src/components/tickets/suggested-articles.tsx:18 | Pending iff some started lookup has not been answered |
| `SuggestedArticles.SuggestionPanel.Render` | src/components/tickets/suggested-articles.tsx:37-91 | The panel for the given props: the prompt iff both are empty, skeletons iff there is input and a lookup is pending, "no suggestions" iff there is input, nothing pending and none stored. Otherwise the stored suggestions |
| `SuggestedArticles.SuggestionPanel.OnPropsChange` | src/components/tickets/suggested-articles.tsx:20-35 | Starts a lookup iff subject length > 4 and description length > 19. The suggestions are untouched |
| `SuggestedArticles.SuggestionPanel.Settle` | src/components/tickets/suggested-articles.tsx:22-33 | An answer ends its lookup. Success sets the suggestions to the returned list; failure sets them to the empty list |
| `NewTicketForm.Validate` | src/components/tickets/new-ticket-form.tsx:32-46 | One error per failing field: subject shorter than 5, category missing, priority missing, description shorter than 20. No error repeats |
| `NewTicketForm.SchemaMatchesLookupTrigger` | src/components/tickets/new-ticket-form.tsx:33-44 | Subject and description pass the schema iff they trigger a suggestion lookup (>= 5 iff > 4, >= 20 iff > 19) |
| `NewTicketForm.ValidFormIsCommitted` | src/components/tickets/new-ticket-form.tsx:74-79 | A valid form's subject and description are non-empty, so blur commits them, and they trigger a lookup |
| `NewTicketForm.TicketForm.constructor` | src/components/tickets/new-ticket-form.tsx:51-62 | The committed pair and the field values start empty |
| `NewTicketForm.TicketForm.SetValues` | src/components/tickets/new-ticket-form.tsx:95 | Editing replaces the field values |
| `NewTicketForm.TicketForm.HandleBlur` | src/components/tickets/new-ticket-form.tsx:74-79 | Commits (subject, description) iff both are non-empty, else keeps the committed pair. The committed pair is always both empty or both non-empty |
| `NewTicketForm.TicketForm.PanelView` | src/components/tickets/new-ticket-form.tsx:205-208 | The panel is fed the committed pair: the prompt iff nothing is committed, skeletons iff something is committed and a lookup is pending |
| `NewTicketForm.PromptIffNothingCommitted` | src/components/tickets/new-ticket-form.tsx:205-208 | The panel, fed the committed pair, shows the prompt iff nothing has been committed |
| `Login.AdminEmailIgnoresCase` | src/app/login/page.tsx:57-60 | The admin check compares the email without regard to case |
| `Login.AdminCredentialsAccepted` | src/app/login/page.tsx:57-60 | `admin@mail.com` / `12345678` pass, in any letter case of the email |
| `Login.AdminCredentialsOk` | src/app/login/page.tsx:57-60 | Only the fixed password passes, and only with an email as long as the admin address |
| `Login.LandingPath` | src/app/login/page.tsx:61-74 | For each role the form offers, the landing page is the link of the first entry in the sidebar menu for that role. Any other role lands on the dashboard |
| `Login.LoginPage.constructor` | src/app/login/page.tsx:35-37 | Empty fields, role "user" |
| `Login.LoginPage.SetEmail` | src/app/login/page.tsx:119 | The typed email replaces the current one |
| `Login.LoginPage.SetPassword` | src/app/login/page.tsx:139 | The typed password replaces the current one |
| `Login.LoginPage.SetRole` | src/app/login/page.tsx:98 | The selected role replaces the current one |
| `Login.LoginPage.HandleLogin` | src/app/login/page.tsx:40-75 | Empty field: error, storage untouched, no navigation. Admin with wrong credentials: role key removed, error, no navigation. Otherwise the role is stored and the landing page is reached. Navigation to /admin iff admin with the right credentials |
| `AdminLogin.AdminLoginPage.constructor` | src/app/admin/login/page.tsx:22-23 | Empty fields |
| `AdminLogin.AdminLoginPage.SetEmail` | src/app/admin/login/page.tsx:66 | The typed email replaces the current one |
| `AdminLogin.AdminLoginPage.SetPassword` | src/app/admin/login/page.tsx:76 | The typed password replaces the current one |
| `AdminLogin.AdminLoginPage.HandleLogin` | src/app/admin/login/page.tsx:25-41 | Right credentials: `isAdmin = "true"` and navigation to /admin. Otherwise an error, storage untouched, no navigation. The role key never changes |
| `MainLayout.Menu` | src/components/layout/main-layout.tsx:26-93 | Missing, empty or "user" role shows Dashboard and New Ticket. "staff" shows only Assigned Tickets. "admin" shows All Tickets and Settings. Any other role shows nothing. At most one group ever shows |
| `MainLayout.Href` | src/components/layout/main-layout.tsx:46-86 | Every menu entry links to a path inside the application |
| `RoleConsistency.UserMenuIffUserTickets` | src/components/layout/main-layout.tsx:42 | The user menu shows iff the ticket list selects by author |
| `RoleConsistency.StaffMenuIffStaffTickets` | src/components/layout/main-layout.tsx:62 | The staff menu shows iff the ticket list selects by assignee |
| `RoleConsistency.UnknownRoleSeesEverything` | src/components/tickets/ticket-list.tsx:77-79 | An unknown role has no menu but sees all tickets |
| `RoleConsistency.LoginLandsOnFirstMenuEntry` | src/app/login/page.tsx:52-74 | After a successful login the landing page is the first entry of the menu for the stored role |
| `RoleConsistency.FailedAdminLoginFallsBackToUser` | src/app/login/page.tsx:62-63 | After a failed admin login the sidebar shows the user menu and the ticket list uses role "user" |
| `RoleConsistency.AdminPageLoginChangesNoView` | src/app/admin/login/page.tsx:32 | The admin page's `isAdmin` write changes neither the menu nor the ticket selection |

## Left out

- Timing: `setTimeout` and `TOAST_REMOVE_DELAY`. A removal timer firing is an external call, `RemovalTimerFires`. It may only be made for a pending id.
- React lifecycle: `useToast`'s resubscription on every state change, effect dependencies, re-rendering and JSX markup. Subscribing and unsubscribing a listener are modelled as plain operations.
- Toast `action` elements and the `onOpenChange` callback are UI glue and are not modelled. Titles and descriptions are strings rather than React nodes.
- `toast()` returns `update` and `dismiss` closures. They are not separate members: each is `Dispatch` of UPDATE_TOAST or DISMISS_TOAST with the toast's id. `useToast().dismiss` is the same.
- ToastStore.ReduceUpdate: a patch field explicitly set to `undefined` overwrites the old value under JavaScript spread semantics. In the model an absent field (`None`) always keeps the old value.
- ToastStore.ToasterToast: `open` is a required boolean, while the source's props leave it optional. `toast()` always sets it.
- `getTicketsForRole` and every Prisma call: database I/O that is never invoked.
- The designated user and staff member are parameters, because the sample user and staff records are not defined in the sample data.
- Sample ticket values: the sample ticket list is not reproduced, and no lemma evaluates it; the ticket operations are stated for every list.
- `suggestKnowledgeBaseArticles` is an external service. Its answer is a parameter of `Settle`: a list of titles or a failure.
- SuggestedArticles.SuggestionPanel.IsPending: React's `useTransition` pending flag is approximated as "some started lookup is unanswered". No property about the order of overlapping answers is claimed.
- String lengths count Dafny characters, not UTF-16 code units. Lower-casing covers ASCII capitals only, not full Unicode `toLowerCase`.
- `localStorage`, `router.push` and the error toast are not real side effects. They appear as the returned storage map, the navigation path and the error message.
- The sidebar reads the stored role once. Before that read its role is `null`, which `Menu(None)` covers.
- `formatDistanceToNow`, the window/media-query hook, the static and composition-only pages, the registration page, the header, the ticket conversation and the status badge styling hold no modelled logic.
- The form's `onSubmit` is a stub that logs and redirects. The attachment field accepts anything and is not represented.
