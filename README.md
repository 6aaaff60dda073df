# Events dashboard — a Dafny model

This project models the core of the event-sync dashboard, `src/app/components/dash.jsx`.
The file holds two components.

- `EventsDashboard` keeps a list of events and some UI state: the selected calendar day,
  whether the event form is open, the event being edited, the search box and the priority select.
  - It derives read-only views of the list: the chronologically sorted list, the events matching
    a case-insensitive search and a priority filter, the upcoming and completed tabs, the events of
    the selected day, and the days to highlight.
  - Its handlers change the list: add, edit (save), delete, and toggle completion.
- `EventModal` is the event form. It holds a draft of the event, is initialised from the bound
  event or from a blank template, updates one field per input change, and hands its draft to the
  dashboard on submit.

Modules:

- `Wrappers`: an `Option` type.
- `Seqs`: a generic order-preserving `Filter` and the subsequence relation.
- `Events`: the event record, the instant order on (date, time), the ids, and the four seed events.
- `Sorter`: the sort — stable insertion by instant.
- `Query`: search, priority filter, the tab split, and the whole view pipeline.
- `Store`: the list commands — delete, toggle, edit, create, save.
- `Calendar`: the events of the selected day and the highlighted days.
- `Form`: the draft, its initialisation and field changes, submission, and the `EventModal` class.
- `Dashboard`: the `EventsDashboard` class with its fields and handlers.
- `Scenarios`: the seed events worked through the model.

Pure computations are functions; the two components, whose state the handlers replace, are
classes whose methods state the whole new state in terms of those functions.

Some behaviours of the code are worth stating plainly:

- Editing, toggling or deleting an id that no event has is a silent no-op. There is no
  not-found error.
- The highlighted days are one date per event, in store order, with repeats.
- The events of the selected day come in store order, not chronological order.
- A new event's id is the clock value `Date.now()`. Nothing guarantees it is unused, so
  uniqueness of ids is proved only under that assumption.
- The only validation is the browser's `required` check on the title, date and time inputs.
  A title of spaces passes it, because nothing trims it.

## Model

| member | source | states |
|---|---|---|
| Events.Stamp | src/app/components/dash.jsx:108 | the event built from saved details and an id has that id and exactly those details |
| Events.Before | src/app/components/dash.jsx:64-66 | the comparator's order on instants (date, then time): no instant is earlier than itself |
| Events.BeforeIffEarlierTimestamp | src/app/components/dash.jsx:64-66 | on in-range dates and times, one instant is earlier than another exactly when its minute count, which grows like the timestamp `dateA - dateB` subtracts, is smaller |
| Events.BeforeIsStrictTotalOrder | src/app/components/dash.jsx:63-67 | the comparison of (date, time) instants used by the sort is irreflexive, asymmetric, total and transitive |
| Events.InitialEvents | src/app/components/dash.jsx:16-53 | the dashboard starts with four events whose ids are pairwise distinct |
| Seqs.Filter | src/app/components/dash.jsx:70-82 | the order-preserving `filter` every view uses never returns more elements than it is given (membership and order in the lemmas below) |
| Sorter.Insert | src/app/components/dash.jsx:63-67 | the stable insertion step grows the list by one; where it puts the event is stated by InsertPermutes, InsertChronological and InsertAtInstant |
| Sorter.SortedEvents | src/app/components/dash.jsx:63-67 | `sortedEvents`, a sorted copy of the store of the same length |
| Sorter.InsertPermutes | src/app/components/dash.jsx:63-67 | inserting one event adds exactly that event to the multiset of the list |
| Sorter.SortedEventsPermutes | src/app/components/dash.jsx:63 | the sorted list is a permutation of the store: the same multiset (and, by its own contract, the same length) |
| Sorter.SortedEventsChronological | src/app/components/dash.jsx:63-67 | the sorted list is non-decreasing by instant: no event comes after a strictly later one |
| Sorter.SortedEventsStable | src/app/components/dash.jsx:63-67 | events at the same instant keep their store order, as a stable sort keeps them (comparator result 0) |
| Sorter.SortedEventsOfChronological | src/app/components/dash.jsx:63-67 | a list already in chronological order is left as it is |
| Sorter.InsertChronological | src/app/components/dash.jsx:63-67 | inserting into a chronological list keeps it chronological |
| Sorter.SubsequenceChronological | src/app/components/dash.jsx:70-82 | every filter of a chronological list, as a subsequence, stays chronological |
| Query.LowerChar | src/app/components/dash.jsx:72-73 | lowercasing one character leaves no capital A to Z, turns a capital into the small letter at the same place in the alphabet, and keeps every other character |
| Query.Lower | src/app/components/dash.jsx:72-73 | lowercasing keeps the length and maps each character to its lowercase form |
| Query.LowerAlphabet | src/app/components/dash.jsx:72-73 | the capitals A to Z lowercase to a to z, letter by letter |
| Query.LowerIffEqualIgnoringCase | src/app/components/dash.jsx:72-73 | two strings lowercase to the same string exactly when they differ only in the case of their letters (defined character by character) |
| Query.LowerIdempotent | src/app/components/dash.jsx:72-73 | lowercasing twice is lowercasing once |
| Query.Contains | src/app/components/dash.jsx:72-73 | `includes` holds only for a query no longer than the text, and holds for every prefix of the text |
| Query.ContainsIffOccurs | src/app/components/dash.jsx:72-73 | `includes` holds exactly when the query occurs at some position of the text |
| Query.ContainsEmpty | src/app/components/dash.jsx:72-73 | the empty query is included in every text |
| Query.MatchesSearch | src/app/components/dash.jsx:71-73 | the search predicate: the empty query matches every event, and a matching query is no longer than the title or the description |
| Query.SearchFiltered | src/app/components/dash.jsx:70-74 | the search keeps exactly the events whose lowercased title or description contains the lowercased query, in their order |
| Query.SearchEmptyKeepsAll | src/app/components/dash.jsx:70-74 | an empty search box keeps every event |
| Query.SearchCaseInsensitive | src/app/components/dash.jsx:70-74 | queries that differ only in letter case select the same events |
| Query.SearchIgnoresQueryCase | src/app/components/dash.jsx:72-73 | searching for a query and for its lowercase form selects the same events |
| Query.PriorityFiltered | src/app/components/dash.jsx:77-78 | "all" keeps the list as it is; a level keeps exactly the events of that priority, in order |
| Query.Upcoming | src/app/components/dash.jsx:81 | the upcoming tab holds exactly the events not marked completed, in order |
| Query.Completed | src/app/components/dash.jsx:82 | the completed tab holds exactly the events marked completed, in order |
| Query.PartitionComplete | src/app/components/dash.jsx:81-82 | the two tabs partition the list: lengths and multisets add up, and each event is on the tab its flag names |
| Query.Views | src/app/components/dash.jsx:63-82 | the sort, search, priority and split pipeline: the tabs together never hold more events than the store, and with no search and "all" their lengths add up to the store's (that each event is there as often as in the store is ViewsCount) |
| Query.ViewsWithoutSearch | src/app/components/dash.jsx:63-82 | with an empty search box the tabs split the priority-filtered sorted store |
| Query.ViewsChronological | src/app/components/dash.jsx:63-82 | both tabs are in chronological order |
| Query.ViewsExact | src/app/components/dash.jsx:63-82 | an event is on the upcoming (completed) tab exactly when it is in the store, matches search and priority, and is not (is) completed |
| Query.ViewsCount | src/app/components/dash.jsx:63-82 | across the two tabs an event appears as often as in the store when it passes both filters, and never otherwise |
| Store.Delete | src/app/components/dash.jsx:94-96 | delete keeps exactly the events with another id, in order, and leaves the id absent |
| Store.DeleteCount | src/app/components/dash.jsx:95 | every event with another id keeps each of its occurrences; events with the id have none |
| Store.DeleteAbsent | src/app/components/dash.jsx:95 | deleting an id no event has changes nothing |
| Store.DeleteIdempotent | src/app/components/dash.jsx:95 | deleting twice is deleting once |
| Store.Toggle | src/app/components/dash.jsx:122-124 | toggle keeps the length; events with another id are untouched; events with the id differ only in a flipped completed flag |
| Store.ToggleTwice | src/app/components/dash.jsx:122-124 | toggling twice restores the list |
| Store.ToggleKeepsSortedPosition | src/app/components/dash.jsx:63-67 | sorting a toggled list is toggling the sorted list: toggling moves no event in the chronological order |
| Store.ToggleKeepsIds | src/app/components/dash.jsx:122-124 | toggling keeps the set of ids and keeps ids unique |
| Store.Edit | src/app/components/dash.jsx:105-109 | edit keeps the length; events with another id are untouched; events with the id take the saved details under that id |
| Store.EditOverrides | src/app/components/dash.jsx:105-109 | a second save of the same event overrides the first |
| Store.EditUnchangedIsNoOp | src/app/components/dash.jsx:105-109 | saving an event's own details back leaves a list with unique ids unchanged |
| Store.Created | src/app/components/dash.jsx:112-116 | the new event carries the clock value as id, the saved details, and completed false |
| Store.Create | src/app/components/dash.jsx:117 | create keeps the old list as a prefix and appends the new event |
| Store.CreateThenDelete | src/app/components/dash.jsx:94-96 | deleting a just-created event with a fresh id gives back the old list |
| Store.MapsKeepIds | src/app/components/dash.jsx:105-124 | edit and toggle keep every id at its position and keep the set of ids |
| Store.CommandsKeepIdsUnique | src/app/components/dash.jsx:94-124 | delete, toggle and edit keep ids unique; create does when the clock value is unused |
| Store.Save | src/app/components/dash.jsx:98-120 | saving an edit keeps the length, leaves events with other ids in place and gives events with the bound id the saved details under that same id; saving a new event keeps the old list as a prefix and appends the created event |
| Store.SaveKeepsIds | src/app/components/dash.jsx:98-120 | saving an edit keeps the set of ids; saving a new event adds the clock value; ids stay unique when that value is unused |
| Store.SubsequenceUniqueIds | src/app/components/dash.jsx:95 | a subsequence of a list with unique ids has unique ids |
| Calendar.SelectedDay | src/app/components/dash.jsx:128 | the selected day is the selection when there is one, and today otherwise |
| Calendar.EventsOn | src/app/components/dash.jsx:126-131 | exactly the events whose date is the selected day, in store order, each as often as it occurs in the store |
| Calendar.DatesWithEvents | src/app/components/dash.jsx:134 | one date per event, position by position |
| Calendar.HighlightedIffHasEvents | src/app/components/dash.jsx:126-134 | a day is highlighted exactly when selecting it shows at least one event |
| Calendar.CreatedShowsOnItsDay | src/app/components/dash.jsx:111-131 | a new event shows on its own day and on no other |
| Form.InitialDraft | src/app/components/dash.jsx:444-465 | the form copies the bound event when there is one, and is blank otherwise |
| Form.Submitted | src/app/components/dash.jsx:497-537 | the form submits exactly when title, date and time are filled in, and hands over the draft's values |
| Form.BlankDraft | src/app/components/dash.jsx:434-441 | the blank draft (also set by the effect at lines 456-463) has an empty title, time and description, today's date, medium priority and not completed, and cannot be submitted as it stands |
| Form.EditDraft | src/app/components/dash.jsx:446-453 | the edit copy of an event can be submitted at once exactly when the event has a title |
| Form.EditDraftRoundTrip | src/app/components/dash.jsx:444-455 | opening an event with a title and submitting at once hands back that event's details |
| Form.Apply | src/app/components/dash.jsx:467-481 | a change sets the named field to the value and leaves every other field as it was |
| Form.AgreeEverywhere | src/app/components/dash.jsx:467-481 | drafts that agree on every field are equal |
| Form.LaterChangeWins | src/app/components/dash.jsx:467-481 | of two changes to one field, the later one wins |
| Form.ChangesCommute | src/app/components/dash.jsx:467-481 | changes to different fields can be applied in either order |
| Form.EventModal.constructor | src/app/components/dash.jsx:434-441 | the form mounts with the blank draft of the current day |
| Form.EventModal.Reset | src/app/components/dash.jsx:444-465 | the effect replaces the draft by the initial draft of the bound event |
| Form.EventModal.HandleChange | src/app/components/dash.jsx:467-481 | the draft becomes the old draft with one field changed; every other field is unchanged |
| Dashboard.EventsDashboard.constructor | src/app/components/dash.jsx:16-60 | the seed events, today selected, form closed and unbound, empty search, priority "all" |
| Dashboard.EventsDashboard.HandleAddEvent | src/app/components/dash.jsx:84-87 | the form opens unbound with a blank draft |
| Dashboard.EventsDashboard.HandleEditEvent | src/app/components/dash.jsx:89-92 | the form opens bound to the event, with its values |
| Dashboard.EventsDashboard.HandleDeleteEvent | src/app/components/dash.jsx:94-96 | the store becomes the delete of the old store; unique ids stay unique |
| Dashboard.EventsDashboard.ToggleEventCompletion | src/app/components/dash.jsx:122-124 | the store becomes the toggle of the old store; ids are kept and stay unique |
| Dashboard.EventsDashboard.HandleSubmit | src/app/components/dash.jsx:98-120 | a submittable draft is saved (edit or create), the form closes and resets; with unique ids and an unused clock value ids stay unique; otherwise nothing changes |
| Dashboard.EventsDashboard.HandleClose | src/app/components/dash.jsx:337-342 | the form closes and its draft resets; the store is untouched |
| Dashboard.EventsDashboard.HandleSelectDate | src/app/components/dash.jsx:212 | the selection becomes the picked day, or today when it is cleared |
| Dashboard.EventsDashboard.HandleSearchChange | src/app/components/dash.jsx:158 | the search box holds the typed text |
| Dashboard.EventsDashboard.HandlePriorityChange | src/app/components/dash.jsx:272 | the priority select holds the picked filter |
| Scenarios.SeedSorted | src/app/components/dash.jsx:16-67 | the seeds in sorted order: training, meeting, presentation, deadline |
| Scenarios.SeedTabs | src/app/components/dash.jsx:16-82 | with priority "all", three upcoming seeds and the training completed; with "high", the presentation and the deadline |
| Scenarios.SeedTogglePresentationSorted | src/app/components/dash.jsx:122-124 | marking the presentation done keeps it third in the sorted list |
| Scenarios.SeedTogglePresentationTab | src/app/components/dash.jsx:81-82 | after marking the presentation done it is on the completed tab and not on the upcoming tab |
| Scenarios.SeedSearchCapitals | src/app/components/dash.jsx:70-74 | the query "TEAM" finds the team meeting and selects the same events as "team" |
| Scenarios.SeedEditMeetingTime | src/app/components/dash.jsx:105-109 | moving the meeting to 09:00 on its day keeps it second in the sorted list |
| Scenarios.SeedCalendar | src/app/components/dash.jsx:126-131 | 26 March 2024 shows the team meeting; 27 March shows nothing |

## Left out

- Rendering, the JSX, styling, icons and the priority colour map are not modelled: they compute no
  state.
- The `activeTab` state and its setter only choose which panel is visible, so they are not modelled.
- `EventCard` and its `isUpcoming` badge are not modelled: the badge compares with the wall clock.
- Reading the clock is a parameter, not modelled behaviour: `Date.now()` is `now` and
  `new Date()` is `today`.
- JavaScript `Date` values are calendar triples and times are (hour, minute) pairs.
  - Parsing of `"YYYY-MM-DD"` and `"HH:MM"` strings is not modelled.
  - Neither are `toDateString`, time zones and daylight-saving gaps.
  - A date typed into the form is taken as the day it names; the source reparses it with
    `new Date(...)`, which can shift it by a day in some time zones.
- Query.LowerChar: lowercases only the ASCII letters A to Z, not all of Unicode as `toLowerCase` does.
- Form.EditDraft: does not model the `|| "medium"` fallback, because an event here always has one of
  the three priorities, so the fallback never applies.
- Form.EventModal.Reset: models the effect as running on every open and close. React's
  object-identity dependency check is not modelled.
- Dashboard.EventsDashboard.HandleAddEvent: requires the form to be closed, because the modal dialog
  blocks the dashboard while it is open. HandleEditEvent, HandleSubmit and HandleClose likewise
  require the state in which their button can be reached.
- `hero.jsx`, `events.jsx` and `eventList.jsx` are not part of this model.
