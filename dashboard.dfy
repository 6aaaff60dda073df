/** `EventsDashboard`: the component state the handlers update, and the handlers. */
module Dashboard {
  import opened Events
  import opened Wrappers
  import opened Query
  import opened Form
  import Store

  class EventsDashboard {
    var events: seq<Event>
    var selectedDate: Option<Date>
    var isEventModalOpen: bool
    var currentEvent: Option<Event>
    var searchQuery: string
    var priorityFilter: PriorityFilter
    /** The `EventModal` child and its draft. */
    const modal: EventModal

    /** The initial state on the day `today` the dashboard mounts. */
    constructor (today: Date)
      ensures events == InitialEvents() && selectedDate == Some(today)
      ensures !isEventModalOpen && currentEvent == None
      ensures searchQuery == "" && priorityFilter == All
      ensures fresh(modal) && modal.eventDetails == BlankDraft(today)
    {
      events := InitialEvents();
      selectedDate := Some(today);
      isEventModalOpen := false;
      currentEvent := None;
      searchQuery := "";
      priorityFilter := All;
      modal := new EventModal(today);
    }

    /** `handleAddEvent`: opens the form unbound; the form resets to a blank draft. */
    method HandleAddEvent(today: Date)
      requires !isEventModalOpen
      modifies this`currentEvent, this`isEventModalOpen, modal
      ensures currentEvent == None && isEventModalOpen
      ensures modal.eventDetails == BlankDraft(today)
    {
      currentEvent := None;
      isEventModalOpen := true;
      modal.Reset(currentEvent, today);
    }

    /** `handleEditEvent`: opens the form bound to `e`; the form copies `e`. */
    method HandleEditEvent(e: Event, today: Date)
      requires !isEventModalOpen
      modifies this`currentEvent, this`isEventModalOpen, modal
      ensures currentEvent == Some(e) && isEventModalOpen
      ensures modal.eventDetails == EditDraft(e)
    {
      currentEvent := Some(e);
      isEventModalOpen := true;
      modal.Reset(currentEvent, today);
    }

    /** `handleDeleteEvent`. */
    method HandleDeleteEvent(id: int)
      modifies this`events
      ensures events == Store.Delete(old(events), id)
      ensures old(UniqueIds(events)) ==> UniqueIds(events)
    {
      events := Store.Delete(events, id);
      if old(UniqueIds(events)) {
        Store.SubsequenceUniqueIds(events, old(events));
      }
    }

    /** `toggleEventCompletion`. */
    method ToggleEventCompletion(id: int)
      modifies this`events
      ensures events == Store.Toggle(old(events), id)
      ensures Ids(events) == old(Ids(events))
      ensures old(UniqueIds(events)) ==> UniqueIds(events)
    {
      events := Store.Toggle(events, id);
      Store.ToggleKeepsIds(old(events), id);
    }

    /** The form's submit (`handleSubmit` calling `handleSaveEvent`). When the required
        inputs are filled in, the draft is saved (an edit of the bound event, or a new
        event with id `now`, the value of `Date.now()`) and the form closes, which
        resets its draft; otherwise nothing changes. */
    method HandleSubmit(now: int, today: Date) returns (saved: bool)
      requires isEventModalOpen
      modifies this`events, this`isEventModalOpen, modal
      ensures saved <==> Submitted(old(modal.eventDetails)).Some?
      ensures saved ==> events == Store.Save(old(events), currentEvent, Submitted(old(modal.eventDetails)).value, now)
      ensures saved ==> !isEventModalOpen && modal.eventDetails == InitialDraft(currentEvent, today)
      ensures saved && old(UniqueIds(events)) && (currentEvent.Some? || now !in old(Ids(events))) ==> UniqueIds(events)
      ensures !saved ==> events == old(events) && isEventModalOpen
      ensures !saved ==> modal.eventDetails == old(modal.eventDetails)
    {
      var details := Submitted(modal.eventDetails);
      saved := details.Some?;
      if saved {
        Store.SaveKeepsIds(events, currentEvent, details.value, now);
        events := Store.Save(events, currentEvent, details.value, now);
        isEventModalOpen := false;
        modal.Reset(currentEvent, today);
      }
    }

    /** The dialog's close and the Cancel button: the form closes, discarding the
        draft (the effect resets it), and the store is not touched. */
    method HandleClose(today: Date)
      requires isEventModalOpen
      modifies this`isEventModalOpen, modal
      ensures !isEventModalOpen
      ensures modal.eventDetails == InitialDraft(currentEvent, today)
    {
      isEventModalOpen := false;
      modal.Reset(currentEvent, today);
    }

    /** The calendar's `onSelect`: a cleared selection falls back to `today`. */
    method HandleSelectDate(date: Option<Date>, today: Date)
      modifies this`selectedDate
      ensures selectedDate == Some(date.GetOr(today))
    {
      selectedDate := Some(date.GetOr(today));
    }

    method HandleSearchChange(query: string)
      modifies this`searchQuery
      ensures searchQuery == query
    {
      searchQuery := query;
    }

    method HandlePriorityChange(f: PriorityFilter)
      modifies this`priorityFilter
      ensures priorityFilter == f
    {
      priorityFilter := f;
    }
  }
}
