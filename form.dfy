/** The event form (`EventModal`): the draft it edits, how the draft is initialised
    when the form opens, how field changes touch it, and when it can be submitted. */
module Form {
  import opened Events
  import opened Wrappers

  /** `eventDetails`. The date and time inputs may be empty (`None`). */
  datatype Draft = Draft(title: string, date: Option<Date>, time: Option<Time>,
                         description: string, priority: Priority, completed: bool)

  /** The draft of a new event: today's date, empty title, time and description,
      medium priority, not completed. It cannot be submitted as it stands. */
  function BlankDraft(today: Date): (r: Draft)
    ensures Submitted(r) == None
    ensures r.title == "" && r.time == None && r.description == ""
    ensures r.date == Some(today) && r.priority == Medium && !r.completed
  {
    Draft("", Some(today), None, "", Medium, false)
  }

  /** The draft of an edit, copied field by field from the event. It can be
      submitted at once exactly when the event has a title. */
  function EditDraft(e: Event): (r: Draft)
    ensures Submitted(r).Some? <==> e.title != ""
  {
    Draft(e.title, Some(e.date), Some(e.time), e.description, e.priority, e.completed)
  }

  /** The effect hook: an edit draft when the form is bound to an event, a blank one otherwise. */
  function InitialDraft(initialEvent: Option<Event>, today: Date): (d: Draft)
    ensures initialEvent.None? ==> d == BlankDraft(today)
    ensures initialEvent.Some? ==> d == EditDraft(initialEvent.value)
  {
    match initialEvent
    case Some(e) => EditDraft(e)
    case None => BlankDraft(today)
  }

  // ---------------------------------------------------------------------------
  // Submitting

  /** The browser submits the form only when the `required` inputs (title, date,
      time) are filled in; the details it hands to the dashboard are the draft's. */
  function Submitted(d: Draft): (r: Option<Details>)
    ensures r.Some? <==> d.title != "" && d.date.Some? && d.time.Some?
    ensures r.Some? ==> DraftOf(r.value) == d
  {
    if d.title != "" && d.date.Some? && d.time.Some?
    then Some(Details(d.title, d.date.value, d.time.value, d.description, d.priority, d.completed))
    else None
  }

  /** The draft showing saved details. */
  function DraftOf(x: Details): Draft
  {
    Draft(x.title, Some(x.date), Some(x.time), x.description, x.priority, x.completed)
  }

  /** Opening an event for edit and submitting at once saves the event's own
      details, whenever it has a title. */
  lemma EditDraftRoundTrip(e: Event)
    requires e.title != ""
    ensures Submitted(EditDraft(e)) == Some(DetailsOf(e))
  {
  }

  // ---------------------------------------------------------------------------
  // Field changes

  /** One input's change event: its `name` and new value. */
  datatype FieldChange =
    | SetTitle(title: string)
    | SetDate(date: Option<Date>)
    | SetTime(time: Option<Time>)
    | SetDescription(description: string)
    | SetPriority(priority: Priority)
    | SetCompleted(completed: bool)

  datatype Field = TitleField | DateField | TimeField | DescriptionField | PriorityField | CompletedField

  function FieldOf(c: FieldChange): Field
  {
    match c
    case SetTitle(_) => TitleField
    case SetDate(_) => DateField
    case SetTime(_) => TimeField
    case SetDescription(_) => DescriptionField
    case SetPriority(_) => PriorityField
    case SetCompleted(_) => CompletedField
  }

  /** `a` and `b` hold the same value in field `f`. */
  predicate Agree(a: Draft, b: Draft, f: Field)
  {
    match f
    case TitleField => a.title == b.title
    case DateField => a.date == b.date
    case TimeField => a.time == b.time
    case DescriptionField => a.description == b.description
    case PriorityField => a.priority == b.priority
    case CompletedField => a.completed == b.completed
  }

  /** The field named by `c` holds the value `c` carries. */
  predicate Holds(d: Draft, c: FieldChange)
  {
    match c
    case SetTitle(v) => d.title == v
    case SetDate(v) => d.date == v
    case SetTime(v) => d.time == v
    case SetDescription(v) => d.description == v
    case SetPriority(v) => d.priority == v
    case SetCompleted(v) => d.completed == v
  }

  /** A change event: the named field takes the new value and every other field
      keeps its old one. */
  function Apply(d: Draft, c: FieldChange): (r: Draft)
    ensures Holds(r, c)
    ensures forall f :: f != FieldOf(c) ==> Agree(r, d, f)
  {
    match c
    case SetTitle(v) => d.(title := v)
    case SetDate(v) => d.(date := v)
    case SetTime(v) => d.(time := v)
    case SetDescription(v) => d.(description := v)
    case SetPriority(v) => d.(priority := v)
    case SetCompleted(v) => d.(completed := v)
  }

  /** Two drafts that agree on every field are the same draft. */
  lemma AgreeEverywhere(a: Draft, b: Draft)
    requires forall f :: Agree(a, b, f)
    ensures a == b
  {
    assert Agree(a, b, TitleField) && Agree(a, b, DateField) && Agree(a, b, TimeField);
    assert Agree(a, b, DescriptionField) && Agree(a, b, PriorityField) && Agree(a, b, CompletedField);
  }

  /** Of two changes to the same field, the later one wins. */
  lemma LaterChangeWins(d: Draft, c1: FieldChange, c2: FieldChange)
    requires FieldOf(c1) == FieldOf(c2)
    ensures Apply(Apply(d, c1), c2) == Apply(d, c2)
  {
    var l, r := Apply(Apply(d, c1), c2), Apply(d, c2);
    forall f
      ensures Agree(l, r, f)
    {
      if f == FieldOf(c2) {
        assert Holds(l, c2) && Holds(r, c2);
        match c2
        case SetTitle(_) =>
        case SetDate(_) =>
        case SetTime(_) =>
        case SetDescription(_) =>
        case SetPriority(_) =>
        case SetCompleted(_) =>
      } else {
        assert Agree(l, Apply(d, c1), f) && Agree(Apply(d, c1), d, f) && Agree(r, d, f);
        match f
        case TitleField =>
        case DateField =>
        case TimeField =>
        case DescriptionField =>
        case PriorityField =>
        case CompletedField =>
      }
    }
    AgreeEverywhere(l, r);
  }

  /** Changes to different fields can happen in either order. */
  lemma ChangesCommute(d: Draft, c1: FieldChange, c2: FieldChange)
    requires FieldOf(c1) != FieldOf(c2)
    ensures Apply(Apply(d, c1), c2) == Apply(Apply(d, c2), c1)
  {
  }

  // ---------------------------------------------------------------------------
  // The component's state

  class EventModal {
    var eventDetails: Draft

    /** The initial state: the blank draft of the day the component mounts. */
    constructor (today: Date)
      ensures eventDetails == BlankDraft(today)
    {
      eventDetails := BlankDraft(today);
    }

    /** The effect that runs when `initialEvent` or `isOpen` changes. */
    method Reset(initialEvent: Option<Event>, today: Date)
      modifies this
      ensures eventDetails == InitialDraft(initialEvent, today)
    {
      eventDetails := InitialDraft(initialEvent, today);
    }

    /** `handleInputChange`, `handleCheckboxChange` and the select and checkbox callbacks. */
    method HandleChange(c: FieldChange)
      modifies this
      ensures eventDetails == Apply(old(eventDetails), c)
      ensures Holds(eventDetails, c)
      ensures forall f :: f != FieldOf(c) ==> Agree(eventDetails, old(eventDetails), f)
    {
      eventDetails := Apply(eventDetails, c);
    }
  }
}
