/** The weekly timetable page: a list of class slots, a form that either adds a new
    slot or rewrites the slot being edited, and the arithmetic that places each slot
    on the grid (one column per day, 60 pixels per hour from 7 AM). */
module Timetable {
  import opened Text
  import Lists

  /** The eight entries of the colour palette; a slot stores the CSS classes of its
      entry, which are presentation and are represented here by the entry itself. */
  datatype Colour = Blue | Green | Purple | Yellow | Red | Teal | Orange | Pink

  datatype TimeSlot = TimeSlot(
    id: string, day: string, startTime: string, endTime: string,
    subject: string, location: string, colour: Colour)

  /** The form's fields: a slot without its id. */
  datatype SlotForm = SlotForm(
    day: string, startTime: string, endTime: string,
    subject: string, location: string, colour: Colour)

  const Days: seq<string> := ["Monday", "Tuesday", "Wednesday", "Thursday", "Friday", "Saturday", "Sunday"]

  /** The form as it starts and as every submit and cancel leaves it. */
  const DefaultForm := SlotForm("Monday", "09:00", "10:00", "", "", Blue)

  /** `{ ...formData, id }`. */
  function FromForm(f: SlotForm, id: string): TimeSlot {
    TimeSlot(id, f.day, f.startTime, f.endTime, f.subject, f.location, f.colour)
  }

  /** What `editTimeSlot` loads into the form. */
  function FormOf(s: TimeSlot): SlotForm {
    SlotForm(s.day, s.startTime, s.endTime, s.subject, s.location, s.colour)
  }

  /** Loading a slot into the form and submitting it under its own id gives the slot back. */
  lemma FormRoundTrip(s: TimeSlot)
    ensures FromForm(FormOf(s), s.id) == s
    ensures FormOf(FromForm(FormOf(s), s.id)) == FormOf(s)
  {
  }

  /** Some slot in the list carries the id. */
  predicate HasId(slots: seq<TimeSlot>, id: string) {
    exists i :: 0 <= i < |slots| && slots[i].id == id
  }

  /** The edit branch of `addTimeSlot`: every slot with the id becomes the form's
      contents under that same id; the others, and the order, are kept. */
  function Updated(slots: seq<TimeSlot>, id: string, f: SlotForm): (r: seq<TimeSlot>)
    ensures |r| == |slots|
    ensures forall i :: 0 <= i < |slots| ==> r[i].id == slots[i].id
    ensures forall i :: 0 <= i < |slots| && slots[i].id == id ==> FormOf(r[i]) == f
    ensures forall i :: 0 <= i < |slots| && slots[i].id != id ==> r[i] == slots[i]
  {
    Lists.MapSelected(slots, (s: TimeSlot) => s.id == id, (s: TimeSlot) => FromForm(f, id))
  }

  /** Submitting an edit whose slot has been deleted meanwhile changes nothing: the
      edit is lost rather than re-added. */
  lemma UpdateOfMissingIdIsLost(slots: seq<TimeSlot>, id: string, f: SlotForm)
    requires !HasId(slots, id)
    ensures Updated(slots, id, f) == slots
  {
    var r := Updated(slots, id, f);
    forall i | 0 <= i < |slots|
      ensures r[i] == slots[i]
    {
      assert slots[i].id != id;
    }
  }

  /** Submitting the form for slot `s` unchanged leaves the list as it was, provided
      every slot sharing its id is `s` itself. */
  lemma UnchangedEditIsIdentity(slots: seq<TimeSlot>, s: TimeSlot)
    requires forall i :: 0 <= i < |slots| && slots[i].id == s.id ==> slots[i] == s
    ensures Updated(slots, s.id, FormOf(s)) == slots
  {
    var r := Updated(slots, s.id, FormOf(s));
    forall i | 0 <= i < |slots|
      ensures r[i] == slots[i]
    {
      if slots[i].id == s.id {
        FormRoundTrip(s);
        assert r[i] == FromForm(FormOf(s), s.id);
      }
    }
  }

  /** `deleteTimeSlot`'s list: the slots whose id differs, in their order. */
  function Deleted(slots: seq<TimeSlot>, id: string): (r: seq<TimeSlot>)
    ensures |r| <= |slots|
    ensures !HasId(r, id)
  {
    var r := Lists.Filter(slots, (s: TimeSlot) => s.id != id);
    assert forall i :: 0 <= i < |r| ==> r[i] in r;
    r
  }

  /** Deleting removes exactly the slots with the id: every other slot stays unchanged,
      as often as it occurred, so every other id stays present; and deleting
      distributes over concatenation, so the grid's order is kept. */
  lemma DeleteKeepsOthers(slots: seq<TimeSlot>, more: seq<TimeSlot>, id: string, t: TimeSlot, other: string)
    requires other != id
    ensures t in Deleted(slots, id) <==> t in slots && t.id != id
    ensures t.id != id ==> multiset(Deleted(slots, id))[t] == multiset(slots)[t]
    ensures HasId(Deleted(slots, id), other) <==> HasId(slots, other)
    ensures Deleted(slots + more, id) == Deleted(slots, id) + Deleted(more, id)
  {
    var keep := (s: TimeSlot) => s.id != id;
    var r := Deleted(slots, id);
    Lists.FilterMembership(slots, keep, t);
    Lists.FilterCount(slots, keep, t);
    if HasId(slots, other) {
      var i :| 0 <= i < |slots| && slots[i].id == other;
      Lists.FilterMembership(slots, keep, slots[i]);
      var j :| 0 <= j < |r| && r[j] == slots[i];
    }
    if HasId(r, other) {
      var j :| 0 <= j < |r| && r[j].id == other;
      Lists.FilterMembership(slots, keep, r[j]);
      var i :| 0 <= i < |slots| && slots[i] == r[j];
    }
    Lists.FilterAppend(slots, more, keep);
  }

  /** A slot appended under an unused id and deleted again leaves the list as it was. */
  lemma AddThenDelete(slots: seq<TimeSlot>, f: SlotForm, id: string)
    requires !HasId(slots, id)
    ensures Deleted(slots + [FromForm(f, id)], id) == slots
  {
    var keep := (s: TimeSlot) => s.id != id;
    Lists.FilterAppend(slots, [FromForm(f, id)], keep);
    forall s | s in slots
      ensures keep(s)
    {
      var i :| 0 <= i < |slots| && slots[i] == s;
    }
    Lists.FilterKeepsAll(slots, keep);
  }

  /** What `addTimeSlot` makes of the list when the subject is not blank: the edited
      slot is rewritten in place, or a new slot is appended at the end. */
  function Submitted(slots: seq<TimeSlot>, editing: Option<TimeSlot>, f: SlotForm, newId: string): (r: seq<TimeSlot>)
    ensures editing.Some? ==> |r| == |slots|
    ensures editing.None? ==> r == slots + [FromForm(f, newId)]
  {
    if editing.Some? then Updated(slots, editing.value.id, f) else slots + [FromForm(f, newId)]
  }

  /** `getDayIndex`: the day's position in the week, or -1 for a name that is not a day. */
  function DayIndex(day: string): (r: int)
    ensures -1 <= r < |Days|
    ensures r == -1 <==> day !in Days
    ensures 0 <= r ==> Days[r] == day
  {
    Lists.IndexOf(Days, day)
  }

  /** Each day's column in the grid is its position in the week plus one (the first
      column holds the hour labels). */
  lemma DayColumns()
    ensures forall k :: 0 <= k < |Days| ==> DayIndex(Days[k]) + 1 == k + 1
  {
    forall k | 0 <= k < |Days|
      ensures DayIndex(Days[k]) == k
    {
      var r := DayIndex(Days[k]);
      assert Days[r] == Days[k];
    }
  }

  /** `getTimePosition`: hours past 7 AM, read with `split(':').map(Number)`; None
      stands for NaN, which a field that is not a digit string gives. */
  function TimePosition(t: string): (r: Option<real>)
    ensures r.Some? <==> ParseClock(t).Some?
    ensures r.Some? ==> r.value >= -7.0
  {
    match ParseClock(t)
    case None => None
    case Some((h, m)) => Some(h as real + m as real / 60.0 - 7.0)
  }

  /** The grid's pixel offset of a time: 60 pixels per hour. */
  function PixelOffset(t: string): (r: Option<real>)
    ensures r.Some? <==> ParseClock(t).Some?
    ensures r.Some? ==> r.value >= -420.0
  {
    match TimePosition(t)
    case None => None
    case Some(p) => Some(p * 60.0)
  }

  /** A time that reads as `h:m` is `h * 60 + m - 420` pixels down the grid: one pixel
      per minute after 7:00, negative above it. */
  lemma OffsetOfParsed(t: string, h: nat, m: nat)
    requires ParseClock(t) == Some((h, m))
    ensures PixelOffset(t) == Some((h * 60 + m - 420) as real)
  {
  }

  /** The slot's height: end offset minus start offset. Nothing checks that the end
      is after the start, so a slot can get a negative height. */
  function SlotHeight(s: TimeSlot): (r: Option<real>)
    ensures r.Some? <==> PixelOffset(s.startTime).Some? && PixelOffset(s.endTime).Some?
  {
    match (PixelOffset(s.startTime), PixelOffset(s.endTime))
    case (Some(top), Some(bottom)) => Some(bottom - top)
    case _ => None
  }

  /** For times that read as `sh:sm` and `eh:em` the height is the slot's length in
      minutes, negative when the end comes first. */
  lemma SlotHeightOfParsed(s: TimeSlot, sh: nat, sm: nat, eh: nat, em: nat)
    requires ParseClock(s.startTime) == Some((sh, sm)) && ParseClock(s.endTime) == Some((eh, em))
    ensures SlotHeight(s) == Some(((eh * 60 + em) - (sh * 60 + sm)) as real)
  {
    OffsetOfParsed(s.startTime, sh, sm);
    OffsetOfParsed(s.endTime, eh, em);
  }

  /** A two-digit field's value. */
  lemma TwoDigits(a: char, b: char)
    requires IsDigit(a) && IsDigit(b)
    ensures AllDigits([a, b]) && DigitsValue([a, b]) == DigitValue(a) * 10 + DigitValue(b)
  {
    assert [a][..0] == [];
    assert DigitsValue([a]) == DigitValue(a);
    assert [a, b][..1] == [a];
  }

  /** "HH:MM" with two-digit fields is `HH * 60 + MM - 420` pixels down the grid. */
  lemma PixelOffsetOfHhMm(h1: char, h2: char, m1: char, m2: char)
    requires IsDigit(h1) && IsDigit(h2) && IsDigit(m1) && IsDigit(m2)
    ensures PixelOffset([h1, h2, ':', m1, m2]) == Some(
      ((DigitValue(h1) * 10 + DigitValue(h2)) * 60 + DigitValue(m1) * 10 + DigitValue(m2) - 420) as real)
  {
    TwoDigits(h1, h2);
    TwoDigits(m1, m2);
    assert [h1, h2, ':', m1, m2] == [h1, h2] + ":" + [m1, m2];
    ParseClockJoin([h1, h2], [m1, m2]);
    OffsetOfParsed([h1, h2, ':', m1, m2], DigitsValue([h1, h2]), DigitsValue([m1, m2]));
  }

  /** 9:00 is two hours, 120 pixels, below the top of the grid. */
  lemma NineOClock()
    ensures PixelOffset("09:00") == Some(120.0)
  {
    PixelOffsetOfHhMm('0', '9', '0', '0');
    assert "09:00" == ['0', '9', ':', '0', '0'];
  }

  /** 10:00 is three hours, 180 pixels, below the top of the grid. */
  lemma TenOClock()
    ensures PixelOffset("10:00") == Some(180.0)
  {
    PixelOffsetOfHhMm('1', '0', '0', '0');
    assert "10:00" == ['1', '0', ':', '0', '0'];
  }

  /** The default form's class is 60 pixels high; with its times swapped the height is
      -60, as nothing checks that the end follows the start. */
  lemma DefaultAndReversedHeights(id: string)
    ensures SlotHeight(FromForm(DefaultForm, id)) == Some(60.0)
    ensures SlotHeight(FromForm(DefaultForm.(startTime := "10:00", endTime := "09:00"), id)) == Some(-60.0)
  {
    NineOClock();
    TenOClock();
  }

  /** A change event of one form field (`[name]: value`); the colour select offers
      only palette entries and the day select only day names, but the model allows
      any string for the day, as the stored value is not re-checked. */
  datatype FormChange =
    | SetSubject(subject: string)
    | SetLocation(location: string)
    | SetDay(day: string)
    | SetColour(colour: Colour)
    | SetStartTime(startTime: string)
    | SetEndTime(endTime: string)

  /** `handleInputChange`: the named field takes the value, the rest are kept. */
  function ApplyChange(f: SlotForm, c: FormChange): (r: SlotForm)
    ensures r.subject == (if c.SetSubject? then c.subject else f.subject)
    ensures r.location == (if c.SetLocation? then c.location else f.location)
    ensures r.day == (if c.SetDay? then c.day else f.day)
    ensures r.colour == (if c.SetColour? then c.colour else f.colour)
    ensures r.startTime == (if c.SetStartTime? then c.startTime else f.startTime)
    ensures r.endTime == (if c.SetEndTime? then c.endTime else f.endTime)
  {
    match c
    case SetSubject(v) => f.(subject := v)
    case SetLocation(v) => f.(location := v)
    case SetDay(v) => f.(day := v)
    case SetColour(v) => f.(colour := v)
    case SetStartTime(v) => f.(startTime := v)
    case SetEndTime(v) => f.(endTime := v)
  }

  /** Which field a change event names, in the form's order. */
  function Field(c: FormChange): nat {
    match c
    case SetSubject(_) => 0
    case SetLocation(_) => 1
    case SetDay(_) => 2
    case SetColour(_) => 3
    case SetStartTime(_) => 4
    case SetEndTime(_) => 5
  }

  /** Each change replaces the form's previous value of its field: of two changes to
      the same field only the later one shows, and changes to different fields can be
      made in either order. */
  lemma ChangesCompose(f: SlotForm, c: FormChange, d: FormChange)
    ensures Field(c) == Field(d) ==> ApplyChange(ApplyChange(f, c), d) == ApplyChange(f, d)
    ensures Field(c) != Field(d) ==>
      ApplyChange(ApplyChange(f, c), d) == ApplyChange(ApplyChange(f, d), c)
  {
  }

  /** One change per field turns any form into any other: every form, including one
      equal to a stored slot, can be typed in. */
  lemma ChangesReachAnyForm(f: SlotForm, g: SlotForm)
    ensures ApplyChange(ApplyChange(ApplyChange(ApplyChange(ApplyChange(ApplyChange(f,
      SetSubject(g.subject)), SetLocation(g.location)), SetDay(g.day)), SetColour(g.colour)),
      SetStartTime(g.startTime)), SetEndTime(g.endTime)) == g
  {
  }

  /** The page's state, one method per handler. The stored copy in the browser is left
      out: the constructor takes the list it held. */
  class Schedule {
    var slots: seq<TimeSlot>
    var showForm: bool
    var editingSlot: Option<TimeSlot>
    var formData: SlotForm

    constructor (saved: seq<TimeSlot>)
      ensures slots == saved && !showForm && editingSlot == None && formData == DefaultForm
    {
      slots, showForm, editingSlot, formData := saved, false, None, DefaultForm;
    }

    /** `addTimeSlot`: a blank subject changes nothing; otherwise the list takes the
        form (an update of the edited slot, or a new slot with `newId`), the edit
        ends, the form is reset and hidden. */
    method AddTimeSlot(newId: string)
      modifies this
      ensures Trim(old(formData).subject) == [] ==>
        && slots == old(slots) && showForm == old(showForm)
        && editingSlot == old(editingSlot) && formData == old(formData)
      ensures Trim(old(formData).subject) != [] ==>
        && slots == Submitted(old(slots), old(editingSlot), old(formData), newId)
        && !showForm && editingSlot == None && formData == DefaultForm
    {
      if Trim(formData.subject) == [] {
        return;
      }
      var next := Submitted(slots, editingSlot, formData, newId);
      if editingSlot.Some? {
        slots := Updated(slots, editingSlot.value.id, formData);
        editingSlot := None;
      } else {
        slots := slots + [FromForm(formData, newId)];
      }
      assert slots == next;
      formData := DefaultForm;
      showForm := false;
    }

    /** `deleteTimeSlot`; an edit in progress is left open. */
    method DeleteTimeSlot(id: string)
      modifies this
      ensures slots == Deleted(old(slots), id)
      ensures showForm == old(showForm) && editingSlot == old(editingSlot) && formData == old(formData)
    {
      slots := Deleted(slots, id);
    }

    /** `editTimeSlot`: remember the slot, load it into the form, show the form. */
    method EditTimeSlot(slot: TimeSlot)
      modifies this
      ensures editingSlot == Some(slot) && formData == FormOf(slot) && showForm
      ensures slots == old(slots)
    {
      editingSlot := Some(slot);
      formData := FormOf(slot);
      showForm := true;
    }

    /** `cancelForm`: hide the form, end any edit, reset the form. */
    method CancelForm()
      modifies this
      ensures !showForm && editingSlot == None && formData == DefaultForm
      ensures slots == old(slots)
    {
      showForm := false;
      editingSlot := None;
      formData := DefaultForm;
    }

    /** `handleInputChange`. */
    method HandleInputChange(c: FormChange)
      modifies this
      ensures formData == ApplyChange(old(formData), c)
      ensures slots == old(slots) && showForm == old(showForm) && editingSlot == old(editingSlot)
    {
      formData := ApplyChange(formData, c);
    }

    /** The header button: it only flips visibility, so an edit in progress and the
        form's contents survive hiding and showing the form. */
    method ToggleForm()
      modifies this
      ensures showForm == !old(showForm)
      ensures slots == old(slots) && editingSlot == old(editingSlot) && formData == old(formData)
    {
      showForm := !showForm;
    }
  }
}
