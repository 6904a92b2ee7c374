/** The notes page: a list of notes, newest first, one of which may be active
    (shown on the right), with an edit mode whose title and content buffers are
    written back on save. Ids come from the clock and are not assumed unique. */
module Notes {
  import opened Text
  import Lists

  /** A note; `createdAt` and `updatedAt` are timestamps. */
  datatype Note = Note(id: string, title: string, content: string, createdAt: int, updatedAt: int)

  /** The note `createNewNote` makes; the two timestamps are read from the clock
      separately, so they are two parameters. */
  function NewNote(id: string, createdAt: int, updatedAt: int): Note {
    Note(id, "Untitled Note", "", createdAt, updatedAt)
  }

  /** Some note in the list carries the id. */
  predicate HasId(notes: seq<Note>, id: string) {
    exists i :: 0 <= i < |notes| && notes[i].id == id
  }

  /** `deleteNote`'s list: the notes whose id differs, in their order. */
  function Deleted(notes: seq<Note>, id: string): (r: seq<Note>)
    ensures !HasId(r, id)
    ensures |r| <= |notes|
  {
    var r := Lists.Filter(notes, (n: Note) => n.id != id);
    assert forall i :: 0 <= i < |r| ==> r[i] in r;
    r
  }

  /** Deleting removes exactly the notes with the id: every other note stays unchanged,
      as often as it occurred, so every other id stays present; and deleting
      distributes over concatenation, so order is kept. */
  lemma DeleteKeepsOthers(notes: seq<Note>, more: seq<Note>, id: string, n: Note, other: string)
    requires other != id
    ensures n in Deleted(notes, id) <==> n in notes && n.id != id
    ensures n.id != id ==> multiset(Deleted(notes, id))[n] == multiset(notes)[n]
    ensures HasId(Deleted(notes, id), other) <==> HasId(notes, other)
    ensures Deleted(notes + more, id) == Deleted(notes, id) + Deleted(more, id)
  {
    var keep := (x: Note) => x.id != id;
    var r := Deleted(notes, id);
    Lists.FilterMembership(notes, keep, n);
    Lists.FilterCount(notes, keep, n);
    if HasId(notes, other) {
      var i :| 0 <= i < |notes| && notes[i].id == other;
      Lists.FilterMembership(notes, keep, notes[i]);
      var j :| 0 <= j < |r| && r[j] == notes[i];
    }
    if HasId(r, other) {
      var j :| 0 <= j < |r| && r[j].id == other;
      Lists.FilterMembership(notes, keep, r[j]);
      var i :| 0 <= i < |notes| && notes[i] == r[j];
    }
    Lists.FilterAppend(notes, more, keep);
  }

  /** A new note under an unused id, deleted again, leaves the list as it was. */
  lemma CreateThenDelete(notes: seq<Note>, id: string, createdAt: int, updatedAt: int)
    requires !HasId(notes, id)
    ensures Deleted([NewNote(id, createdAt, updatedAt)] + notes, id) == notes
  {
    var keep := (n: Note) => n.id != id;
    Lists.FilterAppend([NewNote(id, createdAt, updatedAt)], notes, keep);
    forall n | n in notes
      ensures keep(n)
    {
      var i :| 0 <= i < |notes| && notes[i] == n;
    }
    Lists.FilterKeepsAll(notes, keep);
  }

  /** `saveNote`'s list: every note with the id takes the buffered title and content
      and the save time; ids, creation times and all other notes are kept. */
  function Saved(notes: seq<Note>, id: string, title: string, content: string, savedAt: int): (r: seq<Note>)
    ensures |r| == |notes|
    ensures forall i :: 0 <= i < |notes| ==> r[i].id == notes[i].id && r[i].createdAt == notes[i].createdAt
    ensures forall i :: 0 <= i < |notes| && notes[i].id == id ==>
      r[i].title == title && r[i].content == content && r[i].updatedAt == savedAt
    ensures forall i :: 0 <= i < |notes| && notes[i].id != id ==> r[i] == notes[i]
  {
    Lists.MapSelected(notes, (n: Note) => n.id == id,
                      (n: Note) => n.(title := title, content := content, updatedAt := savedAt))
  }

  /** Saving keeps the set of ids, so the active note stays listed. */
  lemma SaveKeepsIds(notes: seq<Note>, id: string, title: string, content: string, savedAt: int, other: string)
    ensures HasId(Saved(notes, id, title, content, savedAt), other) <==> HasId(notes, other)
  {
    var r := Saved(notes, id, title, content, savedAt);
    if HasId(notes, other) {
      var i :| 0 <= i < |notes| && notes[i].id == other;
      assert r[i].id == other;
    }
  }

  /** Saving the same buffers twice, with the same save time, is saving once. */
  lemma SaveIdempotent(notes: seq<Note>, id: string, title: string, content: string, savedAt: int)
    ensures var once := Saved(notes, id, title, content, savedAt);
      Saved(once, id, title, content, savedAt) == once
  {
    var once := Saved(notes, id, title, content, savedAt);
    var twice := Saved(once, id, title, content, savedAt);
    forall i | 0 <= i < |notes|
      ensures twice[i] == once[i]
    {
      if notes[i].id == id {
        assert once[i] == notes[i].(title := title, content := content, updatedAt := savedAt);
      }
    }
  }

  /** The page's state, one method per handler. The stored copy in the browser is left
      out: the constructor takes the list it held. */
  class NoteBook {
    var notes: seq<Note>
    var activeNote: Option<Note>
    var editMode: bool
    var editTitle: string
    var editContent: string

    /** Edit mode needs an active note, and the active note is one of the listed ones
        (matched by id, since a save re-stamps the list entry and the active copy apart). */
    ghost predicate Valid()
      reads this
    {
      && (editMode ==> activeNote.Some?)
      && (activeNote.Some? ==> HasId(notes, activeNote.value.id))
    }

    constructor (saved: seq<Note>)
      ensures Valid()
      ensures notes == saved && activeNote == None && !editMode && editTitle == "" && editContent == ""
    {
      notes, activeNote, editMode := saved, None, false;
      editTitle, editContent := "", "";
    }

    /** `createNewNote`: prepend an untitled note, make it active and open it for editing. */
    method CreateNewNote(id: string, createdAt: int, updatedAt: int)
      requires Valid()
      modifies this
      ensures Valid()
      ensures notes == [NewNote(id, createdAt, updatedAt)] + old(notes)
      ensures activeNote == Some(NewNote(id, createdAt, updatedAt)) && editMode
      ensures editTitle == "Untitled Note" && editContent == ""
    {
      var note := NewNote(id, createdAt, updatedAt);
      notes := [note] + notes;
      assert notes[0] == note;
      activeNote := Some(note);
      editMode := true;
      editTitle := note.title;
      editContent := note.content;
    }

    /** `deleteNote`: when the active note goes, the first remaining note (if any)
        becomes active and edit mode ends; otherwise only the list changes. */
    method DeleteNote(id: string)
      requires Valid()
      modifies this
      ensures Valid()
      ensures notes == Deleted(old(notes), id)
      ensures editTitle == old(editTitle) && editContent == old(editContent)
      ensures old(activeNote).Some? && old(activeNote).value.id == id ==>
        && activeNote == (if |notes| > 0 then Some(notes[0]) else None)
        && !editMode
      ensures !(old(activeNote).Some? && old(activeNote).value.id == id) ==>
        activeNote == old(activeNote) && editMode == old(editMode)
    {
      var remaining := Deleted(notes, id);
      if activeNote.Some? && activeNote.value.id != id {
        DeleteKeepsOthers(notes, [], id, activeNote.value, activeNote.value.id);
      }
      notes := remaining;
      if activeNote.Some? && activeNote.value.id == id {
        if |remaining| > 0 {
          activeNote := Some(remaining[0]);
          assert HasId(notes, remaining[0].id);
        } else {
          activeNote := None;
        }
        editMode := false;
      }
    }

    /** `startEditingNote`: load the active note into the buffers; no-op without one. */
    method StartEditingNote()
      requires Valid()
      modifies this
      ensures Valid()
      ensures notes == old(notes) && activeNote == old(activeNote)
      ensures old(activeNote).None? ==>
        editMode == old(editMode) && editTitle == old(editTitle) && editContent == old(editContent)
      ensures old(activeNote).Some? ==>
        editMode && editTitle == old(activeNote).value.title && editContent == old(activeNote).value.content
    {
      if activeNote.Some? {
        editMode := true;
        editTitle := activeNote.value.title;
        editContent := activeNote.value.content;
      }
    }

    /** `saveNote`: write the buffers to every note with the active id and to the active
        copy, each stamped with its own reading of the clock, and leave edit mode; no-op
        without an active note. */
    method SaveNote(listSavedAt: int, activeSavedAt: int)
      requires Valid()
      modifies this
      ensures Valid()
      ensures editTitle == old(editTitle) && editContent == old(editContent)
      ensures old(activeNote).None? ==> notes == old(notes) && activeNote == None && editMode == old(editMode)
      ensures old(activeNote).Some? ==>
        && notes == Saved(old(notes), old(activeNote).value.id, editTitle, editContent, listSavedAt)
        && activeNote == Some(old(activeNote).value.(title := editTitle, content := editContent,
                                                      updatedAt := activeSavedAt))
        && !editMode
    {
      if activeNote.Some? {
        var active := activeNote.value;
        SaveKeepsIds(notes, active.id, editTitle, editContent, listSavedAt, active.id);
        notes := Saved(notes, active.id, editTitle, editContent, listSavedAt);
        activeNote := Some(active.(title := editTitle, content := editContent, updatedAt := activeSavedAt));
        editMode := false;
      }
    }

    /** `cancelEdit`: leave edit mode; the buffers keep what was typed. */
    method CancelEdit()
      requires Valid()
      modifies this
      ensures Valid()
      ensures !editMode
      ensures notes == old(notes) && activeNote == old(activeNote)
      ensures editTitle == old(editTitle) && editContent == old(editContent)
    {
      editMode := false;
    }

    /** `selectNote`, called with a note of the rendered list. */
    method SelectNote(note: Note)
      requires Valid() && note in notes
      modifies this
      ensures Valid()
      ensures activeNote == Some(note) && !editMode
      ensures notes == old(notes) && editTitle == old(editTitle) && editContent == old(editContent)
    {
      var i :| 0 <= i < |notes| && notes[i] == note;
      activeNote := Some(note);
      editMode := false;
    }

    /** The title input's change handler. */
    method SetEditTitle(title: string)
      requires Valid()
      modifies this
      ensures Valid()
      ensures editTitle == title
      ensures notes == old(notes) && activeNote == old(activeNote) && editMode == old(editMode)
      ensures editContent == old(editContent)
    {
      editTitle := title;
    }

    /** The content textarea's change handler. */
    method SetEditContent(content: string)
      requires Valid()
      modifies this
      ensures Valid()
      ensures editContent == content
      ensures notes == old(notes) && activeNote == old(activeNote) && editMode == old(editMode)
      ensures editTitle == old(editTitle)
    {
      editContent := content;
    }
  }
}
