/**
 * The notes widget (src/components/NotesManager.tsx): a list of notes, the
 * active note and the two editor fields, updated together by the handlers,
 * and the search filter over the list. Each reading of `Date.now()` is a
 * parameter (`idTime`, `now`); the saved list read on first render is the
 * parameter `saved`.
 */
module NotesManager {
  import opened Wrappers
  import Text
  import Seqs

  datatype Note = Note(id: string, title: string, content: string, lastModified: int)

  const NewNoteTitle := "New Note"

  // ---------------------------------------------------------------------------
  // The pure parts: the rewrite in saveNote, the filters of deleteNote and the search
  // ---------------------------------------------------------------------------

  /** The `map` in `saveNote`: the notes with the id get the editor's title and content and the new time. */
  function Rewrite(notes: seq<Note>, id: string, title: string, content: string, now: int): (r: seq<Note>)
    ensures |r| == |notes|
  {
    seq(|notes|, k requires 0 <= k < |notes| =>
      if notes[k].id == id then notes[k].(title := title, content := content, lastModified := now) else notes[k])
  }

  /** The `filter` in `deleteNote`. */
  function Without(notes: seq<Note>, id: string): seq<Note> {
    Seqs.Filter(notes, (n: Note) => n.id != id)
  }

  /** The search test: the lower-cased title or content contains the lower-cased term. */
  predicate Matches(n: Note, term: string) {
    Text.Includes(Text.ToLower(n.title), Text.ToLower(term)) || Text.Includes(Text.ToLower(n.content), Text.ToLower(term))
  }

  /** `filteredNotes`. */
  function FilteredNotes(notes: seq<Note>, term: string): seq<Note> {
    Seqs.Filter(notes, (n: Note) => Matches(n, term))
  }

  /** The rewrite touches only the notes with the id, keeps ids and order, and leaves the others as they were. */
  lemma RewriteOnlyMatching(notes: seq<Note>, id: string, title: string, content: string, now: int)
    ensures forall k :: 0 <= k < |notes| ==>
      var n, m := notes[k], Rewrite(notes, id, title, content, now)[k];
      m.id == n.id
      && (n.id == id ==> m.title == title && m.content == content && m.lastModified == now)
      && (n.id != id ==> m == n)
  {
  }

  /** Deleting removes exactly the notes with the id and keeps the others in order. */
  lemma WithoutExactly(notes: seq<Note>, more: seq<Note>, id: string, n: Note)
    ensures n in Without(notes, id) <==> n in notes && n.id != id
    ensures Without(notes + more, id) == Without(notes, id) + Without(more, id)
  {
    Seqs.FilterMembership(notes, (n: Note) => n.id != id, n);
    Seqs.FilterAppend(notes, more, (n: Note) => n.id != id);
  }

  /** A note is listed exactly when its lower-cased title or content contains the lower-cased term at some offset. */
  lemma FilteredNotesIff(notes: seq<Note>, term: string, n: Note)
    ensures n in FilteredNotes(notes, term) <==>
      n in notes
      && ((exists i :: Text.OccursAt(Text.ToLower(n.title), Text.ToLower(term), i))
          || (exists i :: Text.OccursAt(Text.ToLower(n.content), Text.ToLower(term), i)))
  {
    Seqs.FilterMembership(notes, (n: Note) => Matches(n, term), n);
    Text.IncludesIff(Text.ToLower(n.title), Text.ToLower(term));
    Text.IncludesIff(Text.ToLower(n.content), Text.ToLower(term));
  }

  /** An empty search term keeps every note, in order. */
  lemma EmptySearchKeepsAll(notes: seq<Note>)
    ensures FilteredNotes(notes, "") == notes
  {
    Seqs.FilterAll(notes, (n: Note) => Matches(n, ""));
  }

  // ---------------------------------------------------------------------------
  // The handlers
  // ---------------------------------------------------------------------------

  class NotesManager {
    var notes: seq<Note>
    var activeNote: Option<Note>
    var editTitle: string
    var editContent: string

    /** First render: the saved list, or none; nothing active and empty editor fields. */
    constructor(saved: Option<seq<Note>>)
      ensures notes == saved.GetOr([]) && activeNote.None? && editTitle == "" && editContent == ""
    {
      notes := saved.GetOr([]);
      activeNote := None;
      editTitle := "";
      editContent := "";
    }

    /**
     * `createNote`: prepends a 'New Note' with empty content, makes it active,
     * and loads it into the editor. The clock is read twice, once for the id
     * (`idTime`) and once for the modification time (`now`); the two readings
     * may differ.
     */
    method CreateNote(idTime: nat, now: nat)
      modifies this
      ensures notes == [Note(Text.NatToString(idTime), NewNoteTitle, "", now)] + old(notes)
      ensures activeNote == Some(notes[0])
      ensures editTitle == NewNoteTitle && editContent == ""
    {
      var newNote := Note(Text.NatToString(idTime), NewNoteTitle, "", now);
      notes := [newNote] + notes;
      activeNote := Some(newNote);
      editTitle := newNote.title;
      editContent := newNote.content;
    }

    /** Clicking a listed note: it becomes active and is loaded into the editor. */
    method SelectNote(n: Note)
      modifies this
      ensures activeNote == Some(n) && editTitle == n.title && editContent == n.content
      ensures notes == old(notes)
    {
      activeNote := Some(n);
      editTitle := n.title;
      editContent := n.content;
    }

    /** Typing into the title field. */
    method SetEditTitle(title: string)
      modifies this
      ensures editTitle == title
      ensures notes == old(notes) && activeNote == old(activeNote) && editContent == old(editContent)
    {
      editTitle := title;
    }

    /** Typing into the content field. */
    method SetEditContent(content: string)
      modifies this
      ensures editContent == content
      ensures notes == old(notes) && activeNote == old(activeNote) && editTitle == old(editTitle)
    {
      editContent := content;
    }

    /** `saveNote`: without an active note nothing happens; otherwise the editor fields are written to the notes with its id. */
    method SaveNote(now: int)
      modifies this
      ensures old(activeNote).None? ==> notes == old(notes) && activeNote == old(activeNote)
      ensures old(activeNote).Some? ==>
        notes == Rewrite(old(notes), old(activeNote).value.id, editTitle, editContent, now)
        && activeNote == Some(old(activeNote).value.(title := editTitle, content := editContent))
      ensures editTitle == old(editTitle) && editContent == old(editContent)
    {
      if activeNote.None? {
        return;
      }
      notes := Rewrite(notes, activeNote.value.id, editTitle, editContent, now);
      activeNote := Some(activeNote.value.(title := editTitle, content := editContent));
    }

    /** `deleteNote(id)`: removes the notes with the id; if the active note had it, the editor is cleared too. */
    method DeleteNote(id: string)
      modifies this
      ensures notes == Without(old(notes), id)
      ensures old(activeNote).Some? && old(activeNote).value.id == id ==>
        activeNote.None? && editTitle == "" && editContent == ""
      ensures !(old(activeNote).Some? && old(activeNote).value.id == id) ==>
        activeNote == old(activeNote) && editTitle == old(editTitle) && editContent == old(editContent)
    {
      notes := Without(notes, id);
      if activeNote.Some? && activeNote.value.id == id {
        activeNote := None;
        editTitle := "";
        editContent := "";
      }
    }
  }

  /** Creating a note under a fresh id and deleting it again restores the list and empties the editor. */
  method CreateThenDelete(m: NotesManager, idTime: nat, now: nat)
    requires forall k :: 0 <= k < |m.notes| ==> m.notes[k].id != Text.NatToString(idTime)
    modifies m
    ensures m.notes == old(m.notes)
    ensures m.activeNote.None? && m.editTitle == "" && m.editContent == ""
  {
    ghost var before := m.notes;
    m.CreateNote(idTime, now);
    m.DeleteNote(Text.NatToString(idTime));
    var n := Note(Text.NatToString(idTime), NewNoteTitle, "", now);
    Seqs.FilterAppend([n], before, (n: Note) => n.id != Text.NatToString(idTime));
    Seqs.FilterAll(before, (n: Note) => n.id != Text.NatToString(idTime));
  }

  /**
   * Selecting a note, retitling it and saving: every note sharing its id gets
   * the new title, its own content back and the save time; every other note
   * is left as it was.
   */
  method RetitleNote(m: NotesManager, n: Note, title: string, now: int)
    modifies m
    ensures |m.notes| == |old(m.notes)|
    ensures forall k :: 0 <= k < |m.notes| ==>
      if old(m.notes)[k].id == n.id
      then m.notes[k] == old(m.notes)[k].(title := title, content := n.content, lastModified := now)
      else m.notes[k] == old(m.notes)[k]
    ensures m.activeNote == Some(n.(title := title))
  {
    m.SelectNote(n);
    m.SetEditTitle(title);
    m.SaveNote(now);
    RewriteOnlyMatching(old(m.notes), n.id, title, n.content, now);
  }
}
