/**
 * The selection controller (`AppContent`): which single note is open in an
 * editor, driven by the auto-select effect and four handlers that forward to
 * the repository. Each handler is one atomic step; the delete handler judges
 * the replacement selection on the note list as it was before the delete.
 */
module AppContent {
  import opened Wrappers
  import opened NoteTypes
  import opened JsArray
  import opened UseNotes

  /** The selection refers to a note that the collection holds. */
  predicate SelectionPresent(selected: Option<Note>, notes: seq<Note>) {
    selected.Some? ==> selected.value.id in Ids(notes)
  }

  /** The auto-select effect: with notes present and nothing selected, select the first note. */
  function AutoSelection(selected: Option<Note>, notes: seq<Note>): Option<Note> {
    if |notes| > 0 && selected.None? then Some(notes[0]) else selected
  }

  /** After the effect, a non-empty collection always has a selection, and a present selection stays present. */
  lemma AutoSelectionSelects(selected: Option<Note>, notes: seq<Note>)
    ensures |notes| > 0 ==> AutoSelection(selected, notes).Some?
    ensures selected.Some? ==> AutoSelection(selected, notes) == selected
    ensures SelectionPresent(selected, notes) ==> SelectionPresent(AutoSelection(selected, notes), notes)
  {
    if |notes| > 0 {
      assert notes[0] in notes;
    }
  }

  /** The first note of the list whose id differs from `id`, if any. */
  function FirstOther(notes: seq<Note>, id: string): Option<Note> {
    Find(notes, (n: Note) => n.id != id)
  }

  /**
   * The delete handler's new selection, from the selection and the list
   * before the delete: deleting the selected note selects the first other
   * note when the old list had more than one note, and nothing otherwise.
   */
  function SelectionAfterDelete(selected: Option<Note>, before: seq<Note>, id: string): Option<Note> {
    if selected.Some? && selected.value.id == id then
      (if |before| > 1 then FirstOther(before, id) else None)
    else selected
  }

  /** Deleting a note other than the selected one leaves the selection unchanged. */
  lemma DeleteOtherKeepsSelection(selected: Option<Note>, before: seq<Note>, id: string)
    requires selected.None? || selected.value.id != id
    ensures SelectionAfterDelete(selected, before, id) == selected
  {
  }

  /**
   * Deleting the selected note when the old list had more than one note
   * selects the earliest note of that list with another id (none if every
   * note there had the deleted id).
   */
  lemma DeleteSelectedPicksFirstOther(selected: Option<Note>, before: seq<Note>, id: string)
    requires selected.Some? && selected.value.id == id && |before| > 1
    ensures var r := SelectionAfterDelete(selected, before, id);
      (r.None? <==> forall j :: 0 <= j < |before| ==> before[j].id == id) &&
      (r.Some? ==> exists k :: 0 <= k < |before| && before[k] == r.value && r.value.id != id &&
                     forall j :: 0 <= j < k ==> before[j].id == id)
  {
  }

  /** Deleting the selected note when the old list had at most one note clears the selection. */
  lemma DeleteSelectedLastClears(selected: Option<Note>, before: seq<Note>, id: string)
    requires selected.Some? && selected.value.id == id && |before| <= 1
    ensures SelectionAfterDelete(selected, before, id) == None
  {
  }

  /** With unique ids a selected note in a list of two or more always has a replacement. */
  lemma DeleteSelectedHasReplacement(selected: Option<Note>, before: seq<Note>, id: string)
    requires UniqueIds(before) && |before| > 1
    requires selected.Some? && selected.value.id == id
    ensures SelectionAfterDelete(selected, before, id).Some?
  {
    assert before[0].id != before[1].id;
    assert before[0].id != id || before[1].id != id;
  }

  /**
   * Whatever the delete handler selects is still in the collection after the
   * delete: a present selection stays present.
   */
  lemma DeleteKeepsSelectionPresent(selected: Option<Note>, before: seq<Note>, id: string)
    requires SelectionPresent(selected, before)
    ensures SelectionPresent(SelectionAfterDelete(selected, before, id), RemoveById(before, id))
  {
    var r := SelectionAfterDelete(selected, before, id);
    var after := RemoveById(before, id);
    DeleteRemovesExactly(before, id);
    if r.Some? {
      if selected.Some? && selected.value.id == id {
        assert r.value in before && r.value.id != id;
        assert r.value in after;
      } else {
        var m :| m in before && m.id == selected.value.id;
        assert m in after;
      }
    }
  }

  /**
   * A replacement chosen for a deleted selected note is in the collection
   * after the delete, whatever the selection held before.
   */
  lemma DeleteReplacementIsPresent(selected: Option<Note>, before: seq<Note>, id: string)
    requires selected.Some? && selected.value.id == id
    ensures var r := SelectionAfterDelete(selected, before, id);
      r.Some? ==> r.value in RemoveById(before, id) && r.value.id != id
  {
    DeleteRemovesExactly(before, id);
  }

  /**
   * A delete clears a present selection only when it empties the collection,
   * so the auto-select effect that runs after it finds nothing to select.
   */
  lemma {:induction false} DeleteNeverStrandsSelection(selected: Option<Note>, before: seq<Note>, id: string)
    requires selected.Some? && SelectionPresent(selected, before)
    ensures SelectionAfterDelete(selected, before, id).None? ==> RemoveById(before, id) == []
  {
    if SelectionAfterDelete(selected, before, id).None? {
      assert forall j :: 0 <= j < |before| ==> before[j].id == id by {
        if |before| <= 1 {
          var m :| m in before && m.id == selected.value.id;
        }
      }
      FilterKeepsNone(before, (n: Note) => n.id != id);
    }
  }

  /** Two notes, the older one selected and deleted: the selection moves to the newer one. */
  lemma DeleteScenarioTwoNotes(older: Note, newer: Note)
    requires older.id != newer.id
    ensures SelectionAfterDelete(Some(older), [newer, older], older.id) == Some(newer)
    ensures SelectionAfterDelete(Some(newer), [newer, older], newer.id) == Some(older)
  {
    var r := FirstOther([newer, older], newer.id);
    assert [newer, older][1].id != newer.id;
    assert r.value in [newer, older];
  }

  /**
   * After an update the selection is the caller's note, while the stored
   * copy carries the clock's `updatedAt`: the two agree on every other field.
   */
  lemma UpdateSelectionVersusStored(before: seq<Note>, u: Note, now: int)
    requires u.id in Ids(before)
    ensures exists i :: 0 <= i < |ReplaceById(before, u, now)| && ReplaceById(before, u, now)[i] == u.(updatedAt := At(now))
    ensures SelectionPresent(Some(u), ReplaceById(before, u, now))
  {
    var i :| 0 <= i < |before| && before[i].id == u.id;
    UpdateKeepsIds(before, u, now);
    assert ReplaceById(before, u, now)[i] == Stamped(u, now);
  }

  /** The controller: the one repository and the selected note. */
  class App {
    const repo: Repository
    var selectedNote: Option<Note>

    ghost predicate Valid()
      reads this, repo
    {
      repo.Persisted()
    }

    /** Mounting: the repository loads from storage and nothing is selected. */
    constructor (saved: map<string, string>, codec: StoreCodec)
      ensures Valid() && fresh(repo)
      ensures repo.codec == codec
      ensures repo.notes == LoadNotes(saved, codec) && repo.folders == LoadFolders(saved, codec)
      ensures repo.storage == saved[NotesKey := codec.stringifyNotes(repo.notes)][FoldersKey := codec.stringifyFolders(repo.folders)]
      ensures selectedNote == None
    {
      repo := new Repository.Mount(saved, codec);
      selectedNote := None;
    }

    /** The auto-select effect. */
    method AutoSelect()
      requires Valid()
      modifies this
      ensures Valid() && unchanged(repo)
      ensures selectedNote == AutoSelection(old(selectedNote), repo.notes)
      ensures |repo.notes| > 0 ==> selectedNote.Some?
    {
      if |repo.notes| > 0 && selectedNote.None? {
        selectedNote := Some(repo.notes[0]);
      }
    }

    /** Create a note and select exactly the note the repository returned (now first in the list). */
    method HandleCreateNote(t: NoteType, folderId: Option<string>, id: string, created: int, updated: int)
      requires Valid()
      modifies this, repo
      ensures Valid()
      ensures repo.notes == [NewNote(t, folderId, id, created, updated)] + old(repo.notes)
      ensures repo.folders == old(repo.folders)
      ensures repo.storage == old(repo.storage)[NotesKey := repo.codec.stringifyNotes(repo.notes)]
      ensures selectedNote == Some(repo.notes[0])
      ensures SelectionPresent(selectedNote, repo.notes)
    {
      var note := repo.CreateNote(t, folderId, id, created, updated);
      selectedNote := Some(note);
      assert note in repo.notes;
    }

    /** An explicit selection request: select the requested note unconditionally. */
    method HandleSelectNote(note: Note)
      requires Valid()
      modifies this
      ensures Valid() && unchanged(repo)
      ensures selectedNote == Some(note)
    {
      selectedNote := Some(note);
    }

    /** Update through the repository, then select the caller's note (not the stamped copy). */
    method HandleUpdateNote(note: Note, now: int)
      requires Valid()
      modifies this, repo
      ensures Valid()
      ensures repo.notes == ReplaceById(old(repo.notes), note, now) && repo.folders == old(repo.folders)
      ensures repo.storage == old(repo.storage)[NotesKey := repo.codec.stringifyNotes(repo.notes)]
      ensures selectedNote == Some(note)
      ensures Ids(repo.notes) == Ids(old(repo.notes))
    {
      repo.UpdateNote(note, now);
      selectedNote := Some(note);
      UpdateKeepsIds(old(repo.notes), note, now);
    }

    /** Delete through the repository, then fix the selection from the pre-delete list. */
    method HandleDeleteNote(id: string)
      requires Valid()
      modifies this, repo
      ensures Valid()
      ensures repo.notes == RemoveById(old(repo.notes), id) && repo.folders == old(repo.folders)
      ensures repo.storage == old(repo.storage)[NotesKey := repo.codec.stringifyNotes(repo.notes)]
      ensures selectedNote == SelectionAfterDelete(old(selectedNote), old(repo.notes), id)
      ensures SelectionPresent(old(selectedNote), old(repo.notes)) ==> SelectionPresent(selectedNote, repo.notes)
    {
      var before := repo.notes;
      repo.DeleteNote(id);
      if selectedNote.Some? && selectedNote.value.id == id {
        selectedNote := if |before| > 1 then FirstOther(before, id) else None;
      }
      if SelectionPresent(old(selectedNote), before) {
        DeleteKeepsSelectionPresent(old(selectedNote), before, id);
      }
    }
  }
}
