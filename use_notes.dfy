/**
 * The notes repository (`useNotes`): the in-memory `notes` and `folders`
 * collections, the four operations that replace them, the load from browser
 * storage on mount and the write-back after every change.
 *
 * Browser storage is a `map<string, string>`; `JSON.parse`, `JSON.stringify`
 * and `new Date(text)` are the function-valued fields of a `StoreCodec`; the
 * clock and the id generator are parameters of the operations.
 */
module UseNotes {
  import opened Wrappers
  import opened NoteTypes
  import opened JsArray

  const NotesKey := "pallisery_notes"
  const FoldersKey := "pallisery_folders"

  /** A note as `JSON.parse` returns it: the two dates are still ISO text. */
  datatype StoredNote = StoredNote(
    id: string,
    title: string,
    content: string,
    noteType: NoteType,
    folderId: Option<string>,
    createdAt: string,
    updatedAt: string)

  /** A folder as `JSON.parse` returns it. */
  datatype StoredFolder = StoredFolder(
    id: string,
    name: string,
    color: Option<string>,
    createdAt: string)

  /**
   * The JSON and date collaborators. `parseNotes` / `parseFolders` stand for
   * `JSON.parse` followed by the array check that `.map` performs: `None`
   * means that one of them threw.
   */
  datatype StoreCodec = StoreCodec(
    parseNotes: string -> Option<seq<StoredNote>>,
    parseFolders: string -> Option<seq<StoredFolder>>,
    stringifyNotes: seq<Note> -> string,
    stringifyFolders: seq<Folder> -> string,
    parseDate: string -> Date)

  // ----- load -----

  /** A loaded note: every stored field copied, the two date texts turned into dates. */
  function HydrateNote(s: StoredNote, parseDate: string -> Date): Note {
    Note(s.id, s.title, s.content, s.noteType, s.folderId, parseDate(s.createdAt), parseDate(s.updatedAt))
  }

  /** A loaded folder: every stored field copied, the creation date text turned into a date. */
  function HydrateFolder(s: StoredFolder, parseDate: string -> Date): Folder {
    Folder(s.id, s.name, s.color, parseDate(s.createdAt))
  }

  /** The text stored under `key`; a missing key reads as the empty string, which the load treats alike. */
  function Lookup(saved: map<string, string>, key: string): string {
    if key in saved then saved[key] else ""
  }

  /** The notes the load effect installs: the hydrated stored notes, or the initial `[]`. */
  function LoadNotes(saved: map<string, string>, codec: StoreCodec): seq<Note> {
    var text := Lookup(saved, NotesKey);
    if text == "" then []
    else match codec.parseNotes(text)
      case None => []
      case Some(stored) => Map(stored, (s: StoredNote) => HydrateNote(s, codec.parseDate))
  }

  /** The folders the load effect installs: the hydrated stored folders, or the initial `[]`. */
  function LoadFolders(saved: map<string, string>, codec: StoreCodec): seq<Folder> {
    var text := Lookup(saved, FoldersKey);
    if text == "" then []
    else match codec.parseFolders(text)
      case None => []
      case Some(stored) => Map(stored, (s: StoredFolder) => HydrateFolder(s, codec.parseDate))
  }

  /** A missing key, an empty value or a parse failure leaves each collection empty. */
  lemma LoadFallsBackToEmpty(saved: map<string, string>, codec: StoreCodec)
    ensures (NotesKey !in saved || saved[NotesKey] == "" || codec.parseNotes(saved[NotesKey]).None?)
      ==> LoadNotes(saved, codec) == []
    ensures (FoldersKey !in saved || saved[FoldersKey] == "" || codec.parseFolders(saved[FoldersKey]).None?)
      ==> LoadFolders(saved, codec) == []
  {
  }

  /**
   * A successful load keeps every field of every stored note, in order, and
   * rebuilds only the two dates.
   */
  lemma LoadNotesKeepsFields(saved: map<string, string>, codec: StoreCodec)
    requires NotesKey in saved && saved[NotesKey] != "" && codec.parseNotes(saved[NotesKey]).Some?
    ensures var stored, r := codec.parseNotes(saved[NotesKey]).value, LoadNotes(saved, codec);
      |r| == |stored| &&
      forall i :: 0 <= i < |r| ==>
        r[i].id == stored[i].id && r[i].title == stored[i].title && r[i].content == stored[i].content &&
        r[i].noteType == stored[i].noteType && r[i].folderId == stored[i].folderId &&
        r[i].createdAt == codec.parseDate(stored[i].createdAt) &&
        r[i].updatedAt == codec.parseDate(stored[i].updatedAt)
  {
  }

  /** A successful load keeps every field of every stored folder and rebuilds only `createdAt`. */
  lemma LoadFoldersKeepsFields(saved: map<string, string>, codec: StoreCodec)
    requires FoldersKey in saved && saved[FoldersKey] != "" && codec.parseFolders(saved[FoldersKey]).Some?
    ensures var stored, r := codec.parseFolders(saved[FoldersKey]).value, LoadFolders(saved, codec);
      |r| == |stored| &&
      forall i :: 0 <= i < |r| ==>
        r[i].id == stored[i].id && r[i].name == stored[i].name && r[i].color == stored[i].color &&
        r[i].createdAt == codec.parseDate(stored[i].createdAt)
  {
  }

  /** The two keys are read independently: changing one key's value cannot affect the other collection. */
  lemma LoadKeysIndependent(saved: map<string, string>, text: string, codec: StoreCodec)
    ensures LoadNotes(saved[FoldersKey := text], codec) == LoadNotes(saved, codec)
    ensures LoadFolders(saved[NotesKey := text], codec) == LoadFolders(saved, codec)
  {
    assert Lookup(saved[FoldersKey := text], NotesKey) == Lookup(saved, NotesKey);
    assert Lookup(saved[NotesKey := text], FoldersKey) == Lookup(saved, FoldersKey);
  }

  // ----- identifiers -----

  function Ids(notes: seq<Note>): set<string> {
    set n | n in notes :: n.id
  }

  predicate UniqueIds(notes: seq<Note>) {
    forall i, j :: 0 <= i < j < |notes| ==> notes[i].id != notes[j].id
  }

  // ----- createNote -----

  /** "New Note" for text, "New Canvas" for canvas. */
  function DefaultTitle(t: NoteType): string {
    if t == Text then "New Note" else "New Canvas"
  }

  /** The empty string for text, `JSON.stringify([])` for canvas. */
  function DefaultContent(t: NoteType): string {
    if t == Text then "" else "[]"
  }

  /** The note `createNote` builds from a fresh id and two clock readings. */
  function NewNote(t: NoteType, folderId: Option<string>, id: string, created: int, updated: int): Note {
    Note(id, DefaultTitle(t), DefaultContent(t), t, folderId, At(created), At(updated))
  }

  /** Prepending a note whose id is fresh keeps the ids unique. */
  lemma {:induction false} CreatePreservesUniqueIds(notes: seq<Note>, n: Note)
    requires UniqueIds(notes) && n.id !in Ids(notes)
    ensures UniqueIds([n] + notes)
  {
    forall j | 1 <= j < |[n] + notes| ensures ([n] + notes)[0].id != ([n] + notes)[j].id {
      assert ([n] + notes)[j] == notes[j - 1];
      assert notes[j - 1] in notes;
    }
  }

  // ----- updateNote -----

  /** The stored copy of an update: the supplied note with `updatedAt` from the clock. */
  function Stamped(u: Note, now: int): Note {
    u.(updatedAt := At(now))
  }

  /** Update: each note whose id matches is replaced by the stamped copy, in place. */
  function ReplaceById(notes: seq<Note>, u: Note, now: int): seq<Note> {
    Map(notes, (n: Note) => if n.id == u.id then Stamped(u, now) else n)
  }

  /**
   * An update keeps the length and the order: every note with another id is
   * untouched and every note with the supplied id becomes the stamped copy.
   */
  lemma UpdateReplacesInPlace(notes: seq<Note>, u: Note, now: int)
    ensures |ReplaceById(notes, u, now)| == |notes|
    ensures forall i :: 0 <= i < |notes| && notes[i].id != u.id ==> ReplaceById(notes, u, now)[i] == notes[i]
    ensures forall i :: 0 <= i < |notes| && notes[i].id == u.id ==> ReplaceById(notes, u, now)[i] == Stamped(u, now)
  {
  }

  /** Updating an id that is not present changes nothing: update never inserts. */
  lemma UpdateAbsentIsNoOp(notes: seq<Note>, u: Note, now: int)
    requires u.id !in Ids(notes)
    ensures ReplaceById(notes, u, now) == notes
  {
    var r := ReplaceById(notes, u, now);
    forall i | 0 <= i < |notes| ensures r[i] == notes[i] {
      assert notes[i] in notes;
    }
  }

  /** Every note after an update was there before or is the stamped copy, and the set of ids is unchanged. */
  lemma UpdateKeepsIds(notes: seq<Note>, u: Note, now: int)
    ensures forall i :: 0 <= i < |notes| ==> ReplaceById(notes, u, now)[i].id == notes[i].id
    ensures Ids(ReplaceById(notes, u, now)) == Ids(notes)
    ensures forall x :: x in ReplaceById(notes, u, now) ==> x in notes || x == Stamped(u, now)
  {
    var r := ReplaceById(notes, u, now);
    forall x | x in Ids(r) ensures x in Ids(notes) {
      var i :| 0 <= i < |r| && r[i].id == x;
      assert notes[i] in notes;
    }
    forall x | x in Ids(notes) ensures x in Ids(r) {
      var i :| 0 <= i < |notes| && notes[i].id == x;
      assert r[i] in r;
    }
  }

  /** An update keeps the ids unique. */
  lemma UpdatePreservesUniqueIds(notes: seq<Note>, u: Note, now: int)
    requires UniqueIds(notes)
    ensures UniqueIds(ReplaceById(notes, u, now))
  {
    UpdateKeepsIds(notes, u, now);
  }

  /** Repeating an update with the same note and clock reading is the same as doing it once. */
  lemma UpdateIdempotent(notes: seq<Note>, u: Note, now: int)
    ensures ReplaceById(ReplaceById(notes, u, now), u, now) == ReplaceById(notes, u, now)
  {
  }

  // ----- deleteNote -----

  /** Delete: the notes whose id differs, in their order. */
  function RemoveById(notes: seq<Note>, id: string): seq<Note> {
    Filter(notes, (n: Note) => n.id != id)
  }

  /** Delete keeps exactly the notes with another id. */
  lemma DeleteRemovesExactly(notes: seq<Note>, id: string)
    ensures forall x :: x in RemoveById(notes, id) <==> x in notes && x.id != id
    ensures id !in Ids(RemoveById(notes, id))
  {
    var r := RemoveById(notes, id);
    forall x | x in notes && x.id != id ensures x in r {
      var i :| 0 <= i < |notes| && notes[i] == x;
    }
  }

  /** Delete keeps the relative order of the remaining notes: it distributes over concatenation. */
  lemma DeleteKeepsOrder(a: seq<Note>, b: seq<Note>, id: string)
    ensures RemoveById(a + b, id) == RemoveById(a, id) + RemoveById(b, id)
  {
    FilterConcat(a, b, (n: Note) => n.id != id);
  }

  /** Deleting an absent id is a no-op. */
  lemma DeleteAbsentIsNoOp(notes: seq<Note>, id: string)
    requires id !in Ids(notes)
    ensures RemoveById(notes, id) == notes
  {
    forall i | 0 <= i < |notes| ensures notes[i].id != id {
      assert notes[i] in notes;
    }
    FilterKeepsAll(notes, (n: Note) => n.id != id);
  }

  /** Deleting twice is the same as deleting once. */
  lemma DeleteIdempotent(notes: seq<Note>, id: string)
    ensures RemoveById(RemoveById(notes, id), id) == RemoveById(notes, id)
  {
    FilterIdempotent(notes, (n: Note) => n.id != id);
  }

  /** With unique ids a delete removes one note if the id is present and none otherwise. */
  lemma {:induction false} DeleteRemovesAtMostOne(notes: seq<Note>, id: string)
    requires UniqueIds(notes)
    ensures |RemoveById(notes, id)| == |notes| - (if id in Ids(notes) then 1 else 0)
  {
    if notes != [] {
      var t := notes[1..];
      assert notes == [notes[0]] + t;
      assert UniqueIds(t);
      assert Ids(notes) == {notes[0].id} + Ids(t);
      if notes[0].id == id {
        forall x | x in t ensures x.id != id {
          var j :| 0 <= j < |t| && t[j] == x;
          assert notes[j + 1] == x;
        }
        assert id !in Ids(t);
        DeleteAbsentIsNoOp(t, id);
      } else {
        DeleteRemovesAtMostOne(t, id);
      }
    }
  }

  /** Deleting a freshly created note restores the collection: delete undoes create. */
  lemma DeleteUndoesCreate(notes: seq<Note>, n: Note)
    requires n.id !in Ids(notes)
    ensures RemoveById([n] + notes, n.id) == notes
  {
    assert ([n] + notes)[1..] == notes;
    DeleteAbsentIsNoOp(notes, n.id);
  }

  /** Prepending a note whose id no element has keeps the ids unique. */
  lemma ConsUniqueIds(h: Note, t: seq<Note>)
    requires UniqueIds(t)
    requires forall j :: 0 <= j < |t| ==> t[j].id != h.id
    ensures UniqueIds([h] + t)
  {
    forall i, j | 0 <= i < j < |[h] + t| ensures ([h] + t)[i].id != ([h] + t)[j].id {
      assert ([h] + t)[j] == t[j - 1];
      if i > 0 {
        assert ([h] + t)[i] == t[i - 1];
      }
    }
  }

  /** A delete keeps the ids unique. */
  lemma {:induction false} DeletePreservesUniqueIds(notes: seq<Note>, id: string)
    requires UniqueIds(notes)
    ensures UniqueIds(RemoveById(notes, id))
  {
    if notes != [] {
      var h, t := notes[0], notes[1..];
      assert UniqueIds(t);
      DeletePreservesUniqueIds(t, id);
      var rt := RemoveById(t, id);
      assert RemoveById(notes, id) == (if h.id != id then [h] else []) + rt;
      if h.id != id {
        forall j | 0 <= j < |rt| ensures rt[j].id != h.id {
          var k :| 0 <= k < |t| && t[k] == rt[j];
          assert notes[k + 1] == rt[j];
        }
        ConsUniqueIds(h, rt);
      }
    }
  }

  // ----- createFolder -----

  /** The folder `createFolder` builds from a fresh id and a clock reading. */
  function NewFolder(name: string, color: Option<string>, id: string, created: int): Folder {
    Folder(id, name, color, At(created))
  }

  /**
   * The repository: the two collections, the browser storage they are
   * mirrored into, and the codec used to read and write it.
   */
  class Repository {
    var notes: seq<Note>
    var folders: seq<Folder>
    var storage: map<string, string>
    const codec: StoreCodec

    /** After every step both collections are written back under their keys. */
    ghost predicate Persisted()
      reads this
    {
      NotesKey in storage && storage[NotesKey] == codec.stringifyNotes(notes) &&
      FoldersKey in storage && storage[FoldersKey] == codec.stringifyFolders(folders)
    }

    /**
     * Mounting: both collections start empty, the load effect fills each one
     * independently when its key holds text that parses, and the persist
     * effects then write both back (so unreadable text is replaced by the
     * serialisation of the empty collection).
     */
    constructor Mount(saved: map<string, string>, codec: StoreCodec)
      ensures this.codec == codec
      ensures notes == LoadNotes(saved, codec) && folders == LoadFolders(saved, codec)
      ensures storage == saved[NotesKey := codec.stringifyNotes(notes)][FoldersKey := codec.stringifyFolders(folders)]
      ensures Persisted()
    {
      this.codec := codec;
      notes := [];
      folders := [];
      storage := saved;
      new;
      var savedNotes := Lookup(saved, NotesKey);
      var savedFolders := Lookup(saved, FoldersKey);
      if savedNotes != "" {
        var parsed := codec.parseNotes(savedNotes);
        if parsed.Some? {
          notes := Map(parsed.value, (s: StoredNote) => HydrateNote(s, codec.parseDate));
        }
      }
      if savedFolders != "" {
        var parsed := codec.parseFolders(savedFolders);
        if parsed.Some? {
          folders := Map(parsed.value, (s: StoredFolder) => HydrateFolder(s, codec.parseDate));
        }
      }
      storage := storage[NotesKey := codec.stringifyNotes(notes)];
      storage := storage[FoldersKey := codec.stringifyFolders(folders)];
    }

    /** `createNote(type, folderId)`: prepend the new note, persist the notes and return it. */
    method CreateNote(t: NoteType, folderId: Option<string>, id: string, created: int, updated: int)
      returns (n: Note)
      requires Persisted()
      modifies this
      ensures Persisted()
      ensures n.id == id && n.noteType == t && n.folderId == folderId
      ensures n.title == (if t == Text then "New Note" else "New Canvas")
      ensures n.content == (if t == Text then "" else "[]")
      ensures n.createdAt == At(created) && n.updatedAt == At(updated)
      ensures notes == [n] + old(notes) && folders == old(folders)
      ensures storage == old(storage)[NotesKey := codec.stringifyNotes(notes)]
    {
      n := NewNote(t, folderId, id, created, updated);
      notes := [n] + notes;
      storage := storage[NotesKey := codec.stringifyNotes(notes)];
    }

    /** `updateNote(u)`: replace by id with `updatedAt` from the clock, then persist the notes. */
    method UpdateNote(u: Note, now: int)
      requires Persisted()
      modifies this
      ensures Persisted()
      ensures notes == ReplaceById(old(notes), u, now) && folders == old(folders)
      ensures storage == old(storage)[NotesKey := codec.stringifyNotes(notes)]
    {
      notes := ReplaceById(notes, u, now);
      storage := storage[NotesKey := codec.stringifyNotes(notes)];
    }

    /** `deleteNote(id)`: keep the notes with another id, then persist the notes. */
    method DeleteNote(id: string)
      requires Persisted()
      modifies this
      ensures Persisted()
      ensures notes == RemoveById(old(notes), id) && folders == old(folders)
      ensures storage == old(storage)[NotesKey := codec.stringifyNotes(notes)]
    {
      notes := RemoveById(notes, id);
      storage := storage[NotesKey := codec.stringifyNotes(notes)];
    }

    /** `createFolder(name, color)`: prepend the new folder, persist the folders and return it. */
    method CreateFolder(name: string, color: Option<string>, id: string, created: int)
      returns (f: Folder)
      requires Persisted()
      modifies this
      ensures Persisted()
      ensures f == Folder(id, name, color, At(created))
      ensures folders == [f] + old(folders) && notes == old(notes)
      ensures storage == old(storage)[FoldersKey := codec.stringifyFolders(folders)]
    {
      f := NewFolder(name, color, id, created);
      folders := [f] + folders;
      storage := storage[FoldersKey := codec.stringifyFolders(folders)];
    }
  }
}
