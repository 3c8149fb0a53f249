/**
 * The sidebar: the search filter, the grouping of the filtered notes into
 * "uncategorised" and one group per folder, the set of expanded folders and
 * the new-folder input.
 *
 * `toLowerCase` is the parameter `lower`: its Unicode case mapping is not
 * modelled, only that the search compares the lower-cased texts.
 */
module Sidebar {
  import opened Wrappers
  import opened NoteTypes
  import opened JsArray
  import opened JsString
  import opened UseNotes

  // ----- search -----

  /** A note matches when its lower-cased title or content includes the lower-cased term. */
  predicate MatchesSearch(n: Note, term: string, lower: string -> string) {
    Includes(lower(n.title), lower(term)) || Includes(lower(n.content), lower(term))
  }

  /** The notes the sidebar lists: the matching ones, in collection order. */
  function FilteredNotes(notes: seq<Note>, term: string, lower: string -> string): seq<Note> {
    Filter(notes, (n: Note) => MatchesSearch(n, term, lower))
  }

  /** The filter keeps exactly the matching notes and keeps their relative order. */
  lemma SearchKeepsExactlyMatches(a: seq<Note>, b: seq<Note>, term: string, lower: string -> string)
    ensures forall n :: n in FilteredNotes(a, term, lower) <==> n in a && MatchesSearch(n, term, lower)
    ensures FilteredNotes(a + b, term, lower) == FilteredNotes(a, term, lower) + FilteredNotes(b, term, lower)
  {
    forall n | n in a && MatchesSearch(n, term, lower) ensures n in FilteredNotes(a, term, lower) {
      var i :| 0 <= i < |a| && a[i] == n;
    }
    FilterConcat(a, b, (n: Note) => MatchesSearch(n, term, lower));
  }

  /** An empty search term keeps every note (lower-casing maps the empty string to itself). */
  lemma EmptySearchKeepsAll(notes: seq<Note>, lower: string -> string)
    requires lower("") == ""
    ensures FilteredNotes(notes, "", lower) == notes
  {
    forall i | 0 <= i < |notes| ensures MatchesSearch(notes[i], "", lower) {
      IncludesEmpty(lower(notes[i].title));
    }
    FilterKeepsAll(notes, (n: Note) => MatchesSearch(n, "", lower));
  }

  // ----- grouping -----

  /** The filtered notes whose `folderId` equals `folderId` exactly; `None` gives the uncategorised ones. */
  function NotesInFolder(filtered: seq<Note>, folderId: Option<string>): seq<Note> {
    Filter(filtered, (n: Note) => n.folderId == folderId)
  }

  function FolderIds(folders: seq<Folder>): set<string> {
    set f | f in folders :: f.id
  }

  predicate DistinctFolderIds(folders: seq<Folder>) {
    forall i, j :: 0 <= i < j < |folders| ==> folders[i].id != folders[j].id
  }

  /** What a folder row shows: its count always, its notes only when expanded. */
  datatype FolderGroup = FolderGroup(folder: Folder, count: nat, expanded: bool, shown: seq<Note>)

  /** The folder row for `f`. */
  function GroupOf(filtered: seq<Note>, f: Folder, expandedFolders: set<string>): FolderGroup {
    var inFolder := NotesInFolder(filtered, Some(f.id));
    FolderGroup(f, |inFolder|, f.id in expandedFolders, if f.id in expandedFolders then inFolder else [])
  }

  /** The list: the uncategorised notes, then one row per folder in folder order. */
  datatype SidebarView = SidebarView(uncategorized: seq<Note>, groups: seq<FolderGroup>)

  function View(notes: seq<Note>, folders: seq<Folder>, term: string, lower: string -> string,
                expandedFolders: set<string>): SidebarView
  {
    var filtered := FilteredNotes(notes, term, lower);
    SidebarView(NotesInFolder(filtered, None), Map(folders, (f: Folder) => GroupOf(filtered, f, expandedFolders)))
  }

  /** A filtered note is in the group of `folderId` exactly when its own `folderId` is that value. */
  lemma NotesInFolderExactly(filtered: seq<Note>, folderId: Option<string>)
    ensures forall n :: n in NotesInFolder(filtered, folderId) <==> n in filtered && n.folderId == folderId
  {
    forall n | n in filtered && n.folderId == folderId ensures n in NotesInFolder(filtered, folderId) {
      var i :| 0 <= i < |filtered| && filtered[i] == n;
    }
  }

  /**
   * Each note of the view appears in one place at most: an uncategorised
   * note is in no folder group and, with distinct folder ids, no note is in
   * two folder groups.
   */
  lemma AtMostOneGroup(notes: seq<Note>, folders: seq<Folder>, term: string, lower: string -> string,
                       expandedFolders: set<string>, n: Note)
    requires DistinctFolderIds(folders)
    ensures var v := View(notes, folders, term, lower, expandedFolders);
      |v.groups| == |folders| &&
      (n in v.uncategorized ==> forall i :: 0 <= i < |v.groups| ==> n !in v.groups[i].shown) &&
      (forall i, j :: 0 <= i < j < |v.groups| ==> !(n in v.groups[i].shown && n in v.groups[j].shown))
  {
    var v := View(notes, folders, term, lower, expandedFolders);
    var filtered := FilteredNotes(notes, term, lower);
    forall i | 0 <= i < |v.groups| ensures n in v.groups[i].shown ==> n.folderId == Some(folders[i].id) {
      NotesInFolderExactly(filtered, Some(folders[i].id));
    }
  }

  /**
   * A filtered note appears in the uncategorised list exactly when it has no
   * folder, and in a folder's group exactly when that folder is expanded and
   * the note's `folderId` is that folder's id.
   */
  lemma WhereANoteAppears(notes: seq<Note>, folders: seq<Folder>, term: string, lower: string -> string,
                          expandedFolders: set<string>, n: Note)
    ensures var v := View(notes, folders, term, lower, expandedFolders);
      var filtered := FilteredNotes(notes, term, lower);
      (n in v.uncategorized <==> n in filtered && n.folderId.None?) &&
      (forall i :: 0 <= i < |folders| ==>
         (n in v.groups[i].shown <==> n in filtered && folders[i].id in expandedFolders && n.folderId == Some(folders[i].id)))
  {
    var filtered := FilteredNotes(notes, term, lower);
    NotesInFolderExactly(filtered, None);
    forall i | 0 <= i < |folders| {
      NotesInFolderExactly(filtered, Some(folders[i].id));
    }
  }

  /** A note whose `folderId` names no existing folder is shown nowhere, not even as uncategorised. */
  lemma OrphanShownNowhere(notes: seq<Note>, folders: seq<Folder>, term: string, lower: string -> string,
                           expandedFolders: set<string>, n: Note)
    requires n.folderId.Some? && n.folderId.value !in FolderIds(folders)
    ensures var v := View(notes, folders, term, lower, expandedFolders);
      n !in v.uncategorized && forall i :: 0 <= i < |v.groups| ==> n !in v.groups[i].shown
  {
    WhereANoteAppears(notes, folders, term, lower, expandedFolders, n);
    forall i | 0 <= i < |folders| ensures n.folderId != Some(folders[i].id) {
      assert folders[i] in folders;
    }
  }

  // ----- counts -----

  /**
   * A folder row's count does not depend on which folders are expanded; an
   * expanded row shows exactly `count` notes and a collapsed one shows none.
   */
  lemma RowCountsAreExpansionFree(notes: seq<Note>, folders: seq<Folder>, term: string, lower: string -> string,
                                  e1: set<string>, e2: set<string>)
    ensures var v1, v2 := View(notes, folders, term, lower, e1), View(notes, folders, term, lower, e2);
      |v1.groups| == |v2.groups| == |folders| &&
      forall i :: 0 <= i < |folders| ==>
        v1.groups[i].folder == folders[i] && v1.groups[i].count == v2.groups[i].count &&
        (v1.groups[i].expanded <==> folders[i].id in e1) &&
        (v1.groups[i].expanded ==> |v1.groups[i].shown| == v1.groups[i].count) &&
        (!v1.groups[i].expanded ==> v1.groups[i].shown == [])
  {
  }

  /** The number of filtered notes that fall in some folder's group, summed over the folder rows. */
  function SumCounts(groups: seq<FolderGroup>): nat {
    if groups == [] then 0 else groups[0].count + SumCounts(groups[1..])
  }

  /** The filtered notes whose `folderId` names no existing folder. */
  function Orphans(filtered: seq<Note>, folders: seq<Folder>): seq<Note> {
    Filter(filtered, (n: Note) => n.folderId.Some? && n.folderId.value !in FolderIds(folders))
  }

  /** How many of `folders` have the id `x` (1 or 0 when the ids are distinct). */
  function Matching(folders: seq<Folder>, x: Option<string>): nat {
    if folders == [] then 0 else (if x == Some(folders[0].id) then 1 else 0) + Matching(folders[1..], x)
  }

  lemma {:induction false} MatchingDistinct(folders: seq<Folder>, x: Option<string>)
    requires DistinctFolderIds(folders)
    ensures Matching(folders, x) == if x.Some? && x.value in FolderIds(folders) then 1 else 0
  {
    if folders != [] {
      var t := folders[1..];
      assert DistinctFolderIds(t);
      MatchingDistinct(t, x);
      assert FolderIds(folders) == {folders[0].id} + FolderIds(t) by {
        assert folders == [folders[0]] + t;
      }
      if x == Some(folders[0].id) {
        forall f | f in t ensures f.id != folders[0].id {
          var j :| 0 <= j < |t| && t[j] == f;
          assert folders[j + 1] == f;
        }
      }
    }
  }

  /** Counting over a note list prepended with one more note. */
  lemma {:induction false} SumCountsCons(h: Note, t: seq<Note>, folders: seq<Folder>, expandedFolders: set<string>)
    ensures SumCounts(Map(folders, (f: Folder) => GroupOf([h] + t, f, expandedFolders)))
         == Matching(folders, h.folderId) + SumCounts(Map(folders, (f: Folder) => GroupOf(t, f, expandedFolders)))
  {
    if folders != [] {
      var ft := folders[1..];
      var f := folders[0];
      assert ([h] + t)[1..] == t;
      SumCountsCons(h, t, ft, expandedFolders);
      assert Map(folders, (g: Folder) => GroupOf([h] + t, g, expandedFolders))[1..]
          == Map(ft, (g: Folder) => GroupOf([h] + t, g, expandedFolders));
      assert Map(folders, (g: Folder) => GroupOf(t, g, expandedFolders))[1..]
          == Map(ft, (g: Folder) => GroupOf(t, g, expandedFolders));
    }
  }

  /**
   * The rows partition the filtered notes: uncategorised notes, the folder
   * counts and the orphans add up to the number of filtered notes, so with
   * distinct folder ids every filtered note is counted exactly once or is an
   * orphan.
   */
  lemma {:induction false} CountsPartitionFiltered(filtered: seq<Note>, folders: seq<Folder>, expandedFolders: set<string>)
    requires DistinctFolderIds(folders)
    ensures |NotesInFolder(filtered, None)|
          + SumCounts(Map(folders, (f: Folder) => GroupOf(filtered, f, expandedFolders)))
          + |Orphans(filtered, folders)| == |filtered|
  {
    if filtered == [] {
      EmptyCounts(folders, expandedFolders);
    } else {
      var h, t := filtered[0], filtered[1..];
      assert filtered == [h] + t;
      CountsPartitionFiltered(t, folders, expandedFolders);
      SumCountsCons(h, t, folders, expandedFolders);
      MatchingDistinct(folders, h.folderId);
    }
  }

  /** With no notes every folder's count is zero. */
  lemma {:induction false} EmptyCounts(folders: seq<Folder>, expandedFolders: set<string>)
    ensures SumCounts(Map(folders, (f: Folder) => GroupOf([], f, expandedFolders))) == 0
  {
    if folders != [] {
      EmptyCounts(folders[1..], expandedFolders);
      assert Map(folders, (g: Folder) => GroupOf([], g, expandedFolders))[1..]
          == Map(folders[1..], (g: Folder) => GroupOf([], g, expandedFolders));
    }
  }

  // ----- expanded folders -----

  /** Toggling `id`: delete it when present, add it when absent. */
  function Toggled(expanded: set<string>, id: string): set<string> {
    if id in expanded then expanded - {id} else expanded + {id}
  }

  /** A toggle flips the membership of `id` and of no other folder id, and toggling twice restores the set. */
  lemma ToggleFlipsOnlyId(expanded: set<string>, id: string)
    ensures id in Toggled(expanded, id) <==> id !in expanded
    ensures forall x :: x != id ==> (x in Toggled(expanded, id) <==> x in expanded)
    ensures Toggled(Toggled(expanded, id), id) == expanded
  {
  }

  /** The sidebar's local state. */
  class SidebarState {
    var searchTerm: string
    var showNewFolderInput: bool
    var newFolderName: string
    var expandedFolders: set<string>

    constructor ()
      ensures searchTerm == "" && !showNewFolderInput && newFolderName == "" && expandedFolders == {}
    {
      searchTerm := "";
      showNewFolderInput := false;
      newFolderName := "";
      expandedFolders := {};
    }

    /** Typing in the search box. */
    method SetSearchTerm(term: string)
      modifies this`searchTerm
      ensures searchTerm == term
    {
      searchTerm := term;
    }

    /** Typing in the new-folder box. */
    method SetNewFolderName(name: string)
      modifies this`newFolderName
      ensures newFolderName == name
    {
      newFolderName := name;
    }

    /** The "New Folder" button opens the input. */
    method OpenNewFolderInput()
      modifies this`showNewFolderInput
      ensures showNewFolderInput
    {
      showNewFolderInput := true;
    }

    /** The cancel button hides the input and clears it. */
    method CancelNewFolder()
      modifies this`showNewFolderInput, this`newFolderName
      ensures !showNewFolderInput && newFolderName == ""
    {
      showNewFolderInput := false;
      newFolderName := "";
    }

    /** Clicking a folder row: copy the set, then delete or add the folder's id. */
    method ToggleFolder(id: string)
      modifies this`expandedFolders
      ensures expandedFolders == Toggled(old(expandedFolders), id)
      ensures (id in expandedFolders) == (id !in old(expandedFolders))
    {
      var newExpanded := expandedFolders;
      if id in newExpanded {
        newExpanded := newExpanded - {id};
      } else {
        newExpanded := newExpanded + {id};
      }
      expandedFolders := newExpanded;
    }

    /**
     * Confirming a new folder: only a name that is not blank after trimming
     * creates a folder (under the trimmed name, without a colour), and only
     * then is the input cleared and hidden; otherwise nothing changes.
     */
    method HandleCreateFolder(repo: Repository, id: string, created: int) returns (folder: Option<Folder>)
      requires repo.Persisted()
      modifies this, repo
      ensures repo.Persisted()
      ensures var name := Trim(old(newFolderName));
        if name != "" then
          folder == Some(Folder(id, name, None, At(created))) &&
          repo.folders == [folder.value] + old(repo.folders) && repo.notes == old(repo.notes) &&
          repo.storage == old(repo.storage)[FoldersKey := repo.codec.stringifyFolders(repo.folders)] &&
          newFolderName == "" && !showNewFolderInput &&
          searchTerm == old(searchTerm) && expandedFolders == old(expandedFolders)
        else
          folder == None && unchanged(this) && unchanged(repo)
    {
      var name := Trim(newFolderName);
      if name != "" {
        var f := repo.CreateFolder(name, None, id, created);
        folder := Some(f);
        newFolderName := "";
        showNewFolderInput := false;
      } else {
        folder := None;
      }
    }
  }
}
