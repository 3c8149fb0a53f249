# Pallisery notes — a Dafny model

Pallisery is a browser note-taking app. A note is either rich text or a
freeform canvas drawing, and it may belong to a folder. This project models
the app's core:

- The entity types (`NoteTypes`).
- The repository hook (`UseNotes`). It loads the notes and folders from
  browser storage on mount, writes each collection back whenever it changes,
  and implements create, update, delete and create-folder.
- The selection controller (`AppContent`). It keeps the one selected note,
  auto-selects one, and repairs the selection after a delete.
- The sidebar (`Sidebar`). It covers search, grouping into uncategorised
  notes and folder rows, folder counts, expanded folders, and the new-folder
  input with its trimming rule.
- The text editor (`NoteEditor`). It covers local state, save, keyboard
  shortcuts and the two export formats.
- The canvas editor (`CanvasEditor`). It covers reading the saved scene back
  from a note's content, save, clear, the save shortcut, and the initial app
  state handed to the drawing surface.

Three support modules model the JavaScript built-ins the core relies on:

- `JsArray`: `filter`, `map` and `find`.
- `JsString`: `includes`, `trim` (with the exact ECMAScript white-space set)
  and the `||` fallback on strings.
- `Json`: JSON values, truthiness, property reads and object spread.

## Modelling choices

Components that keep state are classes whose fields are that state. Each
handler is a method with a `modifies` clause, and it is specified against
pure functions that the lemmas reason about.

Several outside inputs are parameters:

- Browser storage is a `map<string, string>` field of `UseNotes.Repository`.
- `JSON.parse` and `JSON.stringify` are fields of the codec datatypes.
  `UseNotes.StoreCodec` reads and writes both collections, and also holds
  `new Date(text)` for loading dates. `Json.JsonCodec` reads and writes the
  canvas document.
- Clock readings, generated ids, `toLowerCase`, the user's answer to the
  confirm dialog, and the markup the editing surface holds after an edit are
  all plain parameters.

A `Date` is either a time in milliseconds or the JavaScript "Invalid Date".

JavaScript truthiness is modelled wherever the code tests it:

- A stored value that is empty is treated like a missing one.
- Empty canvas content keeps the current scene.
- An empty title falls back to a default.
- A falsy `elements` or `appState` property is ignored on load.

In three places the code behaves differently from what one might expect,
and the model follows the code:

- Auto-selection picks the first note whenever nothing is selected and the
  list is not empty. The effect runs again after every change to the list,
  a delete included, but after a delete it never selects anything: a delete
  clears a present selection only when it empties the list
  (`AppContent.DeleteNeverStrandsSelection`).
- After an update, the selection holds the note the editor passed in. It
  does not hold the stored copy, which carries the new `updatedAt`
  (`AppContent.UpdateSelectionVersusStored`).
- Nothing guarantees that `updatedAt` is at or after `createdAt`. Both come
  from separate clock readings, and the model takes them as two independent
  parameters.

## Model

| member | source | states |
|---|---|---|
| NoteTypes.ParseNoteType | src/types/note.ts:1 | exactly the literals "text" and "canvas" are note types, and each names its variant |
| NoteTypes.NoteTypeRoundTrip | src/types/note.ts:1 | each note type's literal reads back as that type, and the two literals differ |
| JsArray.Filter | src/hooks/use-notes.ts:88 | the result keeps exactly the elements satisfying the predicate, never more copies of an element than the input has, and is no longer than the input |
| JsArray.FilterKeepsNone | src/hooks/use-notes.ts:88 | a filter that no element satisfies returns the empty array |
| JsArray.FilterConcat | src/hooks/use-notes.ts:88 | filtering distributes over concatenation, so the kept elements stay in their original order |
| JsArray.Map | src/hooks/use-notes.ts:79-83 | the result has the input's length, and element i is the function applied to input element i |
| JsArray.Find | src/app/app-content.tsx:38 | the result is none exactly when no element satisfies the predicate; otherwise it is the earliest element that does |
| JsString.Includes | src/components/sidebar.tsx:57-58 | `includes`: the text starts here or is included in the rest, so it occurs as a contiguous block (see `IncludesIff`) |
| JsString.Trim | src/components/sidebar.tsx:72-73 | `trim`: the name with leading and trailing ECMAScript white space and line terminators removed |
| JsString.OrElse | src/components/note-editor.tsx:52 | the string `||` fallback: the string itself unless it is empty, then the fallback |
| JsString.IncludesIff | src/components/sidebar.tsx:56-59 | `includes` holds exactly when the text occurs at some index as a contiguous block |
| JsString.TrimIsSlice | src/components/sidebar.tsx:72-73 | the trimmed name is a contiguous slice of the typed name, and everything cut before it is white space |
| JsString.TrimCutsOnlyWhiteSpace | src/components/sidebar.tsx:72-73 | every character that trimming removes, at either end, is ECMAScript white space or a line terminator |
| JsString.TrimEdges | src/components/sidebar.tsx:72-73 | a non-empty trimmed name neither starts nor ends with white space |
| JsString.TrimEmptyIff | src/components/sidebar.tsx:72 | a name trims to empty exactly when every character in it is white space |
| JsString.TrimIdempotent | src/components/sidebar.tsx:72-73 | trimming an already trimmed name changes nothing |
| UseNotes.HydrateNote | src/hooks/use-notes.ts:25-29 | a stored note with its seven fields copied and both date texts read as dates |
| UseNotes.HydrateFolder | src/hooks/use-notes.ts:38-41 | a stored folder with its fields copied and the creation date text read as a date |
| UseNotes.LoadNotes | src/hooks/use-notes.ts:19-33 | the notes the load installs: `[]` for missing, empty or unparseable text, otherwise every stored note hydrated in order |
| UseNotes.LoadFolders | src/hooks/use-notes.ts:20-45 | the folders the load installs: `[]` for missing, empty or unparseable text, otherwise every stored folder hydrated in order |
| UseNotes.DefaultTitle | src/hooks/use-notes.ts:65 | "New Note" for a text note, "New Canvas" for a canvas |
| UseNotes.DefaultContent | src/hooks/use-notes.ts:66 | the empty string for a text note, the serialised empty array "[]" for a canvas |
| UseNotes.NewNote | src/hooks/use-notes.ts:63-71 | the note create builds from a generated id, the type, the optional folder and two clock readings |
| UseNotes.Stamped | src/hooks/use-notes.ts:81 | the supplied note with `updatedAt` replaced by the clock reading |
| UseNotes.ReplaceById | src/hooks/use-notes.ts:78-84 | the list with every note of the supplied id replaced in place by the stamped copy |
| UseNotes.RemoveById | src/hooks/use-notes.ts:88 | the notes whose id differs from the deleted id, in order |
| UseNotes.NewFolder | src/hooks/use-notes.ts:92-97 | the folder create-folder builds from a generated id, the name, the optional colour and a clock reading |
| UseNotes.LoadFallsBackToEmpty | src/hooks/use-notes.ts:16-46 | a missing key, an empty stored value or a failed parse leaves that collection empty |
| UseNotes.LoadNotesKeepsFields | src/hooks/use-notes.ts:22-33 | a successful load keeps every stored note in order, with each of the seven typed fields kept and only the two dates rebuilt by the date reader |
| UseNotes.LoadFoldersKeepsFields | src/hooks/use-notes.ts:35-45 | a successful load keeps every stored folder in order, with each of the four typed fields kept and only `createdAt` rebuilt |
| UseNotes.LoadKeysIndependent | src/hooks/use-notes.ts:19-45 | the two storage keys are read independently: rewriting one cannot change the other collection |
| UseNotes.CreatePreservesUniqueIds | src/hooks/use-notes.ts:62-75 | prepending a note with a fresh id keeps all ids distinct |
| UseNotes.UpdateReplacesInPlace | src/hooks/use-notes.ts:77-85 | an update keeps the length and order; notes with another id are untouched, and the matching note becomes the supplied note with the clock's `updatedAt` |
| UseNotes.UpdateAbsentIsNoOp | src/hooks/use-notes.ts:77-85 | updating an id that is not present changes nothing, so update never inserts |
| UseNotes.UpdateKeepsIds | src/hooks/use-notes.ts:77-85 | an update keeps every position's id and the set of ids, and adds no note except the stamped copy |
| UseNotes.UpdatePreservesUniqueIds | src/hooks/use-notes.ts:77-85 | an update keeps the ids distinct |
| UseNotes.UpdateIdempotent | src/hooks/use-notes.ts:77-85 | repeating an update with the same note and clock reading is the same as doing it once |
| UseNotes.DeleteRemovesExactly | src/hooks/use-notes.ts:87-89 | a delete keeps exactly the notes with another id, and the deleted id no longer occurs |
| UseNotes.DeleteKeepsOrder | src/hooks/use-notes.ts:87-89 | a delete distributes over concatenation, so the survivors keep their order |
| UseNotes.DeleteAbsentIsNoOp | src/hooks/use-notes.ts:87-89 | deleting an absent id changes nothing |
| UseNotes.DeleteIdempotent | src/hooks/use-notes.ts:87-89 | deleting twice is the same as deleting once |
| UseNotes.DeleteRemovesAtMostOne | src/hooks/use-notes.ts:87-89 | with distinct ids, a delete shrinks the list by one if the id is present and by none otherwise |
| UseNotes.DeleteUndoesCreate | src/hooks/use-notes.ts:62-89 | deleting a freshly prepended note restores the previous list |
| UseNotes.DeletePreservesUniqueIds | src/hooks/use-notes.ts:87-89 | a delete keeps the ids distinct |
| UseNotes.Repository.Mount | src/hooks/use-notes.ts:11-60 | after mounting, the collections are what loading the stored keys yields, and storage is the old storage with both keys rewritten from the loaded collections |
| UseNotes.Repository.CreateNote | src/hooks/use-notes.ts:62-75 | returns a note with the given id, type, folder and dates, the title "New Note" or "New Canvas", and content "" or "[]"; prepends it, leaves the folders alone, and rewrites the notes key |
| UseNotes.Repository.UpdateNote | src/hooks/use-notes.ts:77-85 | replaces by id with the clock's `updatedAt`, leaves the folders alone, and rewrites the notes key |
| UseNotes.Repository.DeleteNote | src/hooks/use-notes.ts:87-89 | removes the notes with the given id, leaves the folders alone, and rewrites the notes key |
| UseNotes.Repository.CreateFolder | src/hooks/use-notes.ts:91-101 | returns the folder built from the id, name, colour and clock; prepends it, leaves the notes alone, and rewrites the folders key |
| AppContent.AutoSelection | src/app/app-content.tsx:15-19 | the selection after the effect: the first note when notes exist and nothing is selected, otherwise the selection unchanged |
| AppContent.FirstOther | src/app/app-content.tsx:38 | the earliest note of the list whose id differs from the deleted id, if any |
| AppContent.SelectionAfterDelete | src/app/app-content.tsx:37-38 | deleting the selected note gives the first other note when the old list had more than one note, and nothing otherwise; any other delete keeps the selection |
| AppContent.AutoSelectionSelects | src/app/app-content.tsx:15-19 | after the effect, a non-empty list always has a selection; an existing selection is kept; a present selection stays present |
| AppContent.DeleteOtherKeepsSelection | src/app/app-content.tsx:37 | deleting an unselected note leaves the selection unchanged |
| AppContent.DeleteSelectedPicksFirstOther | src/app/app-content.tsx:38 | deleting the selected note from a list of two or more selects the earliest note with another id, and none exactly when no note has another id |
| AppContent.DeleteSelectedLastClears | src/app/app-content.tsx:38 | deleting the selected note from a list of at most one note clears the selection |
| AppContent.DeleteSelectedHasReplacement | src/app/app-content.tsx:38 | with distinct ids, deleting the selected note from two or more notes always leaves a selection |
| AppContent.DeleteKeepsSelectionPresent | src/app/app-content.tsx:35-40 | a selection present in the list before the delete is present after it, whether kept or replaced |
| AppContent.DeleteReplacementIsPresent | src/app/app-content.tsx:38 | a replacement chosen for the deleted selected note has another id and is in the list after the delete, with no assumption on the old selection |
| AppContent.DeleteNeverStrandsSelection | src/app/app-content.tsx:35-40 | a delete clears a present selection only when the list after it is empty, so the auto-select effect then has nothing to pick |
| AppContent.DeleteScenarioTwoNotes | src/app/app-content.tsx:35-40 | with two notes, deleting the selected one selects the other, whichever of the two was selected |
| AppContent.UpdateSelectionVersusStored | src/app/app-content.tsx:30-33 | after an update, the stored copy differs from the selected note only in `updatedAt`, and the selection is present |
| AppContent.App.constructor | src/app/app-content.tsx:11-12 | mounting loads the repository from storage, and nothing is selected |
| AppContent.App.AutoSelect | src/app/app-content.tsx:15-19 | the selection becomes the first note when notes exist and nothing is selected, and the repository is unchanged |
| AppContent.App.HandleCreateNote | src/app/app-content.tsx:21-24 | the created note is prepended and becomes the selection, which is present in the list |
| AppContent.App.HandleSelectNote | src/app/app-content.tsx:26-28 | the requested note is selected, and the repository is unchanged |
| AppContent.App.HandleUpdateNote | src/app/app-content.tsx:30-33 | the repository applies the update, the caller's note is selected, and the set of ids is unchanged |
| AppContent.App.HandleDeleteNote | src/app/app-content.tsx:35-40 | the repository applies the delete; the new selection is computed from the pre-delete list, and a present selection stays present |
| Sidebar.MatchesSearch | src/components/sidebar.tsx:57-58 | whether the lower-cased title or the lower-cased content includes the lower-cased term |
| Sidebar.FilteredNotes | src/components/sidebar.tsx:56-59 | the matching notes in collection order |
| Sidebar.NotesInFolder | src/components/sidebar.tsx:86-88 | the filtered notes whose `folderId` equals the given folder id, or has none when none is given |
| Sidebar.GroupOf | src/components/sidebar.tsx:240-258 | a folder row: the folder, its count of filtered notes, whether it is expanded, and its notes when expanded |
| Sidebar.View | src/components/sidebar.tsx:234-258 | the list: the uncategorised filtered notes, then one row per folder in folder order |
| Sidebar.Orphans | src/components/sidebar.tsx:236-258 | the filtered notes whose `folderId` names no existing folder, which no part of the list shows |
| Sidebar.Toggled | src/components/sidebar.tsx:61-69 | the expanded set with the folder id removed if present, added otherwise |
| Sidebar.SearchKeepsExactlyMatches | src/components/sidebar.tsx:56-59 | the listed notes are exactly those whose lower-cased title or content includes the lower-cased term, in collection order |
| Sidebar.EmptySearchKeepsAll | src/components/sidebar.tsx:56-59 | an empty search term lists every note |
| Sidebar.NotesInFolderExactly | src/components/sidebar.tsx:86-88 | a folder's notes are exactly the filtered notes whose `folderId` equals that id; none gives the uncategorised ones |
| Sidebar.AtMostOneGroup | src/components/sidebar.tsx:234-258 | there is one row per folder; an uncategorised note is in no folder row, and with distinct folder ids no note is in two rows |
| Sidebar.WhereANoteAppears | src/components/sidebar.tsx:234-258 | a note is uncategorised exactly when it matches and has no folder, and is in a row exactly when it matches, that folder is expanded, and it names that folder |
| Sidebar.OrphanShownNowhere | src/components/sidebar.tsx:234-258 | a note whose folder id names no folder is shown nowhere |
| Sidebar.RowCountsAreExpansionFree | src/components/sidebar.tsx:240-258 | each row's count does not depend on which folders are expanded; an expanded row shows exactly that many notes, and a collapsed row shows none |
| Sidebar.CountsPartitionFiltered | src/components/sidebar.tsx:236-254 | with distinct folder ids, the uncategorised notes, the row counts and the orphans add up to the number of matching notes |
| Sidebar.ToggleFlipsOnlyId | src/components/sidebar.tsx:61-69 | a toggle flips the membership of that id only, and toggling twice restores the set |
| Sidebar.SidebarState.constructor | src/components/sidebar.tsx:45-48 | the sidebar starts with an empty search, a hidden and empty folder input, and no expanded folder |
| Sidebar.SidebarState.SetSearchTerm | src/components/sidebar.tsx:168 | typing sets the search term |
| Sidebar.SidebarState.SetNewFolderName | src/components/sidebar.tsx:202 | typing sets the folder name being entered |
| Sidebar.SidebarState.OpenNewFolderInput | src/components/sidebar.tsx:225 | the button shows the folder input |
| Sidebar.SidebarState.CancelNewFolder | src/components/sidebar.tsx:214-217 | cancel hides the input and clears the name |
| Sidebar.SidebarState.ToggleFolder | src/components/sidebar.tsx:61-69 | the expanded set becomes the toggled set, so the folder's membership flips |
| Sidebar.SidebarState.HandleCreateFolder | src/components/sidebar.tsx:71-78 | a name that is not blank once trimmed creates an uncoloured folder under the trimmed name, then clears and hides the input; a blank name changes nothing |
| NoteEditor.KeyActionFor | src/components/note-editor.tsx:60-81 | what a key press does: with Ctrl or Meta, s saves and b, i and u format; anything else is ignored |
| NoteEditor.SavedNote | src/components/note-editor.tsx:50-54 | the edited note with the local title (or "Untitled Note" when empty) and the local content |
| NoteEditor.ExportFileName | src/components/note-editor.tsx:95 | the title (or "note" when empty) followed by the extension |
| NoteEditor.ExportHtml | src/components/note-editor.tsx:103-117 | the HTML export document, with the raw title in `<title>` and `<h1>` and the markup after them |
| NoteEditor.KeyDispatch | src/components/note-editor.tsx:60-81 | a key acts exactly when Ctrl or Meta is held and the key is s, b, i or u; s saves, and b, i and u pick bold, italic and underline |
| NoteEditor.SavedNoteKeepsIdentity | src/components/note-editor.tsx:49-58 | a save keeps id, type, folder and both dates, carries the local content, and never leaves the title empty ("Untitled Note" stands in for an empty title) |
| NoteEditor.SaveReachesRepository | src/components/note-editor.tsx:49-58 | once stored, the saved note sits in place, with the local title and content and the clock's `updatedAt`; the other notes are untouched |
| NoteEditor.ExportFileNames | src/components/note-editor.tsx:95-122 | download names are the title plus ".txt" or ".html", with "note" standing in for an empty title |
| NoteEditor.ExportHtmlPlacesTitleAndContent | src/components/note-editor.tsx:102-117 | the HTML export starts with the doctype, holds the title inside both `<title>` and `<h1>`, and holds the markup verbatim |
| NoteEditor.Editor.constructor | src/components/note-editor.tsx:23-26 | the editor starts with the note's title and content and nothing unsaved |
| NoteEditor.Editor.NoteChanged | src/components/note-editor.tsx:30-34 | a new note resets the title, content and unsaved flag from that note |
| NoteEditor.Editor.TitleChanged | src/components/note-editor.tsx:36-39 | a title edit sets the title and marks unsaved changes |
| NoteEditor.Editor.ContentChanged | src/components/note-editor.tsx:41-47 | a content edit stores the surface's markup and marks unsaved changes |
| NoteEditor.Editor.Save | src/components/note-editor.tsx:49-58 | returns the saved note for the update handler, and clears the unsaved flag |
| NoteEditor.Editor.KeyDown | src/components/note-editor.tsx:60-87 | save shortcuts save; format shortcuts issue their command and store the resulting markup as an edit; other keys change nothing |
| NoteEditor.SaveThenReload | src/components/note-editor.tsx:49-58 | saving and receiving the saved note back keeps the content, shows the saved title, and leaves nothing unsaved |
| Json.Truthy | src/components/canvas-editor.tsx:35-38 | JavaScript truthiness of a parsed value: null, false, 0 and the empty string are falsy, arrays and objects truthy |
| Json.Property | src/components/canvas-editor.tsx:35-39 | reading a property of a parsed value: the field of an object, undefined for any other non-null value (the one caller handles null first, where the read would throw) |
| Json.Spread | src/components/canvas-editor.tsx:179 | the keys that spreading a value copies: an object's fields, none for any other value |
| CanvasEditor.SceneAfterLoad | src/components/canvas-editor.tsx:32-46 | the scene after the load effect: unchanged for empty content, reset for unreadable or null content, otherwise each part taken from the document when truthy |
| CanvasEditor.SceneDocument | src/components/canvas-editor.tsx:66-69 | the object `{elements, appState}` that save serialises |
| CanvasEditor.SavedCanvasNote | src/components/canvas-editor.tsx:71-75 | the edited note with the local title (or "Untitled Canvas" when empty) and the serialised scene as content |
| CanvasEditor.SaveShortcut | src/components/canvas-editor.tsx:99 | whether the key press is Ctrl or Meta with s |
| CanvasEditor.DefaultAppState | src/components/canvas-editor.tsx:161-178 | the sixteen app-state defaults of the drawing surface |
| CanvasEditor.InitialAppState | src/components/canvas-editor.tsx:160-180 | the defaults overridden by the spread of the editor's app state |
| CanvasEditor.EmptyContentKeepsScene | src/components/canvas-editor.tsx:33 | empty content leaves the scene unchanged |
| CanvasEditor.UnreadableContentResets | src/components/canvas-editor.tsx:32-46 | content that fails to parse, or parses to null, resets to no elements and an empty app state |
| CanvasEditor.LoadTakesOnlyTruthyParts | src/components/canvas-editor.tsx:34-40 | each part is taken from the document exactly when that property is present and truthy, and kept from before otherwise |
| CanvasEditor.LoadKeepsPresentable | src/components/canvas-editor.tsx:30-48 | loading never installs a falsy elements or app state |
| CanvasEditor.NewCanvasKeepsPreviousScene | src/components/canvas-editor.tsx:33-40 | a freshly created canvas ("[]") keeps the scene of the note shown before |
| CanvasEditor.SaveReloadRoundTrip | src/components/canvas-editor.tsx:65-80 | if the codec reads back its own output, loading saved content restores the saved scene exactly |
| CanvasEditor.SavedCanvasNoteKeepsIdentity | src/components/canvas-editor.tsx:71-75 | a save keeps id, type, folder and both dates, stores the serialised scene, and never leaves the title empty ("Untitled Canvas" stands in for an empty title) |
| CanvasEditor.SaveShortcutAgreesWithTextEditor | src/components/canvas-editor.tsx:98-103 | the canvas saves on exactly the key presses on which the text editor saves |
| CanvasEditor.InitialAppStateOverrides | src/components/canvas-editor.tsx:158-180 | the surface's app state is the defaults overridden key by key by the editor's app state, with no other keys |
| CanvasEditor.EmptyAppStateGivesDefaults | src/components/canvas-editor.tsx:160-179 | with nothing loaded, the surface starts light, on white, unscrolled and at zoom 1 |
| CanvasEditor.Editor.constructor | src/components/canvas-editor.tsx:23-48 | mounting starts from the empty scene and loads the note's content into it |
| CanvasEditor.Editor.NoteChanged | src/components/canvas-editor.tsx:30-48 | the load effect sets the title, applies the scene load to the held scene, and clears the unsaved flag |
| CanvasEditor.Editor.TitleChanged | src/components/canvas-editor.tsx:50-53 | a title edit sets the title and marks unsaved changes |
| CanvasEditor.Editor.HandleChange | src/components/canvas-editor.tsx:55-63 | a surface change installs a copy of its elements and its app state, and marks unsaved changes |
| CanvasEditor.Editor.Save | src/components/canvas-editor.tsx:65-80 | returns the saved canvas note for the update handler, and clears the unsaved flag |
| CanvasEditor.Editor.HandleClear | src/components/canvas-editor.tsx:82-88 | a confirmed clear empties the elements and marks unsaved changes; otherwise nothing changes; the app state is kept in either case |
| CanvasEditor.Editor.KeyDown | src/components/canvas-editor.tsx:98-103 | the save shortcut saves and returns the note; any other key changes nothing |
| CanvasEditor.SaveThenReload | src/components/canvas-editor.tsx:65-80 | if the codec reads back its own output, saving and receiving the saved note back keeps the scene, shows the saved title, and leaves nothing unsaved |

## Left out

- Browser storage access, `JSON.parse`/`JSON.stringify` and `new Date(text)` are not implemented. They are parameters: a map and function-valued codec fields.
- Which texts `new Date` rejects as an "Invalid Date" is not modelled.
- The server-rendering guard (`typeof window`) is not modelled. It only skips storage when there is no browser.
- React's batching and its development-mode double run of effects are not modelled. Each handler is one atomic step.
- `generateId` is not modelled: the clock in base 36 plus random digits. The id is a parameter, and its uniqueness is a precondition of the lemmas that need it, because the code does not guarantee it.
- The Unicode case mapping of `toLowerCase` is not modelled. It is the parameter `lower`.
- UseNotes.LoadNotes: assumes every stored entry is an object holding exactly the seven note fields, each of the right type. The code checks nothing and copies whatever each parsed entry holds. Extra keys would survive the load and be written back. Missing fields would load as undefined (a note without a title makes the search throw). An unknown `type` would load and be shown as a canvas. A `null` entry makes the read of `createdAt` throw, and the catch then discards the whole load, so the notes stay empty. A string or array entry would load as a note holding its index keys and two Invalid Dates. A number or boolean entry would load as a note holding only two Invalid Dates. None of these can be represented here; only storage written by other code can hold them.
- UseNotes.LoadFolders: assumes every stored entry is an object holding exactly the four folder fields, each of the right type. The code checks nothing, so the same cases arise as for notes: extra keys are kept, missing fields load as undefined, a `null` entry makes the read of `createdAt` throw and leaves the folders empty, a string or array entry brings its index keys and an Invalid Date, and a number or boolean entry loads as a folder holding only an Invalid Date. None of these can be represented here.
- UseNotes.ReplaceById: takes one clock reading per update. The code reads the clock once per matching note, so when two notes share the updated id they can get different `updatedAt` values. The model gives them the same one.
- Strings are sequences of code points, whereas JavaScript strings are UTF-16 code units. On well-formed text the two views agree for `includes` and `trim`. An occurrence of one well-formed string in another is the same whether counted in code points or in code units, and every white-space character is a single code unit. Lone surrogates are not represented.
- Sidebar.EmptySearchKeepsAll: assumes `lower("") == ""`, which holds for `toLowerCase` but is not derived here.
- Json.Spread, CanvasEditor.InitialAppState, CanvasEditor.InitialAppStateOverrides: spreading a string or an array app state copies its index keys (`"0"`, `"1"`, …) into the surface's app state; the model gives no keys for any value that is not an object, so for those values the merge yields the defaults alone. The editor's app state only comes from the surface or from a parsed `appState` property, so only content written by other code can be a string or an array there.
- CanvasEditor.SaveReloadRoundTrip: assumes `JSON.parse(JSON.stringify(doc))` yields `doc` again, and that the serialised text is non-empty. Both are properties of the JSON codec, not of this code.
- JSON numbers are modelled as exact reals, not floating point.
- Object key order in serialised JSON is not modelled.
- Rendering is not modelled:
  - the DOM and JSX markup
  - the sidebar open/close toggle and the theme toggle
  - the "Unsaved changes" badge
  - toast messages
  - `preventDefault` and focus
- The export download is not modelled: `Blob`, the object URL and the link click. Only the file names and the HTML text are modelled.
- The text export's file contents are not modelled. They are the surface's `textContent`, which has no counterpart in the model.
- `document.execCommand` is not modelled. The markup the surface holds afterwards is an input.
- The PNG and SVG export buttons only show a "future update" message and are not modelled.
- For the drawing surface, `initialData` is only modelled as the value computed from the editor state. The surface reads it only on mount, and that is not modelled.
- The application shell files (the root layout and page) are not part of this model.
