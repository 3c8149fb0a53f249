/**
 * The rich-text editor: local title, content and unsaved-changes flag, reset
 * whenever the edited note changes; save builds the replacement note; the
 * Ctrl/Meta shortcuts; the two export file names and the HTML export text.
 *
 * The editable surface is outside the model: the markup it holds after an
 * edit or a formatting command is an input of the handler that reads it.
 */
module NoteEditor {
  import opened Wrappers
  import opened NoteTypes
  import opened JsString
  import opened UseNotes

  /** The formatting commands the shortcuts issue to the editing surface. */
  datatype FormatCommand = Bold | Italic | Underline

  /** What a key press does. */
  datatype KeyAction = Ignore | SaveNote | Format(command: FormatCommand)

  /** The shortcut dispatch: with Ctrl or Meta held, `s` saves and `b`/`i`/`u` format; all else is ignored. */
  function KeyActionFor(ctrlKey: bool, metaKey: bool, key: string): KeyAction {
    if !(ctrlKey || metaKey) then Ignore
    else if key == "s" then SaveNote
    else if key == "b" then Format(Bold)
    else if key == "i" then Format(Italic)
    else if key == "u" then Format(Underline)
    else Ignore
  }

  /** A key press acts exactly when a modifier is held and the key is one of the four shortcuts. */
  lemma KeyDispatch(ctrlKey: bool, metaKey: bool, key: string)
    ensures KeyActionFor(ctrlKey, metaKey, key) != Ignore <==>
      (ctrlKey || metaKey) && (key == "s" || key == "b" || key == "i" || key == "u")
    ensures KeyActionFor(ctrlKey, metaKey, key) == SaveNote <==> (ctrlKey || metaKey) && key == "s"
    ensures KeyActionFor(ctrlKey, metaKey, key).Format? ==>
      (KeyActionFor(ctrlKey, metaKey, key).command == Bold <==> key == "b") &&
      (KeyActionFor(ctrlKey, metaKey, key).command == Italic <==> key == "i") &&
      (KeyActionFor(ctrlKey, metaKey, key).command == Underline <==> key == "u")
  {
  }

  /** The replacement note a save emits: the edited note with the local title and content. */
  function SavedNote(note: Note, title: string, content: string): Note {
    note.(title := OrElse(title, "Untitled Note"), content := content)
  }

  /**
   * A save keeps the note's identity, type, folder and both dates, carries
   * the local content, and carries the local title unless it is empty, in
   * which case it carries "Untitled Note": a saved title is never empty.
   */
  lemma SavedNoteKeepsIdentity(note: Note, title: string, content: string)
    ensures var r := SavedNote(note, title, content);
      r.id == note.id && r.noteType == note.noteType && r.folderId == note.folderId &&
      r.createdAt == note.createdAt && r.updatedAt == note.updatedAt &&
      r.content == content && r.title != "" &&
      (title != "" ==> r.title == title) && (title == "" ==> r.title == "Untitled Note")
  {
  }

  /**
   * Saving into the repository: the stored copy of the edited note carries
   * the saved title and content, keeps every other field but `updatedAt`,
   * and the other notes are untouched.
   */
  lemma SaveReachesRepository(notes: seq<Note>, note: Note, title: string, content: string, now: int)
    requires note.id in Ids(notes)
    ensures var stored := ReplaceById(notes, SavedNote(note, title, content), now);
      |stored| == |notes| &&
      (exists i :: 0 <= i < |stored| && notes[i].id == note.id &&
        stored[i] == note.(title := OrElse(title, "Untitled Note"), content := content, updatedAt := At(now))) &&
      (forall i :: 0 <= i < |notes| && notes[i].id != note.id ==> stored[i] == notes[i])
  {
    var i :| 0 <= i < |notes| && notes[i].id == note.id;
    UpdateReplacesInPlace(notes, SavedNote(note, title, content), now);
  }

  /** The download name: the title, or "note" when the title is empty, with the extension. */
  function ExportFileName(title: string, extension: string): string {
    OrElse(title, "note") + extension
  }

  /** The `.txt` and `.html` names never have an empty base and keep a non-empty title as it is. */
  lemma ExportFileNames(title: string)
    ensures var txt, html := ExportFileName(title, ".txt"), ExportFileName(title, ".html");
      |txt| > 4 && txt[|txt| - 4..] == ".txt" && |html| > 5 && html[|html| - 5..] == ".html" &&
      (title != "" ==> txt == title + ".txt" && html == title + ".html") &&
      (title == "" ==> txt == "note.txt" && html == "note.html")
  {
  }

  const HtmlHead := "\n<!DOCTYPE html>\n<html>\n<head>\n    "
  const HtmlStyle := "\n    <style>\n        body { font-family: Arial, sans-serif; max-width: 800px; margin: 0 auto; padding: 20px; }\n        h1 { color: #333; }\n    </style>\n</head>\n<body>\n    "
  const HtmlIndent := "\n    "
  const HtmlTail := "\n</body>\n</html>"

  /** The HTML export: the title (not its fallback) in the document title and the heading, the markup after it. */
  function ExportHtml(title: string, content: string): string {
    HtmlHead + ("<title>" + title + "</title>") + HtmlStyle + ("<h1>" + title + "</h1>") + HtmlIndent + content + HtmlTail
  }

  /** Each middle piece of a seven-piece concatenation occurs in it, and the first piece begins it. */
  lemma PiecesOccur(head: string, t: string, style: string, h: string, indent: string, content: string, tail: string)
    ensures var doc := head + t + style + h + indent + content + tail;
      Includes(doc, t) && Includes(doc, h) && Includes(doc, content) && StartsWith(doc, head)
  {
    var doc := head + t + style + h + indent + content + tail;
    assert doc == head + t + (style + h + indent + content + tail);
    IncludesInside(head, t, style + h + indent + content + tail);
    assert doc == (head + t + style) + h + (indent + content + tail);
    IncludesInside(head + t + style, h, indent + content + tail);
    assert doc == (head + t + style + h + indent) + content + tail;
    IncludesInside(head + t + style + h + indent, content, tail);
    assert doc[..|head|] == head;
  }

  /**
   * The export places the title in both `<title>` and `<h1>`, inserts the
   * markup verbatim with no escaping, and begins with the doctype line.
   */
  lemma ExportHtmlPlacesTitleAndContent(title: string, content: string)
    ensures Includes(ExportHtml(title, content), "<title>" + title + "</title>")
    ensures Includes(ExportHtml(title, content), "<h1>" + title + "</h1>")
    ensures Includes(ExportHtml(title, content), content)
    ensures StartsWith(ExportHtml(title, content), "\n<!DOCTYPE html>")
  {
    PiecesOccur(HtmlHead, "<title>" + title + "</title>", HtmlStyle, "<h1>" + title + "</h1>", HtmlIndent, content, HtmlTail);
    var doc := ExportHtml(title, content);
    assert doc[..|HtmlHead|] == HtmlHead;
    assert doc[..16] == HtmlHead[..16];
  }

  /** The editor's local state for one note. */
  class Editor {
    var note: Note
    var title: string
    var content: string
    var hasUnsavedChanges: bool

    /** The initial state: the note's own title and content, nothing unsaved. */
    constructor (note: Note)
      ensures this.note == note && title == note.title && content == note.content && !hasUnsavedChanges
    {
      this.note := note;
      title := note.title;
      content := note.content;
      hasUnsavedChanges := false;
    }

    /** The reset effect, run whenever the edited note changes. */
    method NoteChanged(n: Note)
      modifies this
      ensures note == n && title == n.title && content == n.content && !hasUnsavedChanges
    {
      note := n;
      title := n.title;
      content := n.content;
      hasUnsavedChanges := false;
    }

    /** A title edit. */
    method TitleChanged(newTitle: string)
      modifies this`title, this`hasUnsavedChanges
      ensures title == newTitle && hasUnsavedChanges
    {
      title := newTitle;
      hasUnsavedChanges := true;
    }

    /** A content edit: the surface's markup after the edit is stored. */
    method ContentChanged(markup: string)
      modifies this`content, this`hasUnsavedChanges
      ensures content == markup && hasUnsavedChanges
    {
      content := markup;
      hasUnsavedChanges := true;
    }

    /** Save: emit the replacement note for the update handler and clear the flag. */
    method Save() returns (updated: Note)
      modifies this`hasUnsavedChanges
      ensures updated == SavedNote(note, title, content)
      ensures updated.id == note.id && updated.title != "" && !hasUnsavedChanges
    {
      updated := SavedNote(note, title, content);
      hasUnsavedChanges := false;
    }

    /**
     * A key press: a save shortcut saves and emits the note; a formatting
     * shortcut issues the command, after which the surface's markup
     * (`markupAfterCommand`) is read back as a content edit; other keys do
     * nothing.
     */
    method KeyDown(ctrlKey: bool, metaKey: bool, key: string, markupAfterCommand: string)
      returns (updated: Option<Note>, command: Option<FormatCommand>)
      modifies this`content, this`hasUnsavedChanges
      ensures match KeyActionFor(ctrlKey, metaKey, key)
        case Ignore =>
          updated == None && command == None &&
          content == old(content) && hasUnsavedChanges == old(hasUnsavedChanges)
        case SaveNote =>
          updated == Some(SavedNote(note, title, old(content))) && command == None &&
          content == old(content) && !hasUnsavedChanges
        case Format(c) =>
          updated == None && command == Some(c) && content == markupAfterCommand && hasUnsavedChanges
    {
      match KeyActionFor(ctrlKey, metaKey, key)
      case Ignore =>
        updated, command := None, None;
      case SaveNote =>
        var n := Save();
        updated, command := Some(n), None;
      case Format(c) =>
        command := Some(c);
        updated := None;
        ContentChanged(markupAfterCommand);
    }
  }

  /**
   * Saving and then receiving the saved note back (the update handler
   * selects it, which resets the editor) shows the same content, the saved
   * title, and nothing unsaved.
   */
  method SaveThenReload(e: Editor) returns (updated: Note)
    modifies e
    ensures updated == SavedNote(old(e.note), old(e.title), old(e.content))
    ensures e.note == updated && e.content == old(e.content) && !e.hasUnsavedChanges
    ensures e.title == OrElse(old(e.title), "Untitled Note")
  {
    updated := e.Save();
    e.NoteChanged(updated);
  }
}
