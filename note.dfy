/**
 * The entity model: `NoteType`, `Note` and `Folder`.
 *
 * A `Date` is either a point in time (milliseconds since the epoch) or
 * JavaScript's "Invalid Date", which is what `new Date(text)` yields for text
 * it cannot read.
 */
module NoteTypes {
  import opened Wrappers

  datatype Date = At(millis: int) | InvalidDate

  /** A note is either rich text or a freeform canvas drawing: nothing else. */
  datatype NoteType = Text | Canvas

  /**
   * The string literal of each variant in the source's union type
   * `'text' | 'canvas'`. This and `ParseNoteType` only pin down that union:
   * no code path reads a `type` field through them, since the load copies
   * stored fields without checking them.
   */
  function NoteTypeName(t: NoteType): string {
    match t
    case Text => "text"
    case Canvas => "canvas"
  }

  /** Reading a `type` field: exactly the two literals are note types. */
  function ParseNoteType(s: string): (r: Option<NoteType>)
    ensures r.Some? <==> s == "text" || s == "canvas"
    ensures r.Some? ==> NoteTypeName(r.value) == s
  {
    if s == "text" then Some(Text)
    else if s == "canvas" then Some(Canvas)
    else None
  }

  /** The two literals are distinct and each reads back as its own variant. */
  lemma NoteTypeRoundTrip(t: NoteType)
    ensures ParseNoteType(NoteTypeName(t)) == Some(t)
    ensures NoteTypeName(t) != NoteTypeName(if t == Text then Canvas else Text)
  {
  }

  /**
   * A note. `content` is one string whatever the type (markup for text, a
   * serialised scene for canvas); `folderId` may be absent (uncategorised) and
   * is not checked against the existing folders.
   */
  datatype Note = Note(
    id: string,
    title: string,
    content: string,
    noteType: NoteType,
    folderId: Option<string>,
    createdAt: Date,
    updatedAt: Date)

  /** A folder: a label notes refer to by id. It has a creation time but no update time. */
  datatype Folder = Folder(
    id: string,
    name: string,
    color: Option<string>,
    createdAt: Date)
}
