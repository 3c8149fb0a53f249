/**
 * The canvas editor: local title, scene (elements and app state) and
 * unsaved-changes flag; the load effect that reads a canvas note's content
 * back into the scene; save, which serialises the scene into the note;
 * clear; the save shortcut; and the app state handed to the drawing surface.
 *
 * The drawing surface itself is outside the model: the scene it reports on
 * each change is an input of the change handler.
 */
module CanvasEditor {
  import opened Wrappers
  import opened NoteTypes
  import opened JsString
  import opened Json
  import opened UseNotes
  import NoteEditor

  /** The editor's drawing state: the element list and the app state, as JSON values. */
  datatype Scene = Scene(elements: Json, appState: Json)

  /** The state the load effect falls back to when the content cannot be read: no elements, an empty app state. */
  const EmptyScene := Scene(JArray([]), JObject(map[]))

  /**
   * The load effect on a note's content, from the scene the editor held
   * before. Empty content leaves the scene alone. Content that fails to parse,
   * or parses to `null` (reading a property of it throws), resets the scene.
   * Otherwise each of `elements` and `appState` is taken from the document
   * when it is present and truthy, and kept from before when not.
   */
  function SceneAfterLoad(prev: Scene, content: string, parse: string -> Option<Json>): Scene {
    if content == "" then prev
    else
      match parse(content)
      case None => EmptyScene
      case Some(doc) =>
        if doc.JNull? then EmptyScene
        else
          Scene(
            if HasTruthy(doc, "elements") then Property(doc, "elements").value else prev.elements,
            if HasTruthy(doc, "appState") then Property(doc, "appState").value else prev.appState)
  }

  /** The object save serialises: `{elements, appState}`. */
  function SceneDocument(scene: Scene): Json {
    JObject(map["elements" := scene.elements, "appState" := scene.appState])
  }

  /** Both parts of the scene are truthy, as they are whenever the editor holds them. */
  predicate Presentable(scene: Scene) {
    Truthy(scene.elements) && Truthy(scene.appState)
  }

  /** Empty content (a falsy string) does not touch the scene. */
  lemma EmptyContentKeepsScene(prev: Scene, parse: string -> Option<Json>)
    ensures SceneAfterLoad(prev, "", parse) == prev
  {
  }

  /** Unreadable content, or content that reads as `null`, yields the empty scene whatever came before. */
  lemma UnreadableContentResets(prev: Scene, content: string, parse: string -> Option<Json>)
    requires content != ""
    requires parse(content).None? || parse(content) == Some(JNull)
    ensures SceneAfterLoad(prev, content, parse) == EmptyScene
  {
  }

  /**
   * Each part of the loaded scene is either the document's truthy property
   * or the part held before; it is the document's exactly when the content
   * parsed to a non-null value whose property of that name is truthy.
   */
  lemma LoadTakesOnlyTruthyParts(prev: Scene, content: string, parse: string -> Option<Json>)
    requires content != "" && parse(content).Some? && !parse(content).value.JNull?
    ensures var doc, r := parse(content).value, SceneAfterLoad(prev, content, parse);
      (HasTruthy(doc, "elements") <==> doc.JObject? && "elements" in doc.fields && r.elements == doc.fields["elements"] && Truthy(r.elements)) &&
      (!HasTruthy(doc, "elements") ==> r.elements == prev.elements) &&
      (HasTruthy(doc, "appState") <==> doc.JObject? && "appState" in doc.fields && r.appState == doc.fields["appState"] && Truthy(r.appState)) &&
      (!HasTruthy(doc, "appState") ==> r.appState == prev.appState)
  {
  }

  /** Loading never takes a falsy part: a presentable scene stays presentable. */
  lemma LoadKeepsPresentable(prev: Scene, content: string, parse: string -> Option<Json>)
    requires Presentable(prev)
    ensures Presentable(SceneAfterLoad(prev, content, parse))
  {
  }

  /**
   * A fresh canvas note has content `[]`, which parses to an array: an array
   * has neither property, so the editor keeps the scene of the note it showed
   * before.
   */
  lemma NewCanvasKeepsPreviousScene(prev: Scene, parse: string -> Option<Json>)
    requires parse("[]") == Some(JArray([]))
    ensures SceneAfterLoad(prev, DefaultContent(Canvas), parse) == prev
  {
  }

  /**
   * Saving and loading round-trip: for a codec that reads back the document
   * it wrote as non-empty text, loading the saved content restores a
   * presentable scene exactly, whatever scene the editor held before.
   */
  lemma SaveReloadRoundTrip(prev: Scene, scene: Scene, json: JsonCodec)
    requires Presentable(scene)
    requires json.stringify(SceneDocument(scene)) != ""
    requires json.parse(json.stringify(SceneDocument(scene))) == Some(SceneDocument(scene))
    ensures SceneAfterLoad(prev, json.stringify(SceneDocument(scene)), json.parse) == scene
  {
    var doc := SceneDocument(scene);
    assert Property(doc, "elements") == Some(scene.elements);
    assert Property(doc, "appState") == Some(scene.appState);
  }

  /** The replacement note a save emits: the edited note with the local title and the serialised scene. */
  function SavedCanvasNote(note: Note, title: string, scene: Scene, stringify: Json -> string): Note {
    note.(title := OrElse(title, "Untitled Canvas"), content := stringify(SceneDocument(scene)))
  }

  /**
   * A save keeps the note's identity, type, folder and both dates, never
   * leaves the title empty, and carries a non-empty local title as it is.
   */
  lemma SavedCanvasNoteKeepsIdentity(note: Note, title: string, scene: Scene, stringify: Json -> string)
    ensures var r := SavedCanvasNote(note, title, scene, stringify);
      r.id == note.id && r.noteType == note.noteType && r.folderId == note.folderId &&
      r.createdAt == note.createdAt && r.updatedAt == note.updatedAt &&
      r.content == stringify(SceneDocument(scene)) && r.title != "" &&
      (title != "" ==> r.title == title) && (title == "" ==> r.title == "Untitled Canvas")
  {
  }

  /** The canvas shortcut: Ctrl or Meta with `s` saves. */
  predicate SaveShortcut(ctrlKey: bool, metaKey: bool, key: string) {
    (ctrlKey || metaKey) && key == "s"
  }

  /** The canvas editor saves on exactly the key presses on which the text editor saves. */
  lemma SaveShortcutAgreesWithTextEditor(ctrlKey: bool, metaKey: bool, key: string)
    ensures SaveShortcut(ctrlKey, metaKey, key) <==> NoteEditor.KeyActionFor(ctrlKey, metaKey, key) == NoteEditor.SaveNote
  {
  }

  /** The app-state defaults the drawing surface is initialised with. */
  function DefaultAppState(): map<string, Json> {
    map[
      "theme" := JString("light"),
      "viewBackgroundColor" := JString("#ffffff"),
      "currentItemBackgroundColor" := JString("transparent"),
      "currentItemFillStyle" := JString("hachure"),
      "currentItemStrokeWidth" := JNumber(1.0),
      "currentItemStrokeStyle" := JString("solid"),
      "currentItemRoughness" := JNumber(1.0),
      "currentItemOpacity" := JNumber(100.0),
      "currentItemFontFamily" := JNumber(1.0),
      "currentItemFontSize" := JNumber(20.0),
      "currentItemTextAlign" := JString("left"),
      "currentItemStartArrowhead" := JNull,
      "currentItemEndArrowhead" := JString("arrow"),
      "scrollX" := JNumber(0.0),
      "scrollY" := JNumber(0.0),
      "zoom" := JObject(map["value" := JNumber(1.0)])
    ]
  }

  /** The initial app state: the defaults, overridden field by field by the editor's app state. */
  function InitialAppState(appState: Json): map<string, Json> {
    DefaultAppState() + Spread(appState)
  }

  /**
   * The editor's app state wins on every key it has; every default it does
   * not override survives; no other key appears.
   */
  lemma InitialAppStateOverrides(appState: Json)
    ensures var r := InitialAppState(appState);
      r.Keys == DefaultAppState().Keys + Spread(appState).Keys &&
      (forall k :: k in Spread(appState) ==> r[k] == Spread(appState)[k]) &&
      (forall k :: k in DefaultAppState() && k !in Spread(appState) ==> r[k] == DefaultAppState()[k])
  {
  }

  /** With nothing loaded, the surface starts light, on white, unscrolled and unzoomed. */
  lemma EmptyAppStateGivesDefaults()
    ensures var r := InitialAppState(EmptyScene.appState);
      r == DefaultAppState() &&
      r["theme"] == JString("light") && r["viewBackgroundColor"] == JString("#ffffff") &&
      r["scrollX"] == JNumber(0.0) && r["scrollY"] == JNumber(0.0) &&
      r["zoom"] == JObject(map["value" := JNumber(1.0)])
  {
    assert Spread(EmptyScene.appState) == map[];
  }

  /** The editor's local state for one canvas note. */
  class Editor {
    var note: Note
    var title: string
    var elements: Json
    var appState: Json
    var hasUnsavedChanges: bool
    const json: JsonCodec

    /** The scene the editor holds. */
    function CurrentScene(): Scene
      reads this
    {
      Scene(elements, appState)
    }

    /** Both parts of the held scene are truthy. */
    predicate Valid()
      reads this
    {
      Presentable(CurrentScene())
    }

    /**
     * Mounting: the scene starts empty, then the load effect reads the
     * note's content into it.
     */
    constructor (note: Note, json: JsonCodec)
      ensures this.note == note && this.json == json && title == note.title && !hasUnsavedChanges
      ensures CurrentScene() == SceneAfterLoad(EmptyScene, note.content, json.parse)
      ensures Valid()
    {
      this.note := note;
      this.json := json;
      title := note.title;
      elements := JArray([]);
      appState := JObject(map[]);
      hasUnsavedChanges := false;
      new;
      NoteChanged(note);
    }

    /** The load effect, run whenever the edited note changes. */
    method NoteChanged(n: Note)
      requires Valid()
      modifies this
      ensures Valid()
      ensures note == n && title == n.title && !hasUnsavedChanges
      ensures CurrentScene() == SceneAfterLoad(old(CurrentScene()), n.content, json.parse)
    {
      note := n;
      title := n.title;
      if n.content != "" {
        var parsed := json.parse(n.content);
        if parsed.None? || parsed.value.JNull? {
          elements := JArray([]);
          appState := JObject(map[]);
        } else {
          if HasTruthy(parsed.value, "elements") {
            elements := parsed.value.fields["elements"];
          }
          if HasTruthy(parsed.value, "appState") {
            appState := parsed.value.fields["appState"];
          }
        }
      }
      hasUnsavedChanges := false;
      LoadKeepsPresentable(old(CurrentScene()), n.content, json.parse);
    }

    /** A title edit. */
    method TitleChanged(newTitle: string)
      modifies this`title, this`hasUnsavedChanges
      ensures title == newTitle && hasUnsavedChanges
    {
      title := newTitle;
      hasUnsavedChanges := true;
    }

    /** A change reported by the drawing surface: a copy of its elements and its app state. */
    method HandleChange(surfaceElements: seq<Json>, surfaceAppState: map<string, Json>)
      modifies this`elements, this`appState, this`hasUnsavedChanges
      ensures CurrentScene() == Scene(JArray(surfaceElements), JObject(surfaceAppState))
      ensures hasUnsavedChanges && Valid()
    {
      elements := JArray(surfaceElements);
      appState := JObject(surfaceAppState);
      hasUnsavedChanges := true;
    }

    /** Save: emit the replacement note for the update handler and clear the flag. */
    method Save() returns (updated: Note)
      modifies this`hasUnsavedChanges
      ensures updated == SavedCanvasNote(note, title, CurrentScene(), json.stringify)
      ensures updated.id == note.id && updated.title != "" && !hasUnsavedChanges
    {
      updated := note.(title := OrElse(title, "Untitled Canvas"),
                       content := json.stringify(JObject(map["elements" := elements, "appState" := appState])));
      hasUnsavedChanges := false;
    }

    /** Clear, when the user confirms: the elements are emptied, the app state stays. */
    method HandleClear(confirmed: bool)
      requires Valid()
      modifies this`elements, this`hasUnsavedChanges
      ensures Valid()
      ensures confirmed ==> elements == JArray([]) && hasUnsavedChanges
      ensures !confirmed ==> elements == old(elements) && hasUnsavedChanges == old(hasUnsavedChanges)
    {
      if confirmed {
        elements := JArray([]);
        hasUnsavedChanges := true;
      }
    }

    /** A key press: the save shortcut saves and emits the note; any other key does nothing. */
    method KeyDown(ctrlKey: bool, metaKey: bool, key: string) returns (updated: Option<Note>)
      modifies this`hasUnsavedChanges
      ensures SaveShortcut(ctrlKey, metaKey, key) ==>
        updated == Some(SavedCanvasNote(note, title, CurrentScene(), json.stringify)) && !hasUnsavedChanges
      ensures !SaveShortcut(ctrlKey, metaKey, key) ==>
        updated == None && hasUnsavedChanges == old(hasUnsavedChanges)
    {
      if (ctrlKey || metaKey) && key == "s" {
        var n := Save();
        updated := Some(n);
      } else {
        updated := None;
      }
    }
  }

  /**
   * Saving and then receiving the saved note back (the update handler
   * selects it, which reruns the load effect) restores the same scene when
   * the codec reads back what it wrote.
   */
  method SaveThenReload(e: Editor) returns (updated: Note)
    requires e.Valid()
    requires e.json.stringify(SceneDocument(e.CurrentScene())) != ""
    requires e.json.parse(e.json.stringify(SceneDocument(e.CurrentScene()))) == Some(SceneDocument(e.CurrentScene()))
    modifies e
    ensures updated == SavedCanvasNote(old(e.note), old(e.title), old(e.CurrentScene()), e.json.stringify)
    ensures e.note == updated && e.CurrentScene() == old(e.CurrentScene()) && !e.hasUnsavedChanges
    ensures e.title == OrElse(old(e.title), "Untitled Canvas")
  {
    updated := e.Save();
    SaveReloadRoundTrip(e.CurrentScene(), e.CurrentScene(), e.json);
    e.NoteChanged(updated);
  }
}
