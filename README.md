# Unity toolkit core, modelled in Dafny

This project models three pieces of a Unity toolkit (FK):

- **Node.** The base node of the visual node editor (`FK.Editor.NodeEditor.Node`). A node is:
  - a rectangle;
  - fixed-length arrays of in and out connection points, filled in by `Init`;
  - a selection and drag state driven by mouse and key events;
  - a context-menu table where the first registration of a label wins;
  - a removal notification to subscribers;
  - a height that every repaint rebuilds from the controls drawn inside the node.
- **LanguageManager.** The string logic of the localization manager (`FK.JLoc.LanguageManager`):
  - strings files are JSON objects `category -> name -> language code -> text`;
  - each file is un-escaped on loading and stored under its path;
  - lookups take the first loaded file that has the text;
  - the current language can only change to a configured language;
  - at start-up a language is picked by a fixed fallback.
- **Singleton.** The singleton behaviour base (`FK.Utility.Singleton<T>`): one `Instance` slot per type. The first object to wake up claims it, later objects are destroyed, and destroying the holder frees it.

The files:

- `wrappers.dfy`: `Option`.
- `assoc.dfy` (`AssocList`): JSON objects as ordered association lists, with the lookup, write and removal laws the manager relies on. How the JSON library's objects behave is an assumption of this model (see "## Left out").
- `escapes.dfy` (`Escapes`): C#'s `String.Replace` and the un-escaping chain applied to every loaded string.
- `localization.dfy` (`Localization`): the OS-language table, lower-casing, `ParseStrings`, lookup, the start-language fallback, and the `LanguageManager` class. The class's fields are the C# class's static fields.
- `node.dfy` (`NodeEditor`):
  - rectangles and events;
  - `React`, the pure event-handling function;
  - layout heights and the context-menu table;
  - the `Node` class. Its `ProcessEvents`, `Init`, `Draw` and the other methods are proved against those functions.
- `singleton.dfy` (`Utility`): the pure slot transitions and the `Singleton` class, which stands for the statics of one singleton type together with the engine's set of live objects.

Parameters stand in for the outside world:

- **Node.** Coordinates are integers. A repaint is a boolean parameter. Control heights and skin margins (from IMGUI) are inputs. The content a node kind draws is a list of elements. A shown menu and each removal notification are recorded in ghost logs.
- **LanguageManager.** File contents arrive as a map from path to JSON. The OS language and the saved language are parameters. The `OnLanguageChanged` and `OnStringFileLoaded` notifications are ghost logs.

## Model

| member | source | states |
|---|---|---|
| NodeEditor.Node.constructor | Scripts/Editor/Source/NodeEditor/Node.cs:91-100 | the rect is (position, width, height); the point arrays are fresh, of the requested lengths, with every slot null; ID "ID", Title "Title", Border (12, 12, 12, 12); no subscribers, no menu table, no styles, not selected, not dragged |
| NodeEditor.Node.Init | Scripts/Editor/Source/NodeEditor/Node.cs:113-143 | position set and size kept; both styles stored and the current style is the default one; the removal subscriber appended (so two calls register it twice); the menu table is exactly {"Remove Node" -> remove this node}; new point arrays of the old lengths where slot i holds the point (this, IN/OUT, i, length, style, callback); a node that is not selected is drawn in the default style |
| NodeEditor.Node.NewPoints | Scripts/Editor/Source/NodeEditor/Node.cs:130-140 | the filling loop: a fresh array of n slots, slot i the point of this node with index i and sibling count n |
| NodeEditor.Node.Clone | Scripts/Editor/Source/NodeEditor/Node.cs:154-157 | a fresh node with every field equal; the point arrays are the same arrays, so the clone's points name the original node as their owner |
| NodeEditor.Node.Drag | Scripts/Editor/Source/NodeEditor/Node.cs:164-167 | the rect is translated by delta |
| NodeEditor.TranslateRoundTrip | Scripts/Editor/Source/NodeEditor/Node.cs:164-167 | dragging by d and then by -d restores the rect |
| NodeEditor.TranslateCompose | Scripts/Editor/Source/NodeEditor/Node.cs:164-167 | two drags are one drag by the summed delta, and width and height never change |
| NodeEditor.Node.Place | Scripts/Editor/Source/NodeEditor/Node.cs:344-353 | a layout primitive: on a repaint the height grows by the control's height plus the bottom margin of its skin style; otherwise nothing changes |
| NodeEditor.Node.Space | Scripts/Editor/Source/NodeEditor/Node.cs:409-416 | on a repaint the height grows by exactly the given pixels; otherwise nothing changes |
| NodeEditor.ContentHeightAppend | Scripts/Editor/Source/NodeEditor/Node.cs:344-505 | the height drawn content adds is additive over concatenation |
| NodeEditor.ContentHeightInsert | Scripts/Editor/Source/NodeEditor/Node.cs:344-505 | each element adds exactly its own height plus margin, wherever it stands |
| NodeEditor.Node.Draw | Scripts/Editor/Source/NodeEditor/Node.cs:169-208 | on a repaint the height becomes Border.y + (title height + label margin) + 12 + the content's heights and margins + Border.height, with position and width unchanged; on other events the rect is unchanged; the point slots must be filled, since drawing a null point throws |
| NodeEditor.Node.ProcessEvents | Scripts/Editor/Source/NodeEditor/Node.cs:215-289 | the new selection, drag, style and rect and the answer are those of `React`; a shown menu carries the table's entries; a removal request notifies every subscriber with this node, in order |
| NodeEditor.ReactLeftPressSelects | Scripts/Editor/Source/NodeEditor/Node.cs:219-240 | a left press selects the node exactly when it lands inside it; inside starts a drag and sets the selected style, outside sets the default style and leaves the drag flag as it was; never consumed, no menu |
| NodeEditor.ReactShowsMenu | Scripts/Editor/Source/NodeEditor/Node.cs:243-261 | the menu opens exactly on a right press inside the node, which selects it with the selected style and leaves the drag flag as it was |
| NodeEditor.ReactConsumes | Scripts/Editor/Source/NodeEditor/Node.cs:215-289 | an event is consumed exactly when it is a right press inside the node or a left drag while dragged |
| NodeEditor.ReactMovesOnlyOnDrag | Scripts/Editor/Source/NodeEditor/Node.cs:269-277 | no event changes the size; only a consumed drag moves the node, by the event's delta |
| NodeEditor.ReactDragStartsInside | Scripts/Editor/Source/NodeEditor/Node.cs:219-267 | dragging starts only with a left press inside the node; every MouseUp ends it |
| NodeEditor.ReactRemoves | Scripts/Editor/Source/NodeEditor/Node.cs:279-286 | removal is requested exactly on Delete pressed while selected, leaving the node's state unchanged |
| NodeEditor.ReactFrame | Scripts/Editor/Source/NodeEditor/Node.cs:215-289 | MouseUp changes only the drag flag; KeyDown never changes selection, drag or style; a right press outside the node or a press of any other button changes nothing; a drag that is not consumed changes nothing |
| NodeEditor.ReactIgnoresOtherEvents | Scripts/Editor/Source/NodeEditor/Node.cs:215-289 | any other event type changes nothing and is not consumed |
| NodeEditor.ReactKeepsStyle | Scripts/Editor/Source/NodeEditor/Node.cs:219-263 | every event keeps the node drawn in the selected style exactly when it is selected |
| NodeEditor.DragGesture | Scripts/Editor/Source/NodeEditor/Node.cs:219-277 | a left press inside, a left drag by d and a release leave the node selected, not dragged, and moved by exactly d |
| NodeEditor.Node.ProcessContextMenu | Scripts/Editor/Source/NodeEditor/Node.cs:299-312 | one menu is shown, holding the table's entries |
| NodeEditor.Node.OnClickRemoveNode | Scripts/Editor/Source/NodeEditor/Node.cs:317-321 | every subscriber is called once with this node, in order; with none, nothing happens |
| NodeEditor.Node.AddContextMenuEntry | Scripts/Editor/Source/NodeEditor/Node.cs:328-334 | the table becomes `WithEntry` of the old one: unchanged if the label exists, otherwise that label added |
| NodeEditor.WithEntryIdempotent | Scripts/Editor/Source/NodeEditor/Node.cs:328-334 | registering a label a second time changes nothing |
| NodeEditor.WithEntryOthers | Scripts/Editor/Source/NodeEditor/Node.cs:328-334 | a registration leaves every other label and its action as they were |
| NodeEditor.RegisterAllKeeps | Scripts/Editor/Source/NodeEditor/Node.cs:328-334 | a label already in the table keeps its action whatever is registered later |
| NodeEditor.RegisterAllFirstWins | Scripts/Editor/Source/NodeEditor/Node.cs:328-334 | after a series of registrations a new label holds the action of its first registration |
| Localization.IsoCode | Scripts/LanguageManager/Source/LanguageManager/LanguageManager.cs:81-177 | None (null) exactly for Unknown and unlisted languages; every Chinese variant gives "zh"; every code is two lower-case letters |
| Localization.IsoCodeRoundTrip | Scripts/LanguageManager/Source/LanguageManager/LanguageManager.cs:85-175 | every code the table yields names the language it came from, with the Chinese variants counting as Chinese |
| Localization.IsoCodeDistinct | Scripts/LanguageManager/Source/LanguageManager/LanguageManager.cs:85-175 | two OS languages share a code only when both are Chinese variants |
| Localization.Lower | Scripts/LanguageManager/Source/LanguageManager/LanguageManager.cs:478 | lower-casing keeps the length and leaves no upper-case ASCII letter |
| Escapes.UnescapeWithoutBackslash | Scripts/LanguageManager/Source/LanguageManager/LanguageManager.cs:436-443 | text without a backslash is left unchanged by the rewriting chain |
| Escapes.UnescapeNotLonger | Scripts/LanguageManager/Source/LanguageManager/LanguageManager.cs:436-443 | the rewriting never makes a string longer |
| Escapes.UnescapeCrLf | Scripts/LanguageManager/Source/LanguageManager/LanguageManager.cs:218 | an escaped CR LF becomes one line break, because it is tried before the single escapes |
| Escapes.UnescapeQuote | Scripts/LanguageManager/Source/LanguageManager/LanguageManager.cs:443 | an escaped quotation mark loses its backslash |
| Escapes.UnescapeBackslashBeforeN | Scripts/LanguageManager/Source/LanguageManager/LanguageManager.cs:436-443 | an escaped backslash followed by n comes out as a backslash and a line break, since line breaks are rewritten before backslashes |
| Localization.ParseStrings | Scripts/LanguageManager/Source/LanguageManager/LanguageManager.cs:428-449 | the result is `ParsedFile` of the input: the same keys at every level, in the same order, with every text un-escaped |
| Localization.ParsedText | Scripts/LanguageManager/Source/LanguageManager/LanguageManager.cs:428-449 | a lookup in a parsed file is the un-escaped text of the raw file, and fails exactly where the raw file has no text |
| Localization.Search | Scripts/LanguageManager/Source/LanguageManager/LanguageManager.cs:629-634 | the while loop returns `FindIn`, the first text in table order |
| Localization.FindInIsFirst | Scripts/LanguageManager/Source/LanguageManager/LanguageManager.cs:629-634 | the search finds a text exactly when some loaded file has one, and then it is the earliest such file's text |
| Localization.LookupAfterFreshLoad | Scripts/LanguageManager/Source/LanguageManager/LanguageManager.cs:367-386 | after loading one file with the others unloaded, lookups give that file's texts un-escaped and fail exactly where it has none |
| Localization.LanguageManager.constructor | Scripts/LanguageManager/Source/LanguageManager/LanguageManager.cs:270-285 | configuration loaded, not initialized, no strings, the saved language adopted only when the configuration says to use it |
| Localization.LanguageManager.GetString | Scripts/LanguageManager/Source/LanguageManager/LanguageManager.cs:618-641 | the category defaults to "default"; not initialized fails first, then no strings, then string not found; otherwise the first loaded file's text in the current language |
| Localization.LanguageManager.GetStringIn | Scripts/LanguageManager/Source/LanguageManager/LanguageManager.cs:651-677 | the same failures in the same order; otherwise the first text in the lower-cased language |
| Localization.LanguageManager.SetText | Scripts/LanguageManager/Source/LanguageManager/LanguageManager.cs:502-520 | the category defaults to "default"; a null field is untouched; otherwise it shows the looked-up text, or "<MISSING>" on any failure |
| Localization.LanguageManager.SetTextIn | Scripts/LanguageManager/Source/LanguageManager/LanguageManager.cs:530-548 | the same, in the lower-cased given language |
| Localization.LanguageManager.SetLanguage | Scripts/LanguageManager/Source/LanguageManager/LanguageManager.cs:472-490 | succeeds exactly when initialized and the lower-cased code is non-empty and configured; then the current language is that code and listeners get it once; on failure nothing changes |
| Localization.LanguageManager.KnownLanguages | Scripts/LanguageManager/Source/LanguageManager/LanguageManager.cs:62-76 | when the getter yields languages they are the configured codes |
| Localization.LanguageManager.Languages | Scripts/LanguageManager/Source/LanguageManager/LanguageManager.cs:62-76 | the cache is filled with the configured codes once initialized; before that it stays null |
| Localization.ChooseStartLanguage | Scripts/LanguageManager/Source/LanguageManager/LanguageManager.cs:313-336 | a set, non-empty, configured current language is kept; otherwise the OS language when the configuration asks for it and it is configured; otherwise the configured default; otherwise the first known language; the language chosen is always configured, and a configured default guarantees a choice |
| Localization.NoFirstLanguageAtStartup | Scripts/LanguageManager/Source/LanguageManager/LanguageManager.cs:327-331 | when current, OS and default language all fail, the first-language fallback finds no languages and fails |
| Localization.LanguageManager.FinishInit | Scripts/LanguageManager/Source/LanguageManager/LanguageManager.cs:313-336 | succeeds exactly when the fallback (current, then OS, then default, then first known language) chooses a language, which becomes current, and then the manager is initialized; on failure nothing changes |
| Localization.LanguageManager.LoadStringsFile | Scripts/LanguageManager/Source/LanguageManager/LanguageManager.cs:350-387 | a fresh table when asked or when none exists; an existing file stores its parsed contents under its path, balances the counter and notifies once, after which `HasStrings` holds; a missing file fails with the counter left raised, so `CurrentlyLoadingStrings` holds; no path is ever stored twice |
| Localization.LanguageManager.UnloadStringsFile | Scripts/LanguageManager/Source/LanguageManager/LanguageManager.cs:455-464 | a loaded path is removed and the table shrinks by one; an unknown path changes nothing; with no table it fails |
| Localization.LanguageManager.GetLanguageDisplayName | Scripts/LanguageManager/Source/LanguageManager/LanguageManager.cs:688-705 | a name exactly when initialized and the code is configured, and then it is the configured name |
| AssocList.SetGetSame | Scripts/LanguageManager/Source/LanguageManager/LanguageManager.cs:383 | after `_strings[path] = file` the path reads back as that file |
| AssocList.SetGetOther | Scripts/LanguageManager/Source/LanguageManager/LanguageManager.cs:383 | storing under one path leaves every other path's file as it was |
| AssocList.SetKeys | Scripts/LanguageManager/Source/LanguageManager/LanguageManager.cs:383 | storing keeps load order, appending a new path at the end |
| AssocList.SetUnique | Scripts/LanguageManager/Source/LanguageManager/LanguageManager.cs:383 | storing never creates a duplicate path |
| AssocList.RemoveGetOther | Scripts/LanguageManager/Source/LanguageManager/LanguageManager.cs:463 | removing one path leaves every other path's file as it was |
| AssocList.RemoveAt | Scripts/LanguageManager/Source/LanguageManager/LanguageManager.cs:463 | removing drops exactly the field of that path and keeps the other files in load order |
| AssocList.RemoveKeys | Scripts/LanguageManager/Source/LanguageManager/LanguageManager.cs:457-463 | removing adds no path, and removing a path that is not loaded changes nothing |
| AssocList.RemoveUnique | Scripts/LanguageManager/Source/LanguageManager/LanguageManager.cs:463 | after removal the path is gone and no path is duplicated |
| AssocList.GetMeansPresent | Scripts/LanguageManager/Source/LanguageManager/LanguageManager.cs:698-704 | `HasField` holds exactly for the keys present, and the value read is the one paired with the key |
| AssocList.GetIsFirst | Scripts/LanguageManager/Source/LanguageManager/LanguageManager.cs:633 | reading a key yields the first field with that key |
| AssocList.GetMapped | Scripts/LanguageManager/Source/LanguageManager/LanguageManager.cs:428-449 | a lookup in a rewritten object is the rewritten lookup |
| Utility.Singleton.Awake | Scripts/Utility/Source/Utility/Singleton.cs:24-47 | the new slot and live set are `AwakeStep`'s: a free slot is claimed by this object; another holder stays and this object is destroyed; when this object already holds the slot, nothing changes; afterwards `IsInitialized` always holds |
| Utility.Singleton.OnDestroy | Scripts/Utility/Source/Utility/Singleton.cs:49-55 | the object leaves the live set; if it was the holder the slot becomes null and `IsInitialized` is false, otherwise the slot is unchanged |
| Utility.AwakeKeepsConsistent | Scripts/Utility/Source/Utility/Singleton.cs:30-47 | waking a live object leaves the slot held by a live object and never replaces a holder |
| Utility.DestroyKeepsConsistent | Scripts/Utility/Source/Utility/Singleton.cs:49-55 | destruction leaves the holder alive; destroying a non-holder keeps the slot |
| Utility.HeldSlotStays | Scripts/Utility/Source/Utility/Singleton.cs:30-47 | once the slot is held, further wake-ups keep the holder and destroy exactly the other objects that woke |
| Utility.FirstAwakeWins | Scripts/Utility/Source/Utility/Singleton.cs:30-47 | from a free slot the first object to wake becomes the instance and every other one that wakes is destroyed |

## Left out

- Node drawing: `GUI.Box` and the IMGUI calls. This covers `GUILayout.*`, the content rect and the layout area, `GenericMenu.ShowAsContext`, `GUI.FocusControl`, `GUI.changed` and `Event.Use`. They are engine calls with no state of their own in the model. Control heights and skin margins are inputs, and a shown menu is a ghost log entry.
- Node controls: the values the layout primitives return (pressed, slider value, text). They come from user input through IMGUI. Only the height each control adds is modelled, by `Place` for all nine controls and by `Space`.
- `ConnectionPoint.Draw` and everything else of `ConnectionPoint` and `NodeEditor`: ConnectionPoint.cs and NodeEditor.cs are not part of this model. A point is the record its constructor call is given, and the editor reference a node keeps is dropped.
- The node kind's `Init()` and `DrawContent()` hooks: they are abstract. `Init()` is a no-op, and `DrawContent()` is the list of elements `Draw` receives.
- Float coordinates: the model uses integers, so `TranslateRoundTrip` is exact, where float addition is not.
- `Clone` shares the context-menu dictionary object between the clone and the original. The model copies the table's value, so a later registration on one is not seen by the other.
- `Init` with a null removal subscriber leaves the multicast unchanged in C#. Subscribers are never null in the model.
- `AddContextMenuEntry` before `Init` would throw on the null table. The model requires the table to exist.
- `Node.ProcessEvents` and `Node.ProcessContextMenu`: a right press inside a node before `Init` is excluded by their preconditions. In C# it selects the node and sets the selected style, then throws when the menu is built from the null table; that partial update is not modelled.
- Negative point counts, which make the C# array allocation throw, are excluded by the `nat` parameters.
- The order in which `GenericMenu` lists entries: the table is a map.
- Language manager: loading the configuration and the start-up coroutine (`Init`, `InitAsync`, `LoadConfigAsync`), the asynchronous `LoadStringsFile` path with its parse thread, file reading, `PlayerPrefs` and logging. These are I/O, threading and engine services. The configuration arrives in the constructor, file contents as a map from path to JSON, and the saved language as a parameter.
- `Localization.LanguageManager.FinishInit` takes the value of the `SystemLanguage` property (`IsoCode` of the OS language) as a parameter instead of reading the OS.
- `Localization.ChooseStartLanguage` skips the OS language when the `SystemLanguage` property is null. This takes the JSON library's `HasField(null)` to be false; that library is not part of this model.
- `Localization.ParseStrings`, `Localization.LanguageManager.LoadStringsFile`, `AssocList.Set` and `AssocList.RemoveFirst`: the JSON library is not part of this model, and its objects are assumed to keep insertion order, with `SetField` and the indexer set replacing the first field with the key in place (appending only a new key) and `RemoveField` dropping that first field. Under an implementation whose `SetField` removes the field and appends it again, the index loop at LanguageManager.cs:434-445 would skip some texts and un-escape others twice, and a reloaded path would move to the end of the lookup order (LanguageManager.cs:383, 631-634); the model's claims of same keys, same order and load order hold only under the assumed semantics.
- The configuration's structure check and the exceptions for missing configuration keys: the `Config` record always has its four fields.
- JSON values other than strings at the leaves of a strings file, and duplicate keys in a JSON object: every leaf is text, and loaded paths are kept unique.
- `Localization.Lower`: ASCII letters only; `string.ToLower` follows the current culture.
- The `TMP_Text` overloads of `SetText` (LanguageManager.cs:558-576 and 586-604) do the same as the `Text` ones; `SetText`/`SetTextIn` model both.
- Exceptions are `Failure` values, and logged errors or warnings are `Fail` outcomes. A missing file is modelled after `LoadStringsFile` has already replaced the table and raised the loading counter, as in C#.
- Singleton: `Destroy` versus `DestroyImmediate` and the editor check are not distinguished; both are the object leaving the live set. The warning log is left out. One `Singleton` object stands for the statics of one type `T`. `Create` stands for the engine instantiating an object and has no counterpart in the class.
- Effects/ClipVolume/Source/Scripts/ClipVolume.cs is not part of this model: it only passes transforms to shaders and draws gizmos.
