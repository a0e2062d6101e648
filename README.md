# Note-taking area: a Dafny model

This project models the shared note-taking area of a multi-user town in three parts:

- **Town side (`note_taking_area.dfy`, module `TownNoteTakingArea`).** The class `NoteTakingArea` is the authority over one area. It holds the area's notes (absent once wiped), its occupant roster and the log of events it has sent through the town emitter. It handles the one known command, `NoteTakingAreaUpdate`, which replaces the notes wholesale and broadcasts a snapshot. Every other command is rejected. The notes are wiped when the last occupant leaves. The class also serialises itself, and it builds an area from a map object.
- **Client side (`note_taking_area_controller.dfy`, module `NoteTakingAreaControllers`).** The class `NoteTakingAreaController` is the frontend mirror. A notes array is the object `NotesRef`, so `!=` compares references, as JavaScript's `!==` does. The mirror normalises legacy notes data. It emits `notesChange` (kept as a log) only when the array it holds is replaced by a different object. It sends update commands through a `TownController` that keeps a log of sent commands.
- **Notes board (`notes_board.dfy`, module `NotesBoard`).** The tab rules are pure functions: add a tab, close a tab and move the active index, edit the title or content of the active note, clamp the active index when remote notes arrive, and name the export file. Their results are committed to the `Board` class, which stands for the component's local state.
- **Shared types and runs.** `socket.dfy` holds the types both sides share. `wrappers.dfy` holds `Option`/`Result`. `scenarios.dfy` holds whole-protocol runs: the area's life cycle, change detection, and one update going from a client to the town and back.

Behaviour worth noting:

- **No normalisation on the town side.** The town-side area stores the notes it is given verbatim. It does not normalise them: `[]` stays `[]` and an absent value stays absent. Only the client normalises.
- **Occupied areas can have no notes.** An area built with no notes still has none after someone enters. So "notes are present whenever someone is inside" does not hold. What does hold is that notes are absent right after the last occupant leaves.
- **Error message.** A malformed map object raises `Malformed viewing area <name>`, as the code says. The test expects `Malformed notetaking area <name>`.
- **Empty collections.** Only the client reports an empty notes array as absent. The town reports its stored value as it is.

## Model

| member | source | states |
|---|---|---|
| `TownNoteTakingArea.NoteTakingArea.HandleCommand` | townService/src/town/NoteTakingArea.ts:16-26 | An update command sets the notes to exactly the command's notes, broadcasts one snapshot with those notes and the current occupant ids, and returns normally. Any other command fails with `InvalidParametersError("Unknown command type")` and leaves notes, occupants and the event log unchanged. |
| `TownNoteTakingArea.NoteTakingArea.IsActive` | townService/src/town/NoteTakingArea.ts:31-34 | The area is active exactly when its roster is non-empty. |
| `TownNoteTakingArea.NoteTakingArea.constructor` | townService/src/town/NoteTakingArea.ts:43-50 | Stores id, bounding box and the given notes verbatim, with no normalisation. The roster and the event log start empty. |
| `TownNoteTakingArea.NoteTakingArea.ToModel` | townService/src/town/NoteTakingArea.ts:55-62 | The serialised area carries the id, type `NoteTakingArea`, exactly the stored notes (an empty list or an absent value included) and the occupant ids in roster order. |
| `TownNoteTakingArea.NoteTakingArea.OccupantsByID` | townService/src/town/NoteTakingArea.ts:60 | One id per occupant: the i-th id is the i-th occupant's id, so the ids follow roster order. |
| `TownNoteTakingArea.MapObjectBounds` | townService/src/town/NoteTakingArea.ts:68-72 | Fails exactly when width or height is missing or zero, with message `Malformed viewing area <name>`. Otherwise the rectangle is the object's x, y, width and height, with both sizes non-zero. |
| `TownNoteTakingArea.NoteTakingArea.FromMapObject` | townService/src/town/NoteTakingArea.ts:64-82 | Fails exactly as `MapObjectBounds` does. On success it builds a fresh area with id = the object's name, that rectangle, no occupants, no events, and exactly the note `{note-1, Untitled Note 1, <p>New Note</p>}`. |
| `TownNoteTakingArea.NoteTakingArea.EmitAreaChanged` | townService/src/town/NoteTakingArea.ts:88 | Appends a snapshot of the current state to the event log and changes nothing else. |
| `TownNoteTakingArea.NoteTakingArea.Add` | townService/src/town/NoteTakingArea.test.ts:31-48 | The player is appended to the roster. A location update into this area, then a snapshot, are emitted. The notes are unchanged. |
| `TownNoteTakingArea.NoteTakingArea.RemoveOccupant` | townService/src/town/NoteTakingArea.test.ts:51-62 | The base removal filters the player out of the roster, emits a location update out of the area, then a snapshot of the remaining roster. The notes are unchanged. |
| `TownNoteTakingArea.NoteTakingArea.Remove` | townService/src/town/NoteTakingArea.ts:84-90 | The location update and the base snapshot `{id, old notes, remaining ids}` come first. If the roster is then empty, notes become absent and a second snapshot `{id, NoteTakingArea, no notes, []}` follows. Otherwise the notes are untouched and nothing more is emitted. |
| `TownNoteTakingArea.Without` | townService/src/town/NoteTakingArea.ts:85 | The filtered roster contains exactly the players of the old roster other than the one removed, each as many times as before, and the removed player not at all. |
| `TownNoteTakingArea.WithoutAbsent` | townService/src/town/NoteTakingArea.ts:85 | Removing a player who is not inside leaves the roster unchanged. |
| `TownNoteTakingArea.RemoveFirstOfTwo` | townService/src/town/NoteTakingArea.test.ts:51-55 | With two occupants, removing the first leaves exactly the second. |
| `TownNoteTakingArea.AddThenRemove` | townService/src/town/NoteTakingArea.ts:84-85 | A newcomer who enters and then leaves restores the roster exactly. |
| `NoteTakingAreaControllers.NoteTakingAreaController.InitializeNotes` | frontend/src/classes/interactable/NoteTakingAreaController.ts:54-67 | An array input is returned itself (same reference). A string or absent input gives a fresh one-note array `{default-note-1, Untitled Note 1, string-or-empty}`. |
| `NoteTakingAreaControllers.NoteTakingAreaController.InitializeNotesIdempotent` | frontend/src/classes/interactable/NoteTakingAreaController.ts:55-57 | Normalising the result of normalisation returns that same reference. |
| `NoteTakingAreaControllers.NoteTakingAreaController.constructor` | frontend/src/classes/interactable/NoteTakingAreaController.ts:74-77 | The held notes are the normalised input. For a string or absent input that is a fresh array of length 1 with the default id and title. There are no occupants and no events. |
| `NoteTakingAreaControllers.NoteTakingAreaController.SetNotes` | frontend/src/classes/interactable/NoteTakingAreaController.ts:82-90 | Afterwards the held array is the normalised input. One `notesChange` with it is logged exactly when it is a different reference from the array held before, and none otherwise. An absent input gives a fresh array, so it always emits. |
| `NoteTakingAreaControllers.NoteTakingAreaController.UpdateFrom` | frontend/src/classes/interactable/NoteTakingAreaController.ts:36-38 | A snapshot's notes are taken in exactly as `SetNotes` takes them. |
| `NoteTakingAreaControllers.NoteTakingAreaController.ToInteractableAreaModel` | frontend/src/classes/interactable/NoteTakingAreaController.ts:27-34 | Reports absent notes exactly when the held array is empty, and otherwise that very array. The occupant ids are reported in order, with type `NoteTakingArea`. |
| `NoteTakingAreaControllers.NoteTakingAreaController.UpdateNotes` | frontend/src/classes/interactable/NoteTakingAreaController.ts:100-106 | Sends exactly one `NoteTakingAreaUpdate` command with the given notes, addressed to the controller's id. The held notes and the event log are not touched. |
| `NoteTakingAreaControllers.NoteTakingAreaController.IsActive` | frontend/src/classes/interactable/NoteTakingAreaController.ts:40-42 | Active exactly when the occupant list is non-empty. |
| `NoteTakingAreaControllers.NoteTakingAreaController.FromNoteTakingAreaModel` | frontend/src/classes/interactable/NoteTakingAreaController.ts:108-117 | A fresh controller with the model's id and its normalised notes, the occupants `playerFinder` gives for the model's ids, and no events. |
| `NotesBoard.CreateNewNote` | frontend/src/components/Town/interactables/NotesBoard.tsx:38-42 | The note carries the given id, title and content. The content defaults to `NewNoteContent`, `<p>New Note</p>`. |
| `NotesBoard.NewTabId` | frontend/src/components/Town/interactables/NotesBoard.tsx:165 | A new tab's id is `note-` followed by at least one decimal digit. |
| `NotesBoard.NewTabTitle` | frontend/src/components/Town/interactables/NotesBoard.tsx:166 | A new tab's title is `Untitled Note ` followed by at least one decimal digit. |
| `NotesBoard.AddTab` | frontend/src/components/Town/interactables/NotesBoard.tsx:163-170 | On n notes: exactly one note `{note-<now>, Untitled Note <n+1>, <p>New Note</p>}` is appended, the earlier notes are unchanged, and the active index becomes n. |
| `NotesBoard.NatToString` | frontend/src/components/Town/interactables/NotesBoard.tsx:165 | A number is rendered as a non-empty string of decimal digits with no leading zero. |
| `NotesBoard.NatToStringRoundTrip` | frontend/src/components/Town/interactables/NotesBoard.tsx:165 | Reading the rendered digits back gives the number. |
| `NotesBoard.NewTabIdsDiffer` | frontend/src/components/Town/interactables/NotesBoard.tsx:164-165 | Tabs added at different times get different ids. |
| `NotesBoard.WithoutIndexSpec` | frontend/src/components/Town/interactables/NotesBoard.tsx:174 | The index filter `WithoutIndex` removes exactly the element at the index, keeping order. It removes nothing when the index is out of range. |
| `NotesBoard.CloseTabRemovesOne` | frontend/src/components/Town/interactables/NotesBoard.tsx:174-190 | With `CloseTab`, the pure part of the close handler, closing one of two or more tabs yields the notes with exactly that tab removed, in order. |
| `NotesBoard.CloseTabKeepsActiveNote` | frontend/src/components/Town/interactables/NotesBoard.tsx:181-191 | The index rule `CloseActiveIndex`: closing the active tab i gives max(0, i-1), closing an earlier tab gives a-1, and closing a later tab keeps a. With a valid active tab among n ≥ 2, the new index is below n-1. Closing another tab keeps the same note active. Closing the active tab activates the previous one, or the new first tab if it was the first. |
| `NotesBoard.CloseLastTabAddsTab` | frontend/src/components/Town/interactables/NotesBoard.tsx:174-179 | The filter leaves nothing exactly when the notes are empty or the only tab is closed. Then closing is adding a tab to the unfiltered notes. With more than one tab, closing a tab in range always shortens the list. |
| `NotesBoard.WithTitleAt` | frontend/src/components/Town/interactables/NotesBoard.tsx:196-205 | Only the note at the active index gets the new title. The length and every other note are unchanged, and an out-of-range index changes nothing. |
| `NotesBoard.WithContentAt` | frontend/src/components/Town/interactables/NotesBoard.tsx:112-114 | Only the note at the active index gets the new content. Everything else is unchanged. |
| `NotesBoard.EditorUpdate` | frontend/src/components/Town/interactables/NotesBoard.tsx:107-118 | An update is committed exactly when there is an active note whose content differs from the new content. It replaces only that note's content. |
| `NotesBoard.SyncActiveIndex` | frontend/src/components/Town/interactables/NotesBoard.tsx:70-73 | After the clamp a non-negative index stays non-negative and names a remote note whenever there is one. An index at or past the remote length becomes max(0, len-1); any other index is kept. |
| `NotesBoard.SyncActiveIndexIdempotent` | frontend/src/components/Town/interactables/NotesBoard.tsx:70-73 | Clamping again against the same remote notes changes nothing. |
| `NotesBoard.AddTabThenStaleSync` | frontend/src/components/Town/interactables/NotesBoard.tsx:65-74 | Adding a tab to a board of n remote notes and then running the sync effect with the same remote notes restores those notes and leaves tab n-1 active. The added notes were still handed to the save once. |
| `NotesBoard.ReplaceNonAlphanumeric` | frontend/src/components/Town/interactables/NotesBoard.tsx:351 | Every character other than an ASCII letter or digit becomes `_`. The length is kept. |
| `NotesBoard.ToLowerCase` | frontend/src/components/Town/interactables/NotesBoard.tsx:351 | Upper-case ASCII letters become lower-case. The length is kept. |
| `NotesBoard.ExportFileName` | frontend/src/components/Town/interactables/NotesBoard.tsx:350-352 | An empty or absent title gives `notes.html`. A non-empty title gives a name in `[a-z0-9_]*` followed by `.html`, of length title length + 5, where each letter or digit is kept lower-cased and every other character is `_`. |
| `NotesBoard.Export` | frontend/src/components/Town/interactables/NotesBoard.tsx:342-366 | Nothing is exported exactly when the content is absent or empty. Otherwise the file is named by `ExportFileName`. |
| `NotesBoard.Board.constructor` | frontend/src/components/Town/interactables/NotesBoard.tsx:61-62 | The board opens on the remote notes with tab 0 active. |
| `NotesBoard.Board.HandleUpdateNotes` | frontend/src/components/Town/interactables/NotesBoard.tsx:85-91 | The notes are held locally and handed to the save once. |
| `NotesBoard.Board.HandleAddTab` | frontend/src/components/Town/interactables/NotesBoard.tsx:163-170 | Commits `AddTab`'s notes and index, saves once, and keeps the board valid. |
| `NotesBoard.Board.HandleCloseTab` | frontend/src/components/Town/interactables/NotesBoard.tsx:172-194 | Commits `CloseTab`'s notes and index and saves once. It keeps the board valid when the closed index is in range. |
| `NotesBoard.Board.HandleTitleChange` | frontend/src/components/Town/interactables/NotesBoard.tsx:196-205 | Commits `WithTitleAt` at the active index, saves once, and keeps the board valid. |
| `NotesBoard.Board.OnEditorUpdate` | frontend/src/components/Town/interactables/NotesBoard.tsx:107-118 | Commits and saves `EditorUpdate`'s notes when there are any. Otherwise nothing happens. |
| `NotesBoard.Board.SelectTab` | frontend/src/components/Town/interactables/NotesBoard.tsx:241-244 | Choosing a tab makes it active and changes nothing else. |
| `NotesBoard.Board.SyncFromRemote` | frontend/src/components/Town/interactables/NotesBoard.tsx:65-74 | Takes the remote notes and clamps the active index as `SyncActiveIndex` does. It saves nothing. |
| `Scenarios.AreaLifecycle` | townService/src/town/NoteTakingArea.ts:16-90 | One player enters an area with no notes, replaces its notes with two notes, a second player enters, and both leave. The broadcasts are exactly: no notes with [a], the two notes with [a], the two notes with [a, b], the two notes with [b], the two notes with [], and finally no notes with []. The area ends inactive. |
| `Scenarios.LegacyConstruction` | frontend/src/classes/interactable/NoteTakingAreaController.ts:74-94 | A controller built from a string or from nothing has, through its `notes` getter, exactly one note with id `default-note-1`, title `Untitled Note 1` and the string (or empty) as content. |
| `Scenarios.ChangeDetection` | frontend/src/classes/interactable/NoteTakingAreaController.ts:82-90 | Offering the held array again raises no `notesChange`. A new array with equal items raises one, and absent notes raise one each time. |
| `Scenarios.UpdateRoundTrip` | frontend/src/classes/interactable/NoteTakingAreaController.ts:100-106 | A client's proposal reaches the town, is stored there verbatim, comes back in the broadcast and is held by the client after exactly one `notesChange`. The client then reports no notes exactly when the proposal was empty. |

## Left out

- The 150 ms debounce of saves and the cancel-then-flush on editor teardown: timer behaviour. `Board.saveRequests` logs every notes array handed to the debounced save, with no coalescing.
- Browser I/O in export and import: Blob, object URLs, the download link, file input, FileReader and the toasts. Only the export file name and the no-content rule are modelled.
- The import's `__notesBoardEditorSetContent` handler writes content at the active index as `WithContentAt` does. Like the other `window` globals, it is not modelled as a separate operation.
- `NotesBoard.Board.HandleAddTab`: the sync effect (NotesBoard.tsx:65-74) depends on the active index, so it runs again right after a tab is added. It still sees the old remote notes, so it puts them back and clamps the index from n to n-1. When the town's update arrives the new tab is shown but tab n-1 is active, so "the active index becomes n" holds only until that effect runs. `HandleCloseTab` and `SelectTab` lose unsaved local edits the same way. The model runs the effect only when `SyncFromRemote` is called; `NotesBoard.AddTabThenStaleSync` shows the combined outcome.
- React hooks, effect scheduling and stale closures. Each handler is modelled on the board's current notes and active index. The tabs, modal and editor rendering are not modelled either.
- The hook `useNoteTakingAreaNotes` and listener registration: listeners are represented by the `notesChange` event log.
- The toolbar component and the game-world glue for the area's label and overlap.
- The unseen base classes. The base area's `add`/`remove`, the player's location object and the base controller's `occupants` setter are not part of this model. Add and remove are modelled from the tests: add appends and emits a location update then a snapshot, and the base remove filters, emits a location update, then a snapshot of the remaining roster. The client's `occupantsChange` event and the base `updateFrom`, which also refreshes occupants, are not modelled.
- The controller's `friendlyName` and `type` getters return constants. They are not modelled.
- Title deduplication and id regeneration on bulk import: no such code exists in the modelled files.
- Players are values. The roster filter removes every player equal to the one leaving. The source compares player objects by reference.
- `TownNoteTakingArea.MapObjectBounds`: map numbers are integers. A NaN width or height, which is also falsy in JavaScript, is not modelled.
- `NotesBoard.ExportFileName`: a title is a sequence of Unicode characters. JavaScript's regular expression replaces each UTF-16 code unit, so a character outside the Basic Multilingual Plane gives two underscores there and one here. The length claim holds for titles within that plane.
- `NotesBoard.NewTabId`: `Date.now()` becomes the parameter `now`, a non-negative integer.
