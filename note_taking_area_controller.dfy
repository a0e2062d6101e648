/**
 * The frontend's mirror of one note-taking area.  A notes collection is an
 * object (`NotesRef`), so `!=` between two collections compares references
 * as JavaScript's `!==` does on arrays; the controller relies on that to
 * decide when a `notesChange` event is due.
 */
module NoteTakingAreaControllers {
  import opened Wrappers
  import opened CoveyTownSocket

  /** A notes array. Nothing mutates one in place, so its items are fixed at creation. */
  class NotesRef {
    const items: seq<Note>

    constructor (items: seq<Note>)
      ensures this.items == items
    {
      this.items := items;
    }
  }

  /** What notes data may look like when it reaches the controller: an array, the old single-string form, or nothing. */
  datatype NotesPayload = Structured(notes: NotesRef) | Legacy(content: string) | Absent

  const DefaultNoteId: string := "default-note-1"
  const DefaultNoteTitle: string := "Untitled Note 1"

  /** The payload for an absent-or-array `notes` field. */
  function PayloadOf(notes: Option<NotesRef>): (p: NotesPayload)
    ensures notes.Some? <==> p.Structured?
    ensures notes.Some? ==> p.notes == notes.value
  {
    if notes.Some? then Structured(notes.value) else Absent
  }

  /** The town controller's outbound half: every command sent, with the area it is addressed to. */
  class TownController {
    var sentCommands: seq<(string, InteractableCommand)>

    constructor ()
      ensures sentCommands == []
    {
      sentCommands := [];
    }

    method SendInteractableCommand(areaId: string, command: InteractableCommand)
      modifies this
      ensures sentCommands == old(sentCommands) + [(areaId, command)]
    {
      sentCommands := sentCommands + [(areaId, command)];
    }
  }

  /** A note-taking area as the frontend sees it: the notes are an array object. */
  datatype AreaSnapshot = AreaSnapshot(id: string, areaType: string, notes: Option<NotesRef>, occupants: seq<string>)

  class NoteTakingAreaController {
    const id: string
    const townController: TownController
    /** The occupants, in the order the town reported them. */
    var occupants: seq<Player>
    /** `_notes`: the normalised notes array currently held. */
    var current: NotesRef
    /** The payload of every `notesChange` event emitted, oldest first. */
    var notesChangeEvents: seq<NotesRef>

    /**
     * `_initializeNotes`: an array is returned itself; the string form or
     * nothing becomes a new one-note array holding the string (or nothing) as
     * its content.
     */
    static method InitializeNotes(notes: NotesPayload) returns (r: NotesRef)
      ensures notes.Structured? ==> r == notes.notes
      ensures !notes.Structured? ==>
        && fresh(r)
        && r.items == [Note(DefaultNoteId, DefaultNoteTitle, if notes.Legacy? then notes.content else "")]
    {
      if notes.Structured? {
        return notes.notes;
      }
      var content := if notes.Legacy? then notes.content else "";
      r := new NotesRef([Note(DefaultNoteId, DefaultNoteTitle, content)]);
    }

    /** Normalising what normalisation returned gives back that very array. */
    static method InitializeNotesIdempotent(notes: NotesPayload) returns (once: NotesRef, twice: NotesRef)
      ensures twice == once
    {
      once := InitializeNotes(notes);
      twice := InitializeNotes(Structured(once));
    }

    /** Normalises the initial notes; starts with no occupants and no events. */
    constructor (id: string, notes: NotesPayload, townController: TownController)
      ensures this.id == id && this.townController == townController
      ensures occupants == [] && notesChangeEvents == []
      ensures notes.Structured? ==> current == notes.notes
      ensures !notes.Structured? ==>
        && fresh(current)
        && current.items == [Note(DefaultNoteId, DefaultNoteTitle, if notes.Legacy? then notes.content else "")]
    {
      var initialized := InitializeNotes(notes);
      this.id := id;
      this.townController := townController;
      occupants := [];
      current := initialized;
      notesChangeEvents := [];
    }

    /** The `notes` getter: the normalised array held, never the raw legacy form. */
    function Notes(): (r: NotesRef)
      reads this
      ensures r == current
    {
      current
    }

    function IsActive(): (active: bool)
      reads this
      ensures active <==> occupants != []
    {
      |occupants| > 0
    }

    /**
     * The area as the frontend reports it: an empty notes array is reported
     * as absent, any other is reported as the held array itself.
     */
    function ToInteractableAreaModel(): (m: AreaSnapshot)
      reads this
      ensures m.id == id && m.areaType == NoteTakingAreaType
      ensures m.notes == None <==> current.items == []
      ensures m.notes.Some? ==> m.notes.value == current
      ensures |m.occupants| == |occupants|
      ensures forall i :: 0 <= i < |occupants| ==> m.occupants[i] == occupants[i].id
    {
      AreaSnapshot(id, NoteTakingAreaType, if |current.items| > 0 then Some(current) else None, PlayerIds(occupants))
    }

    /**
     * `_setNotes`: normalise, emit `notesChange` once if the result is a
     * different array from the one held, then hold the result.
     */
    method SetNotes(newNotes: Option<NotesRef>)
      modifies this
      ensures newNotes.Some? ==> current == newNotes.value
      ensures newNotes.None? ==>
        && fresh(current)
        && current.items == [Note(DefaultNoteId, DefaultNoteTitle, "")]
      ensures notesChangeEvents ==
        old(notesChangeEvents) + (if current != old(current) then [current] else [])
      ensures occupants == old(occupants)
    {
      var initialized := InitializeNotes(PayloadOf(newNotes));
      if current != initialized {
        notesChangeEvents := notesChangeEvents + [initialized];
      }
      current := initialized;
    }

    /** `_updateFrom`: a snapshot from the town replaces the notes as `SetNotes` does. */
    method UpdateFrom(newModel: AreaSnapshot)
      modifies this
      ensures newModel.notes.Some? ==> current == newModel.notes.value
      ensures newModel.notes.None? ==>
        && fresh(current)
        && current.items == [Note(DefaultNoteId, DefaultNoteTitle, "")]
      ensures notesChangeEvents ==
        old(notesChangeEvents) + (if current != old(current) then [current] else [])
      ensures occupants == old(occupants)
    {
      SetNotes(newModel.notes);
    }

    /**
     * Sends one update command carrying `newNotes`, addressed to this area;
     * the notes held and the events emitted are left alone.
     */
    method UpdateNotes(newNotes: NotesRef)
      modifies townController
      ensures townController.sentCommands ==
        old(townController.sentCommands) + [(id, NoteTakingAreaUpdate(newNotes.items))]
      ensures current == old(current) && notesChangeEvents == old(notesChangeEvents)
    {
      var command := NoteTakingAreaUpdate(newNotes.items);
      townController.SendInteractableCommand(id, command);
    }

    /** A controller for a serialised area: its id and normalised notes, and the players `playerFinder` resolves. */
    static method FromNoteTakingAreaModel(model: AreaSnapshot, townController: TownController,
                                          playerFinder: seq<string> -> seq<Player>)
      returns (ret: NoteTakingAreaController)
      ensures fresh(ret)
      ensures ret.id == model.id && ret.townController == townController
      ensures ret.occupants == playerFinder(model.occupants)
      ensures ret.notesChangeEvents == []
      ensures model.notes.Some? ==> ret.current == model.notes.value
      ensures model.notes.None? ==>
        && fresh(ret.current)
        && ret.current.items == [Note(DefaultNoteId, DefaultNoteTitle, "")]
    {
      ret := new NoteTakingAreaController(model.id, PayloadOf(model.notes), townController);
      ret.occupants := playerFinder(model.occupants);
    }
  }
}
