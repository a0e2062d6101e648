/**
 * The town service's note-taking area: the single authority over one area's
 * notes and occupant roster.  The emitter that broadcasts to the town is
 * modelled as the log `emitted` of the events the area sends through it.
 */
module TownNoteTakingArea {
  import opened Wrappers
  import opened CoveyTownSocket

  /** What the area sends through its town emitter. */
  datatype TownEvent =
    | InteractableUpdate(area: NoteTakingAreaModel)
    | PlayerMoved(playerId: string, interactableId: Option<string>)

  /** The error thrown for a command the area does not understand. */
  datatype InvalidParametersError = InvalidParametersError(message: string)

  /** The note every area read from the map starts with. */
  const MapDefaultNote: Note := Note("note-1", "Untitled Note 1", "<p>New Note</p>")

  /** The roster with every occurrence of `player` filtered out. */
  function Without(roster: seq<Player>, player: Player): (r: seq<Player>)
    ensures forall q :: q in r <==> q in roster && q != player
    ensures multiset(r) == multiset(roster)[player := 0]
    ensures |r| <= |roster|
  {
    if roster == [] then []
    else
      assert multiset(roster) == multiset([roster[0]]) + multiset(roster[1..]) by {
        assert roster == [roster[0]] + roster[1..];
      }
      (if roster[0] == player then [] else [roster[0]]) + Without(roster[1..], player)
  }

  /** Filtering out a player who is not on the roster changes nothing. */
  lemma {:induction false} WithoutAbsent(roster: seq<Player>, player: Player)
    requires player !in roster
    ensures Without(roster, player) == roster
  {
    if roster != [] {
      WithoutAbsent(roster[1..], player);
      assert roster == [roster[0]] + roster[1..];
    }
  }

  /** With two occupants, removing the first leaves the second alone. */
  lemma RemoveFirstOfTwo(p: Player, q: Player)
    requires p != q
    ensures Without([p, q], p) == [q]
  {
    assert [p, q][1..] == [q];
    assert [q][1..] == [];
  }

  /** A newcomer who joins and then leaves restores the roster exactly. */
  lemma {:induction false} AddThenRemove(roster: seq<Player>, player: Player)
    requires player !in roster
    ensures Without(roster + [player], player) == roster
  {
    if roster == [] {
      assert [player][1..] == [];
    } else {
      assert (roster + [player])[1..] == roster[1..] + [player];
      AddThenRemove(roster[1..], player);
      assert roster == [roster[0]] + roster[1..];
    }
  }

  /** A map object: `width` and `height` are optional numbers in the map file. */
  datatype MapObject = MapObject(name: string, x: int, y: int, width: Option<int>, height: Option<int>)

  /** JavaScript falsiness of an optional number: missing or zero. */
  predicate Falsy(n: Option<int>) {
    n == None || n == Some(0)
  }

  /** The validation step of `fromMapObject`: the area's rectangle, or the error message. */
  function MapObjectBounds(mapObject: MapObject): (r: Result<BoundingBox, string>)
    ensures r.Failure? <==> Falsy(mapObject.width) || Falsy(mapObject.height)
    ensures r.Failure? ==> r.error == "Malformed viewing area " + mapObject.name
    ensures r.Success? ==>
      && mapObject.width == Some(r.value.width) && mapObject.height == Some(r.value.height)
      && r.value.x == mapObject.x && r.value.y == mapObject.y
      && r.value.width != 0 && r.value.height != 0
  {
    if Falsy(mapObject.width) || Falsy(mapObject.height) then
      Failure("Malformed viewing area " + mapObject.name)
    else
      Success(BoundingBox(mapObject.x, mapObject.y, mapObject.width.value, mapObject.height.value))
  }

  class NoteTakingArea {
    const id: string
    const boundingBox: BoundingBox
    /** The notes in the area; `None` once the area has been emptied. */
    var notes: Option<seq<Note>>
    /** The occupants, in the order they entered. */
    var occupants: seq<Player>
    /** Everything sent through the town emitter, oldest first. */
    var emitted: seq<TownEvent>

    /** Stores the given notes as they are, with no normalisation. */
    constructor (id: string, notes: Option<seq<Note>>, boundingBox: BoundingBox)
      ensures this.id == id && this.boundingBox == boundingBox
      ensures this.notes == notes
      ensures occupants == [] && emitted == []
    {
      this.id := id;
      this.boundingBox := boundingBox;
      this.notes := notes;
      occupants := [];
      emitted := [];
    }

    /** The ids of the occupants, in roster order. */
    function OccupantsByID(): (ids: seq<string>)
      reads this
      ensures |ids| == |occupants|
      ensures forall i :: 0 <= i < |occupants| ==> ids[i] == occupants[i].id
    {
      PlayerIds(occupants)
    }

    /** The area is active while someone is inside it. */
    function IsActive(): (active: bool)
      reads this
      ensures active <==> occupants != []
    {
      |occupants| > 0
    }

    /** The serialised area: the stored notes exactly as they are, and the occupant ids in order. */
    function ToModel(): (m: NoteTakingAreaModel)
      reads this
      ensures m.id == id && m.areaType == NoteTakingAreaType
      ensures m.notes == notes
      ensures |m.occupants| == |occupants|
      ensures forall i :: 0 <= i < |occupants| ==> m.occupants[i] == occupants[i].id
    {
      NoteTakingAreaModel(id, NoteTakingAreaType, notes, OccupantsByID())
    }

    /** `_emitAreaChanged`: broadcast the current snapshot. */
    method EmitAreaChanged()
      modifies this
      ensures emitted == old(emitted) + [InteractableUpdate(ToModel())]
      ensures notes == old(notes) && occupants == old(occupants)
    {
      emitted := emitted + [InteractableUpdate(ToModel())];
    }

    /**
     * The update command replaces the notes wholesale and broadcasts one
     * snapshot; any other command throws and leaves the area untouched.
     */
    method HandleCommand(command: InteractableCommand) returns (r: Result<(), InvalidParametersError>)
      modifies this
      ensures occupants == old(occupants)
      ensures command.NoteTakingAreaUpdate? ==>
        && r == Success(())
        && notes == Some(command.notes)
        && emitted == old(emitted) + [InteractableUpdate(NoteTakingAreaModel(id, NoteTakingAreaType, Some(command.notes), PlayerIds(occupants)))]
      ensures command.OtherCommand? ==>
        && r == Failure(InvalidParametersError("Unknown command type"))
        && notes == old(notes) && emitted == old(emitted)
    {
      if command.NoteTakingAreaUpdate? {
        notes := Some(command.notes);
        EmitAreaChanged();
        return Success(());
      }
      return Failure(InvalidParametersError("Unknown command type"));
    }

    /**
     * The base area's `add`: the player joins the end of the roster, their
     * location moves into this area, and a snapshot is broadcast.
     */
    method Add(player: Player)
      modifies this
      ensures occupants == old(occupants) + [player]
      ensures notes == old(notes)
      ensures emitted == old(emitted) + [PlayerMoved(player.id, Some(id)), InteractableUpdate(ToModel())]
    {
      occupants := occupants + [player];
      emitted := emitted + [PlayerMoved(player.id, Some(id))];
      EmitAreaChanged();
    }

    /**
     * The base area's `remove`: the player leaves the roster, their location
     * leaves this area, and a snapshot of the remaining roster is broadcast.
     */
    method RemoveOccupant(player: Player)
      modifies this
      ensures occupants == Without(old(occupants), player)
      ensures notes == old(notes)
      ensures emitted == old(emitted) + [PlayerMoved(player.id, None), InteractableUpdate(ToModel())]
    {
      occupants := Without(occupants, player);
      emitted := emitted + [PlayerMoved(player.id, None)];
      EmitAreaChanged();
    }

    /**
     * The override of `remove`: after the base removal's snapshot, when the
     * last occupant has left, the notes are wiped and a second snapshot with
     * no notes and no occupants is broadcast.
     */
    method Remove(player: Player)
      modifies this
      ensures occupants == Without(old(occupants), player)
      ensures occupants == [] ==>
        && notes == None
        && emitted == old(emitted) + [
             PlayerMoved(player.id, None),
             InteractableUpdate(NoteTakingAreaModel(id, NoteTakingAreaType, old(notes), [])),
             InteractableUpdate(NoteTakingAreaModel(id, NoteTakingAreaType, None, []))]
      ensures occupants != [] ==>
        && notes == old(notes)
        && emitted == old(emitted) + [
             PlayerMoved(player.id, None),
             InteractableUpdate(NoteTakingAreaModel(id, NoteTakingAreaType, old(notes), PlayerIds(occupants)))]
    {
      RemoveOccupant(player);
      if |occupants| == 0 {
        notes := None;
        EmitAreaChanged();
      }
    }

    /**
     * An area read from a map object: an error when the width or height is
     * missing or zero, otherwise a fresh empty area named after the object
     * holding exactly the default note.
     */
    static method FromMapObject(mapObject: MapObject) returns (r: Result<NoteTakingArea, string>)
      ensures r.Failure? <==> Falsy(mapObject.width) || Falsy(mapObject.height)
      ensures r.Failure? ==> r.error == "Malformed viewing area " + mapObject.name
      ensures r.Success? ==>
        && fresh(r.value)
        && r.value.id == mapObject.name
        && MapObjectBounds(mapObject) == Success(r.value.boundingBox)
        && r.value.occupants == []
        && r.value.notes == Some([MapDefaultNote])
        && r.value.emitted == []
    {
      var bounds := MapObjectBounds(mapObject);
      if bounds.Failure? {
        return Failure(bounds.error);
      }
      var area := new NoteTakingArea(mapObject.name, Some([MapDefaultNote]), bounds.value);
      return Success(area);
    }
  }
}
