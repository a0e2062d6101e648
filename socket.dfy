/**
 * The types that the town service and the frontend exchange over the socket:
 * notes, players, bounding boxes, the interactable command and the
 * serialised note-taking area.
 */
module CoveyTownSocket {
  import opened Wrappers

  /** One note: `id` is caller-assigned and opaque, `content` is rich-text markup that the core never inspects. */
  datatype Note = Note(id: string, title: string, content: string)

  /** A participant, identified by `id`. */
  datatype Player = Player(id: string, userName: string)

  datatype BoundingBox = BoundingBox(x: int, y: int, width: int, height: int)

  /** The `type` tag of the one command a note-taking area understands. */
  const NoteTakingAreaUpdateType: string := "NoteTakingAreaUpdate"

  /** The `type` tag of a serialised note-taking area. */
  const NoteTakingAreaType: string := "NoteTakingArea"

  /** The type tag of any other interactable command. */
  type OtherCommandType = s: string | s != NoteTakingAreaUpdateType witness ""

  /** An interactable command: the note update, or a command of any other type. */
  datatype InteractableCommand =
    | NoteTakingAreaUpdate(notes: seq<Note>)
    | OtherCommand(commandType: OtherCommandType)

  /** The serialised form of a note-taking area: `notes == None` is an absent `notes` field. */
  datatype NoteTakingAreaModel =
    NoteTakingAreaModel(id: string, areaType: string, notes: Option<seq<Note>>, occupants: seq<string>)

  /** The ids of a list of players, in list order (`players.map(p => p.id)`). */
  function PlayerIds(players: seq<Player>): (ids: seq<string>)
    ensures |ids| == |players|
    ensures forall i :: 0 <= i < |players| ==> ids[i] == players[i].id
  {
    seq(|players|, i requires 0 <= i < |players| => players[i].id)
  }
}
