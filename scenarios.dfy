/**
 * Whole-protocol runs over the server area and the client controller: the
 * area's life cycle, the controller's reference-based change detection, and
 * one update travelling from a client to the town and back.  The socket is
 * modelled by `Deliver`, which turns a serialised area into the object the
 * client receives.
 */
module Scenarios {
  import opened Wrappers
  import opened CoveyTownSocket
  import opened TownNoteTakingArea
  import opened NoteTakingAreaControllers

  /** The snapshots among the events an area emitted, in order. */
  function Broadcasts(events: seq<TownEvent>): (snapshots: seq<NoteTakingAreaModel>)
    ensures |snapshots| <= |events|
  {
    if events == [] then []
    else
      (if events[0].InteractableUpdate? then [events[0].area] else []) + Broadcasts(events[1..])
  }

  lemma {:induction false} BroadcastsAppend(events: seq<TownEvent>, more: seq<TownEvent>)
    ensures Broadcasts(events + more) == Broadcasts(events) + Broadcasts(more)
  {
    if events == [] {
      assert events + more == more;
    } else {
      var all := events + more;
      assert all[0] == events[0];
      assert all[1..] == events[1..] + more;
      BroadcastsAppend(events[1..], more);
      var head := if events[0].InteractableUpdate? then [events[0].area] else [];
      assert Broadcasts(all) == head + Broadcasts(all[1..]);
      assert Broadcasts(events) == head + Broadcasts(events[1..]);
    }
  }

  /** Deserialising a snapshot on the client: a notes array arrives as a new array object. */
  method Deliver(m: NoteTakingAreaModel) returns (s: AreaSnapshot)
    ensures s.id == m.id && s.areaType == m.areaType && s.occupants == m.occupants
    ensures s.notes.Some? <==> m.notes.Some?
    ensures m.notes.Some? ==> fresh(s.notes.value) && s.notes.value.items == m.notes.value
  {
    if m.notes.Some? {
      var received := new NotesRef(m.notes.value);
      s := AreaSnapshot(m.id, m.areaType, Some(received), m.occupants);
    } else {
      s := AreaSnapshot(m.id, m.areaType, None, m.occupants);
    }
  }

  /** The snapshots among the events of the life-cycle run below. */
  lemma LifecycleBroadcasts(aId: string, bId: string, areaId: string, s1: NoteTakingAreaModel, s2: NoteTakingAreaModel,
                            s3: NoteTakingAreaModel, s4: NoteTakingAreaModel, s5: NoteTakingAreaModel, s6: NoteTakingAreaModel)
    ensures Broadcasts([PlayerMoved(aId, Some(areaId)), InteractableUpdate(s1)]
                       + [InteractableUpdate(s2)]
                       + [PlayerMoved(bId, Some(areaId)), InteractableUpdate(s3)]
                       + [PlayerMoved(aId, None), InteractableUpdate(s4)]
                       + [PlayerMoved(bId, None), InteractableUpdate(s5), InteractableUpdate(s6)])
            == [s1, s2, s3, s4, s5, s6]
  {
    var e1 := [PlayerMoved(aId, Some(areaId)), InteractableUpdate(s1)];
    var d2 := [InteractableUpdate(s2)];
    var d3 := [PlayerMoved(bId, Some(areaId)), InteractableUpdate(s3)];
    var d4 := [PlayerMoved(aId, None), InteractableUpdate(s4)];
    var d5 := [PlayerMoved(bId, None), InteractableUpdate(s5), InteractableUpdate(s6)];
    assert Broadcasts(e1) == [s1];
    assert Broadcasts(d2) == [s2];
    assert Broadcasts(d3) == [s3];
    assert Broadcasts(d4) == [s4];
    assert Broadcasts(d5[1..]) == [s5, s6] by {
      assert d5[1..][1..] == [InteractableUpdate(s6)];
    }
    assert Broadcasts(d5) == [s5, s6];
    BroadcastsAppend(e1, d2);
    BroadcastsAppend(e1 + d2, d3);
    BroadcastsAppend(e1 + d2 + d3, d4);
    BroadcastsAppend(e1 + d2 + d3 + d4, d5);
  }

  /**
   * An area created with no notes: `a` enters, `a` replaces the notes with
   * `[t1, t2]`, `b` enters, both leave.  The snapshots broadcast along the
   * way end with no notes and no occupants.
   */
  method AreaLifecycle(areaId: string, box: BoundingBox, a: Player, b: Player, t1: Note, t2: Note)
    returns (snapshots: seq<NoteTakingAreaModel>, activeAtEnd: bool)
    requires a != b
    ensures snapshots == [
      NoteTakingAreaModel(areaId, NoteTakingAreaType, None, [a.id]),
      NoteTakingAreaModel(areaId, NoteTakingAreaType, Some([t1, t2]), [a.id]),
      NoteTakingAreaModel(areaId, NoteTakingAreaType, Some([t1, t2]), [a.id, b.id]),
      NoteTakingAreaModel(areaId, NoteTakingAreaType, Some([t1, t2]), [b.id]),
      NoteTakingAreaModel(areaId, NoteTakingAreaType, Some([t1, t2]), []),
      NoteTakingAreaModel(areaId, NoteTakingAreaType, None, [])
    ]
    ensures !activeAtEnd
  {
    var s1 := NoteTakingAreaModel(areaId, NoteTakingAreaType, None, [a.id]);
    var s2 := NoteTakingAreaModel(areaId, NoteTakingAreaType, Some([t1, t2]), [a.id]);
    var s3 := NoteTakingAreaModel(areaId, NoteTakingAreaType, Some([t1, t2]), [a.id, b.id]);
    var s4 := NoteTakingAreaModel(areaId, NoteTakingAreaType, Some([t1, t2]), [b.id]);
    var s5 := NoteTakingAreaModel(areaId, NoteTakingAreaType, Some([t1, t2]), []);
    var s6 := NoteTakingAreaModel(areaId, NoteTakingAreaType, None, []);
    assert PlayerIds([a]) == [a.id];
    assert PlayerIds([a, b]) == [a.id, b.id];
    assert PlayerIds([b]) == [b.id];
    var area := new NoteTakingArea(areaId, None, box);
    area.Add(a);
    assert area.ToModel() == s1;
    var e1 := area.emitted;
    assert e1 == [PlayerMoved(a.id, Some(areaId)), InteractableUpdate(s1)];
    var outcome := area.HandleCommand(NoteTakingAreaUpdate([t1, t2]));
    var d2 := [InteractableUpdate(s2)];
    assert area.emitted == e1 + d2;
    var e2 := area.emitted;
    area.Add(b);
    assert area.occupants == [a, b];
    var d3 := [PlayerMoved(b.id, Some(areaId)), InteractableUpdate(s3)];
    assert area.emitted == e2 + d3;
    var e3 := area.emitted;
    RemoveFirstOfTwo(a, b);
    area.Remove(a);
    assert area.occupants == [b];
    var d4 := [PlayerMoved(a.id, None), InteractableUpdate(s4)];
    assert area.emitted == e3 + d4;
    var e4 := area.emitted;
    assert Without([b], b) == [] by {
      assert [b][1..] == [];
    }
    area.Remove(b);
    assert area.occupants == [];
    var d5 := [PlayerMoved(b.id, None), InteractableUpdate(s5), InteractableUpdate(s6)];
    assert area.emitted == e4 + d5;
    LifecycleBroadcasts(a.id, b.id, areaId, s1, s2, s3, s4, s5, s6);
    snapshots := Broadcasts(area.emitted);
    activeAtEnd := area.IsActive();
  }

  /**
   * A controller built from the old single-string form, or from nothing,
   * holds exactly one note with the default id and title; its getter gives
   * that array, never the raw string.
   */
  method LegacyConstruction(areaId: string, legacy: Option<string>) returns (notes: seq<Note>)
    ensures |notes| == 1
    ensures notes[0].id == DefaultNoteId && notes[0].title == DefaultNoteTitle
    ensures notes[0].content == if legacy.Some? then legacy.value else ""
  {
    var town := new TownController();
    var payload := if legacy.Some? then Legacy(legacy.value) else Absent;
    var controller := new NoteTakingAreaController(areaId, payload, town);
    notes := controller.Notes().items;
  }

  /**
   * `notesChange` counts after each step: the same array offered twice raises
   * nothing, an equal but new array raises one event, and no notes always
   * raises one.
   */
  method ChangeDetection(areaId: string, items: seq<Note>) returns (counts: seq<nat>)
    ensures counts == [0, 0, 0, 1, 2, 3]
  {
    var town := new TownController();
    var held := new NotesRef(items);
    var controller := new NoteTakingAreaController(areaId, Structured(held), town);
    counts := [|controller.notesChangeEvents|];
    controller.SetNotes(Some(held));
    counts := counts + [|controller.notesChangeEvents|];
    controller.SetNotes(Some(held));
    counts := counts + [|controller.notesChangeEvents|];
    var copy := new NotesRef(items);
    controller.SetNotes(Some(copy));
    counts := counts + [|controller.notesChangeEvents|];
    controller.SetNotes(None);
    counts := counts + [|controller.notesChangeEvents|];
    controller.SetNotes(None);
    counts := counts + [|controller.notesChangeEvents|];
  }

  /**
   * A client proposes `proposed` for an area it is in; the town applies the
   * command and broadcasts; the client takes the snapshot in.  Town and
   * client then hold the proposed notes, the client has raised exactly one
   * `notesChange`, and it reports no notes exactly when the proposal is empty.
   */
  method UpdateRoundTrip(areaId: string, box: BoundingBox, player: Player, proposed: seq<Note>)
    returns (stored: Option<seq<Note>>, mirrored: seq<Note>, changes: nat, reported: Option<seq<Note>>)
    ensures stored == Some(proposed)
    ensures mirrored == proposed
    ensures changes == 1
    ensures reported.None? <==> proposed == []
    ensures reported.Some? ==> reported.value == proposed
  {
    var area := new NoteTakingArea(areaId, None, box);
    area.Add(player);
    var town := new TownController();
    var client := new NoteTakingAreaController(areaId, Absent, town);
    var outbound := new NotesRef(proposed);
    client.UpdateNotes(outbound);
    var (target, command) := town.sentCommands[0];
    assert target == areaId;
    var outcome := area.HandleCommand(command);
    var snapshot := Deliver(area.emitted[|area.emitted| - 1].area);
    client.UpdateFrom(snapshot);
    stored := area.notes;
    mirrored := client.Notes().items;
    changes := |client.notesChangeEvents|;
    var model := client.ToInteractableAreaModel();
    reported := if model.notes.Some? then Some(model.notes.value.items) else None;
  }
}
