/**
 * The list and index rules of the notes board: the tab operations as pure
 * functions over the notes and the active index, the file name of an
 * export, and a `Board` that commits their results as the component's
 * state does.
 */
module NotesBoard {
  import opened Wrappers
  import opened CoveyTownSocket

  /** The content of a freshly added tab. */
  const NewNoteContent: string := "<p>New Note</p>"

  /** `createNewNote`: a note with the given id and title; unless told otherwise its content is `NewNoteContent`. */
  function CreateNewNote(id: string, title: string, content: string := NewNoteContent): (n: Note)
    ensures n.id == id && n.title == title && n.content == content
  {
    Note(id, title, content)
  }

  function Max(a: int, b: int): int {
    if a >= b then a else b
  }

  // ---------------------------------------------------------------------
  // Decimal rendering of numbers inside template literals
  // ---------------------------------------------------------------------

  predicate IsDigit(c: char) {
    '0' <= c <= '9'
  }

  function DigitChar(d: nat): (c: char)
    requires d < 10
    ensures IsDigit(c) && c as int - '0' as int == d
  {
    ('0' as int + d) as char
  }

  /** The decimal digits of `n`, as `${n}` writes a non-negative integer. */
  function NatToString(n: nat): (s: string)
    ensures |s| >= 1
    ensures forall i :: 0 <= i < |s| ==> IsDigit(s[i])
    ensures |s| > 1 ==> s[0] != '0'
    decreases n
  {
    if n < 10 then [DigitChar(n)] else NatToString(n / 10) + [DigitChar(n % 10)]
  }

  function DigitValue(c: char): (d: nat)
    requires IsDigit(c)
    ensures d < 10
  {
    c as int - '0' as int
  }

  /** The number a string of decimal digits denotes. */
  function DigitsValue(s: string): nat
    requires forall i :: 0 <= i < |s| ==> IsDigit(s[i])
  {
    if s == [] then 0
    else DigitsValue(s[..|s| - 1]) * 10 + DigitValue(s[|s| - 1])
  }

  /** Reading the digits back gives the number: the rendering is injective. */
  lemma {:induction false} NatToStringRoundTrip(n: nat)
    ensures DigitsValue(NatToString(n)) == n
  {
    var s := NatToString(n);
    if n >= 10 {
      NatToStringRoundTrip(n / 10);
      assert s[..|s| - 1] == NatToString(n / 10);
    }
  }

  /** The id of a tab added at time `now` (milliseconds). */
  function NewTabId(now: nat): (newId: string)
    ensures |newId| > 5 && newId[..5] == "note-"
    ensures forall i :: 5 <= i < |newId| ==> IsDigit(newId[i])
  {
    "note-" + NatToString(now)
  }

  /** The title of a tab that becomes the `count`th tab. */
  function NewTabTitle(count: nat): (title: string)
    ensures |title| > 14 && title[..14] == "Untitled Note "
    ensures forall i :: 14 <= i < |title| ==> IsDigit(title[i])
  {
    "Untitled Note " + NatToString(count)
  }

  /** Tabs added at different times get different ids. */
  lemma NewTabIdsDiffer(now1: nat, now2: nat)
    requires now1 != now2
    ensures NewTabId(now1) != NewTabId(now2)
  {
    NatToStringRoundTrip(now1);
    NatToStringRoundTrip(now2);
    assert NewTabId(now1)[5..] == NatToString(now1);
    assert NewTabId(now2)[5..] == NatToString(now2);
  }

  // ---------------------------------------------------------------------
  // Tab operations
  // ---------------------------------------------------------------------

  /** The notes and the active index a tab operation commits. */
  datatype BoardEdit = BoardEdit(notes: seq<Note>, activeIndex: int)

  /** `handleAddTab`: append a new note and make it the active tab. */
  function AddTab(notes: seq<Note>, now: nat): (e: BoardEdit)
    ensures |e.notes| == |notes| + 1 && e.notes[..|notes|] == notes
    ensures e.notes[|notes|] == Note(NewTabId(now), NewTabTitle(|notes| + 1), NewNoteContent)
    ensures e.activeIndex == |notes|
  {
    var updatedNotes := notes + [CreateNewNote(NewTabId(now), NewTabTitle(|notes| + 1))];
    BoardEdit(updatedNotes, |updatedNotes| - 1)
  }

  /** `notes.filter((_, idx) => idx !== i)`, for any number `i`. */
  function WithoutIndex<T>(s: seq<T>, i: int): seq<T>
    decreases |s|
  {
    if s == [] then []
    else (if i == 0 then [] else [s[0]]) + WithoutIndex(s[1..], i - 1)
  }

  /** The filter drops exactly the element at `i`, keeping order, and nothing when `i` is out of range. */
  lemma {:induction false} WithoutIndexSpec<T>(s: seq<T>, i: int)
    ensures 0 <= i < |s| ==> WithoutIndex(s, i) == s[..i] + s[i + 1..]
    ensures !(0 <= i < |s|) ==> WithoutIndex(s, i) == s
  {
    if s != [] {
      WithoutIndexSpec(s[1..], i - 1);
      assert s == [s[0]] + s[1..];
      if 0 < i < |s| {
        assert s[..i] == [s[0]] + s[1..][..i - 1];
        assert s[i + 1..] == s[1..][i..];
      }
    }
  }

  /** The active index after closing tab `indexToClose` while tab `active` is active. */
  function CloseActiveIndex(indexToClose: int, active: int): int {
    if indexToClose == active then Max(0, indexToClose - 1)
    else if indexToClose < active then active - 1
    else active
  }

  /**
   * `handleCloseTab`: drop the tab; if no tab would be left, add a tab to the
   * unfiltered notes instead.
   */
  function CloseTab(notes: seq<Note>, active: int, indexToClose: int, now: nat): BoardEdit {
    var newNotes := WithoutIndex(notes, indexToClose);
    if |newNotes| == 0 then AddTab(notes, now)
    else BoardEdit(newNotes, CloseActiveIndex(indexToClose, active))
  }

  /** Closing one of several tabs removes exactly that tab, in order. */
  lemma CloseTabRemovesOne(notes: seq<Note>, active: int, indexToClose: int, now: nat)
    requires |notes| >= 2 && 0 <= indexToClose < |notes|
    ensures CloseTab(notes, active, indexToClose, now).notes == notes[..indexToClose] + notes[indexToClose + 1..]
  {
    WithoutIndexSpec(notes, indexToClose);
  }

  /**
   * Closing a tab while a valid tab is active: the index moves back one when
   * the active tab or an earlier one is closed (never below 0), and stays for a
   * later one.  A valid tab stays active: the same note when another tab was
   * closed, otherwise the previous tab (or the new first tab when the first
   * was closed).
   */
  lemma CloseTabKeepsActiveNote(notes: seq<Note>, active: int, indexToClose: int, now: nat)
    requires |notes| >= 2 && 0 <= active < |notes| && 0 <= indexToClose < |notes|
    ensures var e := CloseTab(notes, active, indexToClose, now);
      && |e.notes| == |notes| - 1
      && 0 <= e.activeIndex < |notes| - 1
      && (indexToClose == active ==> e.activeIndex == Max(0, indexToClose - 1))
      && (indexToClose < active ==> e.activeIndex == active - 1)
      && (indexToClose > active ==> e.activeIndex == active)
      && (indexToClose != active ==> e.notes[e.activeIndex] == notes[active])
      && (indexToClose == active && indexToClose > 0 ==> e.notes[e.activeIndex] == notes[indexToClose - 1])
      && (indexToClose == active && indexToClose == 0 ==> e.notes[e.activeIndex] == notes[1])
  {
    WithoutIndexSpec(notes, indexToClose);
  }

  /**
   * The filter leaves nothing exactly when the notes are empty or the only
   * tab is closed; then the outcome is adding a tab to the unfiltered notes.
   */
  lemma CloseLastTabAddsTab(notes: seq<Note>, active: int, indexToClose: int, now: nat)
    ensures WithoutIndex(notes, indexToClose) == [] <==> notes == [] || (|notes| == 1 && indexToClose == 0)
    ensures WithoutIndex(notes, indexToClose) == [] ==> CloseTab(notes, active, indexToClose, now) == AddTab(notes, now)
    ensures |notes| > 1 ==> |CloseTab(notes, active, indexToClose, now).notes| < |notes| || !(0 <= indexToClose < |notes|)
  {
    WithoutIndexSpec(notes, indexToClose);
  }

  /** `handleTitleChange`: the active note gets the new title; nothing else changes. */
  function WithTitleAt(notes: seq<Note>, active: int, newTitle: string): (r: seq<Note>)
    ensures 0 <= active < |notes| ==> r == notes[active := notes[active].(title := newTitle)]
    ensures !(0 <= active < |notes|) ==> r == notes
  {
    seq(|notes|, k requires 0 <= k < |notes| => if k == active then notes[k].(title := newTitle) else notes[k])
  }

  /** The active note with new content; nothing else changes. */
  function WithContentAt(notes: seq<Note>, active: int, newContent: string): (r: seq<Note>)
    ensures 0 <= active < |notes| ==> r == notes[active := notes[active].(content := newContent)]
    ensures !(0 <= active < |notes|) ==> r == notes
  {
    seq(|notes|, k requires 0 <= k < |notes| => if k == active then notes[k].(content := newContent) else notes[k])
  }

  /**
   * The editor's `onUpdate`: the notes to commit, or `None` when there is no
   * active note or its content is already `newContent`.
   */
  function EditorUpdate(notes: seq<Note>, active: int, newContent: string): (r: Option<seq<Note>>)
    ensures r.Some? <==> 0 <= active < |notes| && newContent != notes[active].content
    ensures r.Some? ==> r.value == notes[active := notes[active].(content := newContent)]
  {
    if 0 <= active < |notes| && newContent != notes[active].content then
      Some(WithContentAt(notes, active, newContent))
    else
      None
  }

  /**
   * The active index after the notes are replaced by remote notes of length
   * `remoteLength`: a non-negative index ends up naming a remote note whenever
   * there is one, and an index already in range is kept.
   */
  function SyncActiveIndex(active: int, remoteLength: nat): (r: int)
    ensures 0 <= active ==> 0 <= r
    ensures remoteLength > 0 ==> r < remoteLength
    ensures active < remoteLength ==> r == active
    ensures active >= remoteLength ==> r == Max(0, remoteLength - 1)
  {
    if active >= remoteLength then Max(0, remoteLength - 1) else active
  }

  /** A second clamp against the same remote notes changes nothing. */
  lemma SyncActiveIndexIdempotent(active: int, remoteLength: nat)
    ensures SyncActiveIndex(SyncActiveIndex(active, remoteLength), remoteLength) == SyncActiveIndex(active, remoteLength)
  {
  }

  /**
   * Adding a tab and then running the sync effect before the town has sent
   * the new notes back: the effect puts the remote notes back and clamps the
   * index, so the added tab and its index are both undone locally.
   */
  method AddTabThenStaleSync(remoteNotes: seq<Note>, now: nat) returns (notes: seq<Note>, active: int, saved: seq<seq<Note>>)
    requires |remoteNotes| > 0
    ensures notes == remoteNotes
    ensures active == |remoteNotes| - 1
    ensures saved == [AddTab(remoteNotes, now).notes]
  {
    var board := new Board(remoteNotes);
    board.HandleAddTab(now);
    board.SyncFromRemote(remoteNotes);
    notes, active, saved := board.notes, board.activeNoteIndex, board.saveRequests;
  }

  // ---------------------------------------------------------------------
  // Export file name
  // ---------------------------------------------------------------------

  predicate IsAsciiAlphanumeric(c: char) {
    'a' <= c <= 'z' || 'A' <= c <= 'Z' || '0' <= c <= '9'
  }

  predicate IsFileNameChar(c: char) {
    'a' <= c <= 'z' || '0' <= c <= '9' || c == '_'
  }

  /** `s.replace(/[^a-z0-9]/gi, '_')`: every character but an ASCII letter or digit becomes `_`. */
  function ReplaceNonAlphanumeric(s: string): (r: string)
    ensures |r| == |s|
    ensures forall i :: 0 <= i < |s| ==> r[i] == if IsAsciiAlphanumeric(s[i]) then s[i] else '_'
  {
    seq(|s|, i requires 0 <= i < |s| => if IsAsciiAlphanumeric(s[i]) then s[i] else '_')
  }

  function LowerAscii(c: char): char {
    if 'A' <= c <= 'Z' then (c as int - 'A' as int + 'a' as int) as char else c
  }

  /** `s.toLowerCase()` on a string of ASCII letters, digits and `_`. */
  function ToLowerCase(s: string): (r: string)
    ensures |r| == |s|
    ensures forall i :: 0 <= i < |s| ==> r[i] == LowerAscii(s[i])
  {
    seq(|s|, i requires 0 <= i < |s| => LowerAscii(s[i]))
  }

  /**
   * The download name for a note titled `title`: a non-empty title, made
   * safe and lower-cased, with `.html` appended; otherwise `notes.html`.
   */
  function ExportFileName(title: Option<string>): (name: string)
    ensures title == None || title == Some("") ==> name == "notes.html"
    ensures title.Some? && title.value != "" ==>
      && |name| == |title.value| + 5
      && name[|title.value|..] == ".html"
      && (forall i :: 0 <= i < |title.value| ==> IsFileNameChar(name[i]))
      && (forall i :: 0 <= i < |title.value| ==>
            name[i] == if IsAsciiAlphanumeric(title.value[i]) then LowerAscii(title.value[i]) else '_')
  {
    if title.Some? && title.value != "" then
      ToLowerCase(ReplaceNonAlphanumeric(title.value)) + ".html"
    else
      "notes.html"
  }

  /** `handleExport`: the name of the file exported, or `None` when there is no content to export. */
  function Export(content: Option<string>, title: Option<string>): (fileName: Option<string>)
    ensures fileName.None? <==> content == None || content == Some("")
    ensures fileName.Some? ==> fileName.value == ExportFileName(title)
  {
    if content.Some? && content.value != "" then Some(ExportFileName(title)) else None
  }

  // ---------------------------------------------------------------------
  // The component's state
  // ---------------------------------------------------------------------

  /**
   * The board's local state: the notes, the active tab, and every notes
   * array handed to the (debounced) save, oldest first.
   */
  class Board {
    var notes: seq<Note>
    var activeNoteIndex: int
    var saveRequests: seq<seq<Note>>

    /** The active index is never negative and names a tab whenever there is one. */
    ghost predicate Valid()
      reads this
    {
      0 <= activeNoteIndex && (|notes| > 0 ==> activeNoteIndex < |notes|)
    }

    /** The board opens on the controller's notes with the first tab active. */
    constructor (remoteNotes: seq<Note>)
      ensures notes == remoteNotes && activeNoteIndex == 0 && saveRequests == []
      ensures Valid()
    {
      notes := remoteNotes;
      activeNoteIndex := 0;
      saveRequests := [];
    }

    /** `handleUpdateNotes`: hold the notes locally and hand them to the save. */
    method HandleUpdateNotes(updatedNotes: seq<Note>)
      modifies this
      ensures notes == updatedNotes && activeNoteIndex == old(activeNoteIndex)
      ensures saveRequests == old(saveRequests) + [updatedNotes]
    {
      notes := updatedNotes;
      saveRequests := saveRequests + [updatedNotes];
    }

    method HandleAddTab(now: nat)
      modifies this
      ensures notes == AddTab(old(notes), now).notes && activeNoteIndex == AddTab(old(notes), now).activeIndex
      ensures saveRequests == old(saveRequests) + [notes]
      ensures Valid()
    {
      var newNote := CreateNewNote(NewTabId(now), NewTabTitle(|notes| + 1));
      var updatedNotes := notes + [newNote];
      HandleUpdateNotes(updatedNotes);
      activeNoteIndex := |updatedNotes| - 1;
    }

    method HandleCloseTab(indexToClose: int, now: nat)
      modifies this
      ensures var e := CloseTab(old(notes), old(activeNoteIndex), indexToClose, now);
        notes == e.notes && activeNoteIndex == e.activeIndex
      ensures saveRequests == old(saveRequests) + [notes]
      ensures old(Valid()) && 0 <= indexToClose < |old(notes)| ==> Valid()
    {
      var newNotes := WithoutIndex(notes, indexToClose);
      if |newNotes| == 0 {
        HandleAddTab(now);
        return;
      }
      ghost var before := notes;
      var newActiveIndex := activeNoteIndex;
      if indexToClose == activeNoteIndex {
        newActiveIndex := Max(0, indexToClose - 1);
      } else if indexToClose < activeNoteIndex {
        newActiveIndex := activeNoteIndex - 1;
      }
      WithoutIndexSpec(before, indexToClose);
      if Valid() && 0 <= indexToClose < |before| {
        CloseTabKeepsActiveNote(before, activeNoteIndex, indexToClose, now);
      }
      HandleUpdateNotes(newNotes);
      activeNoteIndex := newActiveIndex;
    }

    method HandleTitleChange(newTitle: string)
      modifies this
      ensures notes == WithTitleAt(old(notes), old(activeNoteIndex), newTitle)
      ensures activeNoteIndex == old(activeNoteIndex)
      ensures saveRequests == old(saveRequests) + [notes]
      ensures old(Valid()) ==> Valid()
    {
      HandleUpdateNotes(WithTitleAt(notes, activeNoteIndex, newTitle));
    }

    /** The editor's `onUpdate` with the editor's HTML `newContent`. */
    method OnEditorUpdate(newContent: string)
      modifies this
      ensures var r := EditorUpdate(old(notes), old(activeNoteIndex), newContent);
        && (r.Some? ==> notes == r.value && saveRequests == old(saveRequests) + [r.value])
        && (r.None? ==> notes == old(notes) && saveRequests == old(saveRequests))
      ensures activeNoteIndex == old(activeNoteIndex)
      ensures old(Valid()) ==> Valid()
    {
      if 0 <= activeNoteIndex < |notes| {
        var newNotes := EditorUpdate(notes, activeNoteIndex, newContent);
        if newNotes.Some? {
          HandleUpdateNotes(newNotes.value);
        }
      }
    }

    /** Choosing a tab makes it the active one. */
    method SelectTab(index: int)
      modifies this
      ensures activeNoteIndex == index
      ensures notes == old(notes) && saveRequests == old(saveRequests)
    {
      activeNoteIndex := index;
    }

    /** The effect run when the controller reports new notes. */
    method SyncFromRemote(remoteNotes: seq<Note>)
      modifies this
      ensures notes == remoteNotes
      ensures activeNoteIndex == SyncActiveIndex(old(activeNoteIndex), |remoteNotes|)
      ensures saveRequests == old(saveRequests)
      ensures old(activeNoteIndex) >= 0 ==> Valid()
    {
      if remoteNotes != notes {
        notes := remoteNotes;
      }
      if activeNoteIndex >= |remoteNotes| {
        activeNoteIndex := Max(0, |remoteNotes| - 1);
      }
    }
  }
}
