/**
 * The piano-roll editor of the GUI (gui/roll-reduce.ts over the types of
 * gui/roll.tsx, gui/roll-util.ts and gui/types.ts): mouse gestures create,
 * delete and resize the notes of the pattern being edited, and a small
 * state machine tracks what the mouse is doing.
 */
module RollReduce {
  import opened Wrappers

  /** Layout constants of gui/roll-util.ts, in pixels. */
  const SCALE: int := 2
  const PIANO_WIDTH: int := 58 * SCALE
  const GUTTER_WIDTH: int := 8 * SCALE
  const PITCH_HEIGHT: int := 8
  const PIXELS_PER_TICK: int := 6 * SCALE

  /** Horizontal drag, in pixels, beyond which a press on a note becomes a resize. */
  const DRAG_THRESHOLD: real := 5.0

  /** What a JavaScript property write through a missing array element throws. */
  const TYPE_ERROR: string := "TypeError"
  const IMPOSSIBLE: string := "impossible"

  datatype Point = Point(x: real, y: real)

  /** A note: a pitch held from tick `time0` to tick `time1`. */
  datatype Note = Note(pitch: int, time0: real, time1: real)

  /** A note of a pattern, with the identifier the editor gave it. */
  datatype IdNote = IdNote(note: Note, id: string)

  datatype Pattern = Pattern(length: real, notes: seq<IdNote>)

  /** A point in musical coordinates, with the canvas point it came from. */
  datatype MPoint = MPoint(pitch: int, time: real, x: real, y: real)

  /** What the mouse is doing: hovering, pressed (and maybe dragging), or resizing note `noteIx`. */
  datatype RollMouseState =
    | Hover(mp: Option<MPoint>)
    | Down(orig: MPoint, now: Option<MPoint>)
    | ResizeNote(fromRight: bool, orig: MPoint, now: Option<MPoint>, note: Note, noteIx: int)

  datatype RollMouseAction =
    | Mousemove(pInCanvas: Point)
    | Mousedown(pInCanvas: Point)
    | Mouseup
    | Mouseleave

  datatype Style = Piano | Drums

  /**
   * The editor's note counter as a JavaScript value: absent (`undefined`),
   * `NaN` (what adding 1 to an absent counter gives), or a number.
   */
  datatype Counter = Undefined | NotANumber | Num(n: nat)

  /** The editor state; `nextId` numbers the notes the editor creates. */
  datatype RollEditorState = RollEditorState(
    offsetTicks: Option<real>,
    debugOffsetTicks: Option<real>,
    useOffsetTicks: real,
    mouseState: RollMouseState,
    gridSize: real,
    noteSize: real,
    scrollOctave: real,
    style: Style,
    pattern: Pattern,
    previewNote: Option<Note>,
    w: real,
    h: real,
    nextId: Counter)

  /**
   * The editor helpers the reducer calls whose definitions are not part of
   * this model: grid snapping, restriction of a new note to the editable
   * area, snapping of a drag distance, the pattern being edited, and the
   * pitch at the top of the view for a scroll position.
   */
  datatype Helpers = Helpers(
    snapToGrid: (real, real, MPoint) -> Note,
    restrictAtState: (Note, RollEditorState) -> Option<Note>,
    augmentAndSnap: real -> real,
    currentPat: RollEditorState -> Option<Pattern>,
    y0pitchOfScrollOctave: real -> int)

  /** `getCurrentNotes` (gui/accessors.ts): the notes of the pattern being edited. */
  function CurrentNotes(state: RollEditorState): seq<IdNote>
  {
    state.pattern.notes
  }

  /** `updateCurrentNotes`: the state with the pattern's notes replaced. */
  function WithNotes(state: RollEditorState, notes: seq<IdNote>): (s: RollEditorState)
    ensures CurrentNotes(s) == notes
  {
    state.(pattern := state.pattern.(notes := notes))
  }

  /** The note covers the point: same pitch, and the time within the note's span, ends included. */
  predicate NoteAt(n: Note, mp: MPoint)
  {
    n.pitch == mp.pitch && n.time0 <= mp.time && n.time1 >= mp.time
  }

  /** `find_note_at_mpoint`: the last note covering the point, if any. */
  function FindNoteAtMpoint(notes: seq<IdNote>, mp: MPoint): (r: Option<IdNote>)
    ensures r.None? <==> forall j :: 0 <= j < |notes| ==> !NoteAt(notes[j].note, mp)
    ensures r.Some? ==> r.value in notes && NoteAt(r.value.note, mp)
  {
    if notes == [] then None
    else if NoteAt(notes[|notes| - 1].note, mp) then Some(notes[|notes| - 1])
    else FindNoteAtMpoint(notes[..|notes| - 1], mp)
  }

  /** `find_note_index_at_mpoint`: the index of the last note covering the point, or -1. */
  function FindNoteIndexAtMpoint(notes: seq<IdNote>, mp: MPoint): (i: int)
    ensures -1 <= i < |notes|
    ensures i >= 0 ==> NoteAt(notes[i].note, mp)
    ensures forall j :: i < j < |notes| ==> !NoteAt(notes[j].note, mp)
  {
    if notes == [] then -1
    else if NoteAt(notes[|notes| - 1].note, mp) then |notes| - 1
    else FindNoteIndexAtMpoint(notes[..|notes| - 1], mp)
  }

  /** The two searches agree: the note found is the one at the index found. */
  lemma {:induction false} FindersAgree(notes: seq<IdNote>, mp: MPoint)
    ensures FindNoteIndexAtMpoint(notes, mp) == -1 <==> FindNoteAtMpoint(notes, mp).None?
    ensures FindNoteIndexAtMpoint(notes, mp) >= 0 ==> FindNoteAtMpoint(notes, mp) == Some(notes[FindNoteIndexAtMpoint(notes, mp)])
  {
    if notes != [] && !NoteAt(notes[|notes| - 1].note, mp) {
      FindersAgree(notes[..|notes| - 1], mp);
    }
  }

  /** `xd_of_ticksd`: a horizontal distance in ticks, in pixels. */
  function XdOfTicksd(ticksd: real): real
  {
    ticksd * PIXELS_PER_TICK as real
  }

  /** `mpoint_from_canvas`: the pitch row and tick under a canvas point. */
  function MpointFromCanvas(p: Point, scrollOctave: real, y0pitch: real -> int): (mp: MPoint)
    ensures mp.x == p.x && mp.y == p.y
    ensures XdOfTicksd(mp.time) + (PIANO_WIDTH + GUTTER_WIDTH + SCALE) as real == p.x
    ensures 0.0 <= p.y < (SCALE * PITCH_HEIGHT) as real ==> mp.pitch == y0pitch(scrollOctave)
  {
    MPoint(y0pitch(scrollOctave) - (p.y / (SCALE * PITCH_HEIGHT) as real).Floor,
           (p.x - (PIANO_WIDTH + GUTTER_WIDTH + SCALE) as real) / PIXELS_PER_TICK as real,
           p.x, p.y)
  }

  /** One pitch row is `SCALE * PITCH_HEIGHT` pixels high: moving down one row lowers the pitch by one. */
  lemma PitchRows(p: Point, scrollOctave: real, y0pitch: real -> int)
    ensures MpointFromCanvas(p.(y := p.y + (SCALE * PITCH_HEIGHT) as real), scrollOctave, y0pitch).pitch
         == MpointFromCanvas(p, scrollOctave, y0pitch).pitch - 1
  {
    assert (p.y + 16.0) / 16.0 == p.y / 16.0 + 1.0;
  }

  /** The decimal digits of `n`. */
  function Digits(n: nat): (s: string)
    ensures |s| >= 1 && forall i :: 0 <= i < |s| ==> '0' <= s[i] <= '9'
    ensures n >= 10 ==> |s| >= 2
  {
    if n < 10 then [(48 + n) as char] else Digits(n / 10) + [(48 + n % 10) as char]
  }

  /** Different numbers have different decimal forms. */
  lemma {:induction false} DigitsInjective(a: nat, b: nat)
    requires Digits(a) == Digits(b)
    ensures a == b
  {
    if a >= 10 && b >= 10 {
      var da, db := Digits(a), Digits(b);
      assert da[..|da| - 1] == Digits(a / 10);
      assert db[..|db| - 1] == Digits(b / 10);
      DigitsInjective(a / 10, b / 10);
      assert da[|da| - 1] == db[|db| - 1];
    } else if a < 10 && b < 10 {
      assert Digits(a)[0] == Digits(b)[0];
    }
  }

  /** The identifier the editor gives the note it creates as its `n`-th: `"n"` then `n` in decimal. */
  function NoteId(n: nat): (id: string)
    ensures |id| >= 2 && id[0] == 'n'
  {
    "n" + Digits(n)
  }

  /** `next_id + 1` in JavaScript: `undefined + 1` and `NaN + 1` are both `NaN`. */
  function Incremented(c: Counter): (r: Counter)
    ensures r.Num? <==> c.Num?
    ensures c.Num? ==> r.n == c.n + 1
  {
    match c
    case Undefined => NotANumber
    case NotANumber => NotANumber
    case Num(n) => Num(n + 1)
  }

  /** `"n" + next_id` in JavaScript: the counter's decimal text, or `"nundefined"` / `"nNaN"`. */
  function CounterId(c: Counter): (id: string)
    ensures c.Num? ==> id == NoteId(c.n)
    ensures c.Undefined? ==> id == "nundefined"
    ensures c.NotANumber? ==> id == "nNaN"
  {
    match c
    case Undefined => "n" + "undefined"
    case NotANumber => "n" + "NaN"
    case Num(n) => NoteId(n)
  }

  /** The counter after `k` creations. */
  function IncrementedTimes(c: Counter, k: nat): Counter
  {
    if k == 0 then c else Incremented(IncrementedTimes(c, k - 1))
  }

  /**
   * A counter that starts absent never becomes a number: the first note
   * created gets `"nundefined"` and every later one gets the same `"nNaN"`,
   * so from the second creation on identifiers repeat.
   */
  lemma {:induction false} AbsentCounterRepeatsIds(k: nat)
    ensures CounterId(IncrementedTimes(Undefined, 0)) == "nundefined"
    ensures k >= 1 ==> IncrementedTimes(Undefined, k) == NotANumber && CounterId(IncrementedTimes(Undefined, k)) == "nNaN"
  {
    if k > 1 {
      AbsentCounterRepeatsIds(k - 1);
    }
  }

  /** Identifiers of different creations differ. */
  lemma NoteIdInjective(a: nat, b: nat)
    ensures NoteId(a) == NoteId(b) ==> a == b
  {
    if NoteId(a) == NoteId(b) {
      assert NoteId(a)[1..] == Digits(a);
      assert NoteId(b)[1..] == Digits(b);
      DigitsInjective(a, b);
    }
  }

  /** The notes whose identifier is not `id`, in their order. */
  function WithoutId(notes: seq<IdNote>, id: string): (r: seq<IdNote>)
    ensures |r| <= |notes|
    ensures forall n :: n in r <==> n in notes && n.id != id
  {
    if notes == [] then []
    else
      var rest := WithoutId(notes[..|notes| - 1], id);
      assert notes == notes[..|notes| - 1] + [notes[|notes| - 1]];
      if notes[|notes| - 1].id != id then rest + [notes[|notes| - 1]] else rest
  }

  /** The notes with note `ix`'s end set to `t`, or the failure of a missing note. */
  function SetEnd(notes: seq<IdNote>, ix: int, t: real): (r: Result<seq<IdNote>>)
    ensures r.Err? <==> !(0 <= ix < |notes|)
    ensures r.Ok? ==> |r.value| == |notes| && r.value[ix] == notes[ix].(note := notes[ix].note.(time1 := t))
    ensures r.Ok? ==> forall j :: 0 <= j < |notes| && j != ix ==> r.value[j] == notes[j]
  {
    if 0 <= ix < |notes| then Ok(notes[ix := notes[ix].(note := notes[ix].note.(time1 := t))]) else Err(TYPE_ERROR)
  }

  /** The notes with note `ix`'s start set to `t`, or the failure of a missing note. */
  function SetBegin(notes: seq<IdNote>, ix: int, t: real): (r: Result<seq<IdNote>>)
    ensures r.Err? <==> !(0 <= ix < |notes|)
    ensures r.Ok? ==> |r.value| == |notes| && r.value[ix] == notes[ix].(note := notes[ix].note.(time0 := t))
    ensures r.Ok? ==> forall j :: 0 <= j < |notes| && j != ix ==> r.value[j] == notes[j]
  {
    if 0 <= ix < |notes| then Ok(notes[ix := notes[ix].(note := notes[ix].note.(time0 := t))]) else Err(TYPE_ERROR)
  }

  function Max(a: real, b: real): real { if a >= b then a else b }
  function Min(a: real, b: real): real { if a <= b then a else b }

  /**
   * `rollReduceMouse`: the effect of a mouse action on the notes.
   * Releasing a press deletes every note with the identifier of the note under
   * the press point (remembering its length as the new default), or, on empty
   * space, creates a snapped note with a fresh identifier. Moving while
   * resizing drags one end of the note, keeping it at least one tick long and
   * inside the pattern.
   */
  function RollReduceMouse(h: Helpers, state: RollEditorState, ms: RollMouseState, a: RollMouseAction): Result<RollEditorState>
  {
    var notes := CurrentNotes(state);
    match ms
    case Hover(_) => Ok(state)
    case Down(orig, _) =>
      if !a.Mouseup? then Ok(state)
      else
        (match FindNoteAtMpoint(notes, orig)
         case Some(note) =>
           Ok(WithNotes(state, WithoutId(notes, note.id)).(noteSize := note.note.time1 - note.note.time0))
         case None =>
           (match h.restrictAtState(h.snapToGrid(state.gridSize, state.noteSize, orig), state)
            case None => Ok(state)
            case Some(sn) =>
              Ok(WithNotes(state, notes + [IdNote(sn, CounterId(state.nextId))]).(nextId := Incremented(state.nextId)))))
    case ResizeNote(fromRight, orig, now, note, noteIx) =>
      if !a.Mousemove? || now.None? then Ok(state)
      else
        var oldLength := note.time1 - note.time0;
        var lengthDiff := h.augmentAndSnap(now.value.time - orig.time);
        if fromRight then
          var newLength := Max(1.0, lengthDiff + oldLength);
          (match h.currentPat(state)
           case None => Ok(state)
           case Some(pat) =>
             var newEnd := Min(pat.length, note.time0 + newLength);
             (match SetEnd(notes, noteIx, newEnd)
              case Err(e) => Err(e)
              case Ok(ns) => Ok(WithNotes(state, ns).(noteSize := newLength))))
        else
          var newLength := Max(1.0, oldLength - lengthDiff);
          var newBegin := Max(0.0, note.time1 - newLength);
          (match SetBegin(notes, noteIx, newBegin)
           case Err(e) => Err(e)
           case Ok(ns) => Ok(WithNotes(state, ns).(noteSize := newLength)))
  }

  /**
   * `rollNewMouseState`: the mouse state machine. A press while already
   * pressed or resizing cannot happen and fails with "impossible".
   */
  function RollNewMouseState(h: Helpers, state: RollEditorState, ms: RollMouseState, a: RollMouseAction): Result<RollMouseState>
  {
    var notes := CurrentNotes(state);
    match ms
    case Hover(_) =>
      (match a
       case Mousemove(p) => Ok(Hover(Some(MpointFromCanvas(p, state.scrollOctave, h.y0pitchOfScrollOctave))))
       case Mousedown(p) =>
         var mp := MpointFromCanvas(p, state.scrollOctave, h.y0pitchOfScrollOctave);
         Ok(Down(mp, Some(mp)))
       case Mouseup => Ok(ms)
       case Mouseleave => Ok(Hover(None)))
    case Down(orig, now) =>
      (match a
       case Mousemove(p) =>
         var pb := MpointFromCanvas(p, state.scrollOctave, h.y0pitchOfScrollOctave);
         var ix := if XdOfTicksd(Abs(orig.time - pb.time)) > DRAG_THRESHOLD then FindNoteIndexAtMpoint(notes, orig) else -1;
         if ix != -1 then
           var note := notes[ix].note;
           Ok(ResizeNote(orig.time > (note.time0 + note.time1) / 2.0, orig, Some(pb), note, ix))
         else Ok(Down(orig, Some(pb)))
       case Mousedown(_) => Err(IMPOSSIBLE)
       case Mouseup => Ok(Hover(now))
       case Mouseleave => Ok(Down(orig, None)))
    case ResizeNote(fromRight, orig, now, note, noteIx) =>
      (match a
       case Mousemove(p) =>
         Ok(ResizeNote(fromRight, orig, Some(MpointFromCanvas(p, state.scrollOctave, h.y0pitchOfScrollOctave)), note, noteIx))
       case Mousedown(_) => Err(IMPOSSIBLE)
       case Mouseup => Ok(Hover(now))
       case Mouseleave => Ok(ResizeNote(fromRight, orig, None, note, noteIx)))
  }

  function Abs(x: real): real { if x < 0.0 then -x else x }

  /** `rollReduce`: the notes after the action, with the mouse state moved on. */
  function RollReduce(h: Helpers, state: RollEditorState, a: RollMouseAction): (r: Result<RollEditorState>)
    ensures r.Ok? <==> RollReduceMouse(h, state, state.mouseState, a).Ok? && RollNewMouseState(h, state, state.mouseState, a).Ok?
    ensures r.Ok? ==> r.value.mouseState == RollNewMouseState(h, state, state.mouseState, a).value
    ensures r.Ok? ==> r.value.(mouseState := state.mouseState) == RollReduceMouse(h, state, state.mouseState, a).value.(mouseState := state.mouseState)
  {
    match RollReduceMouse(h, state, state.mouseState, a)
    case Err(e) => Err(e)
    case Ok(nst) =>
      (match RollNewMouseState(h, state, state.mouseState, a)
       case Err(e) => Err(e)
       case Ok(nmst) => Ok(nst.(mouseState := nmst)))
  }

  /**
   * A move while pressed starts a resize exactly when the drag is wider than
   * the threshold and some note lies under the press point; the note chosen
   * is the last such one, grabbed by its right end when the press was past
   * its midpoint. Otherwise the press just follows the mouse.
   */
  lemma DownMoveStartsResize(h: Helpers, state: RollEditorState, orig: MPoint, now: Option<MPoint>, p: Point)
    requires state.mouseState == Down(orig, now)
    ensures var pb := MpointFromCanvas(p, state.scrollOctave, h.y0pitchOfScrollOctave);
      var notes := CurrentNotes(state);
      var r := RollNewMouseState(h, state, state.mouseState, Mousemove(p));
      && r.Ok?
      && (r.value.ResizeNote? <==>
            XdOfTicksd(Abs(orig.time - pb.time)) > DRAG_THRESHOLD && exists j :: 0 <= j < |notes| && NoteAt(notes[j].note, orig))
      && (r.value.ResizeNote? ==>
            && 0 <= r.value.noteIx < |notes|
            && r.value.note == notes[r.value.noteIx].note
            && NoteAt(r.value.note, orig)
            && (forall j :: r.value.noteIx < j < |notes| ==> !NoteAt(notes[j].note, orig))
            && (r.value.fromRight <==> orig.time > (r.value.note.time0 + r.value.note.time1) / 2.0)
            && r.value.orig == orig && r.value.now == Some(pb))
      && (!r.value.ResizeNote? ==> r.value == Down(orig, Some(pb)))
  {
  }

  /** A press from hovering records the press point as both the origin and the current point. */
  lemma PressFromHover(h: Helpers, state: RollEditorState, mp: Option<MPoint>, p: Point)
    requires state.mouseState == Hover(mp)
    ensures var r := RollReduce(h, state, Mousedown(p));
      && r.Ok?
      && r.value.mouseState.Down?
      && r.value.mouseState.now == Some(r.value.mouseState.orig)
      && r.value.mouseState.orig.x == p.x && r.value.mouseState.orig.y == p.y
      && r.value.(mouseState := state.mouseState) == state
  {
  }

  /** A resize gesture refers to a note of the pattern, by index. */
  predicate Consistent(state: RollEditorState)
  {
    state.mouseState.ResizeNote? ==> 0 <= state.mouseState.noteIx < |CurrentNotes(state)|
  }

  /**
   * From a consistent state the reducer fails exactly on a press while the
   * button is already down, and the state it produces is consistent again.
   */
  lemma RollReduceKeepsConsistent(h: Helpers, state: RollEditorState, a: RollMouseAction)
    requires Consistent(state)
    ensures RollReduce(h, state, a).Err? <==> a.Mousedown? && !state.mouseState.Hover?
    ensures RollReduce(h, state, a).Ok? ==> Consistent(RollReduce(h, state, a).value)
  {
  }

  /** The mouse state records no mouse position. */
  predicate NoMousePosition(ms: RollMouseState)
  {
    match ms
    case Hover(mp) => mp.None?
    case Down(_, now) => now.None?
    case ResizeNote(_, _, now, _, _) => now.None?
  }

  /** Releasing the button always ends in hovering; leaving the editor always forgets the mouse position. */
  lemma MouseUpAndLeave(h: Helpers, state: RollEditorState, a: RollMouseAction)
    requires Consistent(state)
    ensures a.Mouseup? ==> RollReduce(h, state, a).Ok? && RollReduce(h, state, a).value.mouseState.Hover?
    ensures a.Mouseleave? ==> RollReduce(h, state, a).Ok? && NoMousePosition(RollReduce(h, state, a).value.mouseState)
  {
  }

  /**
   * Releasing a press on a note deletes it: afterwards no note has its
   * identifier, every note with another identifier is kept, and the default
   * note length becomes the deleted note's length.
   */
  lemma ReleaseOnNoteDeletes(h: Helpers, state: RollEditorState, orig: MPoint, now: Option<MPoint>, note: IdNote)
    requires state.mouseState == Down(orig, now)
    requires FindNoteAtMpoint(CurrentNotes(state), orig) == Some(note)
    ensures RollReduce(h, state, Mouseup).Ok?
    ensures var s := RollReduce(h, state, Mouseup).value;
      && (forall n :: n in CurrentNotes(s) ==> n.id != note.id)
      && (forall n :: n in CurrentNotes(state) && n.id != note.id ==> n in CurrentNotes(s))
      && s.noteSize == note.note.time1 - note.note.time0
      && s.nextId == state.nextId
  {
  }

  /** Releasing a press on empty space creates one note, at the end, under the next identifier. */
  lemma ReleaseOnEmptyCreates(h: Helpers, state: RollEditorState, orig: MPoint, now: Option<MPoint>, sn: Note)
    requires state.mouseState == Down(orig, now)
    requires FindNoteAtMpoint(CurrentNotes(state), orig).None?
    requires h.restrictAtState(h.snapToGrid(state.gridSize, state.noteSize, orig), state) == Some(sn)
    ensures RollReduce(h, state, Mouseup).Ok?
    ensures var s := RollReduce(h, state, Mouseup).value;
      && CurrentNotes(s) == CurrentNotes(state) + [IdNote(sn, CounterId(state.nextId))]
      && s.nextId == Incremented(state.nextId)
      && s.mouseState == Hover(now)
  {
  }

  /** The counter is a number and no note uses an identifier that the editor will hand out later. */
  ghost predicate IdsFresh(state: RollEditorState)
  {
    && state.nextId.Num?
    && forall i, k :: 0 <= i < |CurrentNotes(state)| && k >= state.nextId.n ==> CurrentNotes(state)[i].id != NoteId(k)
  }

  /**
   * Identifiers stay fresh through every action, so a created note's
   * identifier is never shared with a note already in the pattern, and
   * deleting it deletes it alone.
   */
  lemma RollReduceKeepsIdsFresh(h: Helpers, state: RollEditorState, a: RollMouseAction)
    requires IdsFresh(state)
    ensures RollReduce(h, state, a).Ok? ==> IdsFresh(RollReduce(h, state, a).value)
    ensures forall i :: 0 <= i < |CurrentNotes(state)| ==> CurrentNotes(state)[i].id != CounterId(state.nextId)
  {
    var r := RollReduce(h, state, a);
    if r.Ok? {
      var s := r.value;
      forall i, k | 0 <= i < |CurrentNotes(s)| && k >= s.nextId.n
        ensures CurrentNotes(s)[i].id != NoteId(k)
      {
        var n := CurrentNotes(s)[i];
        if i < |CurrentNotes(state)| && n.id == CurrentNotes(state)[i].id {
        } else if n.id == NoteId(state.nextId.n) {
          NoteIdInjective(state.nextId.n, k);
        } else {
          assert n in CurrentNotes(state);
          var j :| 0 <= j < |CurrentNotes(state)| && CurrentNotes(state)[j] == n;
        }
      }
    }
  }

  /**
   * Dragging the right end keeps the note at least one tick long and inside
   * the pattern; dragging the left end keeps it at least one tick long and
   * after tick 0. No other note moves.
   */
  lemma ResizeClamps(h: Helpers, state: RollEditorState, a: RollMouseAction)
    requires state.mouseState.ResizeNote? && a.Mousemove?
    requires RollReduce(h, state, a).Ok?
    ensures var ms := state.mouseState;
      var s := RollReduce(h, state, a).value;
      |CurrentNotes(s)| == |CurrentNotes(state)|
    ensures var ms := state.mouseState;
      var s := RollReduce(h, state, a).value;
      forall j :: 0 <= j < |CurrentNotes(state)| && j != ms.noteIx ==> CurrentNotes(s)[j] == CurrentNotes(state)[j]
    ensures var ms := state.mouseState;
      var s := RollReduce(h, state, a).value;
      ms.now.Some? && ms.fromRight && h.currentPat(state).Some? ==>
        && s.noteSize >= 1.0
        && CurrentNotes(s)[ms.noteIx].note.time1 <= h.currentPat(state).value.length
    ensures var ms := state.mouseState;
      var s := RollReduce(h, state, a).value;
      ms.now.Some? && !ms.fromRight ==>
        && s.noteSize >= 1.0
        && CurrentNotes(s)[ms.noteIx].note.time0 >= 0.0
        && CurrentNotes(s)[ms.noteIx].note.time1 == CurrentNotes(state)[ms.noteIx].note.time1
  {
  }
}
