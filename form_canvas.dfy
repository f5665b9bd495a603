/**
 * The builder canvas: the palette drop target with its drag counter, and
 * drag-to-reorder among the fields, which a drop turns into one
 * single-step move per position between the dragged field and the target.
 */
module Canvas {
  import opened FormModel
  import opened EditHistory
  import opened Builder

  /** The position the dragged field has reached after `j` single-step
      moves from `from` towards `to`. */
  function WalkPosition(from: nat, to: nat, j: nat): int {
    if from < to then from + j else from - j
  }

  /** The snapshots a reorder walk commits, one per move: the j-th holds
      the list as it stood after j + 1 moves, with the dragged field
      relocated j + 1 positions along. */
  function Trail(fs: seq<Field>, from: nat, to: nat, steps: nat, s: Settings, name: string, description: string): (r: seq<Snapshot>)
    requires from < |fs| && to < |fs|
    requires if from < to then from + steps <= to else steps <= from - to
    ensures |r| == steps
    ensures forall j :: 0 <= j < steps ==>
      r[j] == Snapshot(Relocate(fs, from, WalkPosition(from, to, j + 1)), s, name, description)
  {
    if steps == 0 then []
    else
      Trail(fs, from, to, steps - 1, s, name, description) +
      [Snapshot(Relocate(fs, from, WalkPosition(from, to, steps)), s, name, description)]
  }

  /** The history as a walk leaves it after `moves` committed steps. */
  function Walked(h0: seq<Snapshot>, c0: nat, fs: seq<Field>, from: nat, to: nat, moves: nat, s: Settings, name: string, description: string): seq<Snapshot>
    requires c0 < |h0| && from < |fs| && to < |fs|
    requires if from < to then from + moves <= to else moves <= from - to
  {
    if moves == 0 then h0 else h0[..c0 + 1] + Trail(fs, from, to, moves, s, name, description)
  }

  /** One more commit extends the walked history by the next snapshot. */
  lemma WalkedStep(h0: seq<Snapshot>, c0: nat, fs: seq<Field>, from: nat, to: nat, moves: nat, s: Settings, name: string, description: string)
    requires c0 < |h0| && from < |fs| && to < |fs|
    requires if from < to then from + moves + 1 <= to else moves + 1 <= from - to
    ensures var h := Walked(h0, c0, fs, from, to, moves, s, name, description);
      c0 + moves < |h| &&
      h[..c0 + moves + 1] + [Snapshot(Relocate(fs, from, WalkPosition(from, to, moves + 1)), s, name, description)] ==
      Walked(h0, c0, fs, from, to, moves + 1, s, name, description)
  {
    var h := Walked(h0, c0, fs, from, to, moves, s, name, description);
    if moves > 0 {
      assert h[..c0 + moves + 1] == h;
    }
  }

  /** `isFirst` and `isLast` as the canvas passes them to each field card. */
  predicate IsFirst(index: nat) {
    index == 0
  }

  predicate IsLast(index: nat, fields: seq<Field>) {
    index == |fields| - 1
  }

  /** The card's move-up control is shown exactly when a move up would not
      be a no-op, and the move-down control likewise. */
  lemma ControlsMatchMoves(fields: seq<Field>, index: nat)
    requires DistinctIds(fields) && index < |fields|
    ensures !IsFirst(index) <==> !AtBoundary(fields, fields[index].id, Up)
    ensures !IsLast(index, fields) <==> !AtBoundary(fields, fields[index].id, Down)
  {
    IndexOfDistinct(fields, index);
  }

  /** The early return of `handleFieldDrop`: nothing (or an empty id) is
      being dragged, or the drop lands on the dragged field itself. */
  predicate DropIgnored(dragged: Option<string>, targetId: string) {
    dragged.None? || dragged.value == "" || dragged.value == targetId
  }

  predicate BothListed(fields: seq<Field>, draggedId: string, targetId: string) {
    HasId(fields, draggedId) && HasId(fields, targetId)
  }

  class FormCanvas {
    var isDraggingOver: bool
    var dragCounter: int
    var draggedFieldId: Option<string>
    var dragOverFieldId: Option<string>

    constructor ()
      ensures !isDraggingOver && dragCounter == 0 && draggedFieldId.None? && dragOverFieldId.None?
    {
      isDraggingOver := false;
      dragCounter := 0;
      draggedFieldId := None;
      dragOverFieldId := None;
    }

    /** `handleDragOver` */
    method DragOver()
      modifies this`isDraggingOver
      ensures isDraggingOver
    {
      isDraggingOver := true;
    }

    /** `handleDragEnter` */
    method DragEnter()
      modifies this`dragCounter, this`isDraggingOver
      ensures dragCounter == old(dragCounter) + 1 && isDraggingOver
    {
      dragCounter := dragCounter + 1;
      isDraggingOver := true;
    }

    /** `handleDragLeave`: decrements the counter, and clears the highlight
        when the counter as it was before this event was at most 1. */
    method DragLeave()
      modifies this`dragCounter, this`isDraggingOver
      ensures dragCounter == old(dragCounter) - 1
      ensures isDraggingOver == (old(dragCounter) > 1 && old(isDraggingOver))
    {
      var seen := dragCounter;
      dragCounter := dragCounter - 1;
      if seen <= 1 {
        isDraggingOver := false;
      }
    }

    /** `handleDrop` on the canvas: resets the counter and the highlight,
        and adds a field of the dropped type, under an id never used
        before and with one history entry committed, exactly when the type
        is non-empty. */
    method HandleDrop(fieldType: string, builder: FormBuilder)
      requires builder.Valid()
      modifies this`dragCounter, this`isDraggingOver, builder`fields, builder`history, builder`cursor
      ensures builder.Valid()
      ensures dragCounter == 0 && !isDraggingOver
      ensures fieldType == "" ==> builder.fields == old(builder.fields) && builder.Timeline() == old(builder.Timeline())
      ensures fieldType != "" ==>
        |builder.fields| == |old(builder.fields)| + 1 &&
        builder.fields[..|old(builder.fields)|] == old(builder.fields) &&
        builder.fields[|old(builder.fields)|] == NewField(fieldType, builder.fields[|old(builder.fields)|].id) &&
        builder.fields[|old(builder.fields)|].id !in old(builder.UsedIds()) &&
        builder.Timeline() == if builder.restoring then old(builder.Timeline()) else old(builder.Timeline()).Commit(builder.Live())
    {
      dragCounter := 0;
      isDraggingOver := false;
      if fieldType != "" {
        builder.HandleDrop(fieldType);
      }
    }

    /** `handleFieldDragStart` */
    method FieldDragStart(fieldId: string)
      modifies this`draggedFieldId
      ensures draggedFieldId == Some(fieldId)
    {
      draggedFieldId := Some(fieldId);
    }

    /** `handleFieldDragOver`: highlights the hovered field, unless it is the
        one being dragged. */
    method FieldDragOver(fieldId: string)
      modifies this`dragOverFieldId
      ensures dragOverFieldId == if draggedFieldId == Some(fieldId) then old(dragOverFieldId) else Some(fieldId)
    {
      if draggedFieldId == Some(fieldId) {
        return;
      }
      dragOverFieldId := Some(fieldId);
    }

    /** `handleFieldDragLeave` */
    method FieldDragLeave()
      modifies this`dragOverFieldId
      ensures dragOverFieldId.None?
    {
      dragOverFieldId := None;
    }

    /** `handleFieldDragEnd` */
    method FieldDragEnd()
      modifies this`draggedFieldId, this`dragOverFieldId
      ensures draggedFieldId.None? && dragOverFieldId.None?
    {
      draggedFieldId := None;
      dragOverFieldId := None;
    }

    /** `handleFieldDrop` with the moves applied one after another: no
        dragged field (or an empty id), or a drop onto the dragged field
        itself, clears both drag ids and moves nothing; an id missing from
        the list moves nothing and clears nothing; otherwise the walk issues
        one move per position between the two, which relocates the dragged
        field to the target's index and commits one snapshot per move. */
    method HandleFieldDrop(targetId: string, builder: FormBuilder) returns (moves: nat)
      requires builder.Valid()
      modifies this`draggedFieldId, this`dragOverFieldId, builder`fields, builder`history, builder`cursor
      ensures builder.Valid()
      ensures DropIgnored(old(draggedFieldId), targetId) ==>
        moves == 0 && draggedFieldId.None? && dragOverFieldId.None? &&
        builder.fields == old(builder.fields) && builder.Timeline() == old(builder.Timeline())
      ensures !DropIgnored(old(draggedFieldId), targetId) && !BothListed(old(builder.fields), old(draggedFieldId).value, targetId) ==>
        moves == 0 && draggedFieldId == old(draggedFieldId) && dragOverFieldId == old(dragOverFieldId) &&
        builder.fields == old(builder.fields) && builder.Timeline() == old(builder.Timeline())
      ensures !DropIgnored(old(draggedFieldId), targetId) && BothListed(old(builder.fields), old(draggedFieldId).value, targetId) ==>
        var from := IndexOf(old(builder.fields), old(draggedFieldId).value);
        var to := IndexOf(old(builder.fields), targetId);
        from != to &&
        moves == (if from < to then to - from else from - to) &&
        builder.fields == Relocate(old(builder.fields), from, to) &&
        draggedFieldId.None? && dragOverFieldId.None? &&
        (builder.restoring ==> builder.Timeline() == old(builder.Timeline())) &&
        (!builder.restoring ==>
          builder.cursor == old(builder.cursor) + moves &&
          builder.history == old(builder.history)[..old(builder.cursor) + 1] +
            Trail(old(builder.fields), from, to, moves, builder.settings, builder.formName, builder.formDescription))
    {
      if draggedFieldId.None? || draggedFieldId.value == "" || draggedFieldId.value == targetId {
        draggedFieldId := None;
        dragOverFieldId := None;
        return 0;
      }
      var dragged := draggedFieldId.value;
      var draggedIndex := IndexOf(builder.fields, dragged);
      var targetIndex := IndexOf(builder.fields, targetId);
      if draggedIndex == -1 || targetIndex == -1 {
        return 0;
      }
      if draggedIndex < targetIndex {
        moves := WalkDown(builder, dragged, draggedIndex, targetIndex);
      } else {
        moves := WalkUp(builder, dragged, draggedIndex, targetIndex);
      }
      draggedFieldId := None;
      dragOverFieldId := None;
    }
  }

  /** One `onMove` call of the walk, made when the dragged field is known to
      sit at `i` and to have a neighbour in that direction. */
  method MoveOnce(builder: FormBuilder, dragged: string, i: nat, direction: Direction)
    requires builder.Valid() && i < |builder.fields| && builder.fields[i].id == dragged
    requires 0 <= Neighbour(i, direction) < |builder.fields|
    modifies builder`fields, builder`history, builder`cursor
    ensures builder.Valid()
    ensures builder.fields == Swap(old(builder.fields), i, Neighbour(i, direction))
    ensures builder.restoring ==> builder.history == old(builder.history) && builder.cursor == old(builder.cursor)
    ensures !builder.restoring ==>
      builder.history == old(builder.history)[..old(builder.cursor) + 1] + [builder.Live()] &&
      builder.cursor == old(builder.cursor) + 1
  {
    IndexOfDistinct(builder.fields, i);
    builder.HandleMove(dragged, direction);
  }

  /** Where a walk from `from` towards `to` stands after `moves` moves, with
      the dragged field at `i`: the list is the original one with that field
      relocated to `i`, and every move so far has been committed (or none,
      while a restore is under way). */
  ghost predicate OnWalk(builder: FormBuilder, fs0: seq<Field>, h0: seq<Snapshot>, c0: nat, from: nat, to: nat, i: nat, moves: nat)
    reads builder
  {
    from < |fs0| && to < |fs0| && c0 < |h0| &&
    (if from < to then from <= i <= to && moves == i - from else to <= i <= from && moves == from - i) &&
    builder.Valid() &&
    builder.fields == Relocate(fs0, from, i) &&
    (builder.restoring ==> builder.history == h0 && builder.cursor == c0) &&
    (!builder.restoring ==>
      builder.cursor == c0 + moves &&
      builder.history == Walked(h0, c0, fs0, from, to, moves, builder.settings, builder.formName, builder.formDescription))
  }

  /** One iteration of either loop: the dragged field moves one position
      towards `to` and the walk advances by one move. */
  method WalkStep(builder: FormBuilder, dragged: string, ghost fs0: seq<Field>, ghost h0: seq<Snapshot>, ghost c0: nat,
                  from: nat, to: nat, i: nat, ghost moves: nat)
    requires OnWalk(builder, fs0, h0, c0, from, to, i, moves) && i != to && fs0[from].id == dragged
    modifies builder`fields, builder`history, builder`cursor
    ensures OnWalk(builder, fs0, h0, c0, from, to, if from < to then i + 1 else i - 1, moves + 1)
  {
    var direction := if from < to then Down else Up;
    var next := if from < to then i + 1 else i - 1;
    if from < to {
      RelocateStepDown(fs0, from, i);
    } else {
      RelocateStepUp(fs0, from, i);
    }
    WalkedStep(h0, c0, fs0, from, to, moves, builder.settings, builder.formName, builder.formDescription);
    assert WalkPosition(from, to, moves + 1) == next;
    assert builder.fields[i].id == dragged && Neighbour(i, direction) == next;
    ghost var committed := Snapshot(Relocate(fs0, from, next), builder.settings, builder.formName, builder.formDescription);
    ghost var walked := Walked(h0, c0, fs0, from, to, moves + 1, builder.settings, builder.formName, builder.formDescription);
    assert !builder.restoring ==> builder.history[..builder.cursor + 1] + [committed] == walked;
    MoveOnce(builder, dragged, i, direction);
    assert builder.fields == Relocate(fs0, from, next);
    if !builder.restoring {
      assert builder.Live() == committed;
      assert builder.history == walked;
    }
  }

  /** The first loop of `handleFieldDrop`: `to - from` moves down. */
  method WalkDown(builder: FormBuilder, dragged: string, from: nat, to: nat) returns (moves: nat)
    requires builder.Valid() && from < to < |builder.fields| && builder.fields[from].id == dragged
    modifies builder`fields, builder`history, builder`cursor
    ensures builder.Valid() && moves == to - from
    ensures builder.fields == Relocate(old(builder.fields), from, to)
    ensures builder.restoring ==> builder.Timeline() == old(builder.Timeline())
    ensures !builder.restoring ==>
      builder.cursor == old(builder.cursor) + moves &&
      builder.history == Walked(old(builder.history), old(builder.cursor), old(builder.fields), from, to, moves,
        builder.settings, builder.formName, builder.formDescription)
  {
    ghost var fs0, h0, c0 := builder.fields, builder.history, builder.cursor;
    moves := 0;
    var i: nat := from;
    RelocateInPlace(fs0, from);
    assert OnWalk(builder, fs0, h0, c0, from, to, i, moves);
    while i < to
      invariant OnWalk(builder, fs0, h0, c0, from, to, i, moves)
    {
      WalkStep(builder, dragged, fs0, h0, c0, from, to, i, moves);
      i := i + 1;
      moves := moves + 1;
    }
  }

  /** The second loop of `handleFieldDrop`: `from - to` moves up. */
  method WalkUp(builder: FormBuilder, dragged: string, from: nat, to: nat) returns (moves: nat)
    requires builder.Valid() && to < from < |builder.fields| && builder.fields[from].id == dragged
    modifies builder`fields, builder`history, builder`cursor
    ensures builder.Valid() && moves == from - to
    ensures builder.fields == Relocate(old(builder.fields), from, to)
    ensures builder.restoring ==> builder.Timeline() == old(builder.Timeline())
    ensures !builder.restoring ==>
      builder.cursor == old(builder.cursor) + moves &&
      builder.history == Walked(old(builder.history), old(builder.cursor), old(builder.fields), from, to, moves,
        builder.settings, builder.formName, builder.formDescription)
  {
    ghost var fs0, h0, c0 := builder.fields, builder.history, builder.cursor;
    moves := 0;
    var i: nat := from;
    RelocateInPlace(fs0, from);
    assert OnWalk(builder, fs0, h0, c0, from, to, i, moves);
    while i > to
      invariant OnWalk(builder, fs0, h0, c0, from, to, i, moves)
    {
      WalkStep(builder, dragged, fs0, h0, c0, from, to, i, moves);
      i := i - 1;
      moves := moves + 1;
    }
  }

  // ---------------------------------------------------------------------
  // The same drop with the moves as the running code applies them

  /** `n` calls of `handleMove(id, direction)` made inside one event
      handler: every call sees the `fields` and `currentHistoryIndex` of the
      same render, so each call swaps the same original list; the history
      updater slices at the same stale index each time, and the index
      updater adds one per call. */
  function StaleMoveBurst(s: Session, id: string, direction: Direction, n: nat): (r: Session)
    requires s.timeline.Valid() && HasId(s.live.fields, id)
    ensures n == 0 || AtBoundary(s.live.fields, id, direction) ==> r == s
    ensures n > 0 && !AtBoundary(s.live.fields, id, direction) ==>
      var i := IndexOf(s.live.fields, id);
      r.live.fields == Swap(s.live.fields, i, Neighbour(i, direction)) &&
      r.timeline.entries == s.timeline.Commit(r.live).entries &&
      r.timeline.cursor == s.timeline.cursor + n
  {
    var fs := s.live.fields;
    var i := IndexOf(fs, id);
    if n == 0 || AtBoundary(fs, id, direction) then s
    else
      var live := s.live.(fields := Swap(fs, i, Neighbour(i, direction)));
      var c := s.timeline.cursor;
      Session(live, History(s.timeline.entries[..c + 1] + [live], c + n))
  }

  /** Whatever the number of calls, the burst swaps once and commits one
      entry, while the cursor moves by the number of calls: from two calls
      on, it points past the end of the history. */
  lemma StaleBurstOutcome(s: Session, id: string, direction: Direction, n: nat)
    requires s.timeline.Valid() && HasId(s.live.fields, id)
    requires n >= 2 && !AtBoundary(s.live.fields, id, direction)
    ensures var r := StaleMoveBurst(s, id, direction, n);
      var i := IndexOf(s.live.fields, id);
      r.live.fields == Swap(s.live.fields, i, Neighbour(i, direction)) &&
      |r.timeline.entries| == s.timeline.cursor + 2 &&
      r.timeline.cursor == s.timeline.cursor + n &&
      !r.timeline.Valid()
  {
  }

  /** The witness: dragging the first of three fields onto the third. The
      walk ends with the dragged field last; the burst leaves it in the
      middle, with the cursor one past the end of a two-entry history. */
  lemma StaleBurstWitness()
    ensures var a, b, c := NewField("text", "a"), NewField("text", "b"), NewField("text", "c");
      var start := Snapshot([a, b, c], DefaultSettings, UntitledForm, "");
      var s := Session(start, History([start], 0));
      IndexOf([a, b, c], "a") == 0 &&
      var r := StaleMoveBurst(s, "a", Down, 2);
      Relocate([a, b, c], 0, 2) == [b, c, a] &&
      r.live.fields == [b, a, c] &&
      |r.timeline.entries| == 2 && r.timeline.cursor == 2
  {
    var a, b, c := NewField("text", "a"), NewField("text", "b"), NewField("text", "c");
    var fs := [a, b, c];
    assert IndexOf(fs, "a") == 0;
    assert HasId(fs, "a") by { assert fs[0].id == "a"; }
    var r := Relocate(fs, 0, 2);
    assert r == [b, c, a] by {
      assert r[0] == fs[1] && r[1] == fs[2] && r[2] == fs[0];
    }
  }
}
