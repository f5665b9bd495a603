/**
 * The builder's linear undo/redo history: a list of snapshots with a cursor
 * (`history` and `currentHistoryIndex`). Committing drops the redo tail and
 * appends; undo and redo only move the cursor.
 */
module EditHistory {
  import opened FormModel

  datatype History = History(entries: seq<Snapshot>, cursor: nat) {

    /** `0 <= currentHistoryIndex < history.length` */
    predicate Valid() {
      cursor < |entries|
    }

    function Current(): Snapshot
      requires Valid()
    {
      entries[cursor]
    }

    /** The enabling conditions handed to the undo and redo buttons. */
    predicate CanUndo() {
      cursor > 0
    }

    predicate CanRedo() {
      cursor + 1 < |entries|
    }

    /** `saveToHistory`: keeps the entries up to the cursor, appends the new
        snapshot, and points the cursor at it; nothing is left to redo. */
    function Commit(s: Snapshot): (h: History)
      requires Valid()
      ensures h.Valid() && h.Current() == s && !h.CanRedo() && h.CanUndo()
      ensures h.cursor == cursor + 1 && h.entries[..h.cursor] == entries[..cursor + 1]
    {
      History(entries[..cursor + 1] + [s], cursor + 1)
    }

    /** `undo`: one step back when possible, otherwise nothing; the entries
        are never touched. */
    function Undo(): (h: History)
      requires Valid()
      ensures h.Valid() && h.entries == entries
      ensures CanUndo() ==> h.cursor + 1 == cursor
      ensures !CanUndo() ==> h == this
    {
      if cursor > 0 then History(entries, cursor - 1) else this
    }

    /** `redo`: one step forward when possible, otherwise nothing. */
    function Redo(): (h: History)
      requires Valid()
      ensures h.Valid() && h.entries == entries
      ensures CanRedo() ==> h.cursor == cursor + 1
      ensures !CanRedo() ==> h == this
    {
      if cursor < |entries| - 1 then History(entries, cursor + 1) else this
    }
  }

  /** The undo button is enabled exactly when undo would change something,
      and likewise for redo. */
  lemma EnabledIffEffective(h: History)
    requires h.Valid()
    ensures h.CanUndo() <==> h.Undo() != h
    ensures h.CanRedo() <==> h.Redo() != h
  {
  }

  /** Undo followed by redo, and redo followed by undo, come back to the same
      cursor and snapshot. */
  lemma UndoThenRedo(h: History)
    requires h.Valid() && h.CanUndo()
    ensures h.Undo().CanRedo() && h.Undo().Redo() == h
  {
  }

  lemma RedoThenUndo(h: History)
    requires h.Valid() && h.CanRedo()
    ensures h.Redo().CanUndo() && h.Redo().Undo() == h
  {
  }

  /** After a commit, undo returns to the snapshot that was current before
      it, and redo then restores the committed snapshot exactly. */
  lemma CommitUndoRedo(h: History, s: Snapshot)
    requires h.Valid()
    ensures h.Commit(s).Undo().Current() == h.Current()
    ensures h.Commit(s).Undo().Redo().Current() == s
  {
  }

  /** An edit made after an undo forgets the undone entry: the redo tail is
      replaced by the new snapshot. */
  lemma CommitAfterUndoDropsTail(h: History, s: Snapshot)
    requires h.Valid() && h.CanUndo()
    ensures |h.Undo().Commit(s).entries| == h.cursor + 1
    ensures h.Undo().Commit(s).entries[..h.cursor] == h.entries[..h.cursor]
    ensures h.Undo().Commit(s).Current() == s
  {
  }
}
