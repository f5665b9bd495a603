/**
 * The form builder's editing session: the live field list, settings, name
 * and description, the undo/redo history, the history re-entrancy guard and
 * the set of fields a previewing user has filled in. Every handler that
 * edits the field list commits one snapshot; undo and redo restore one.
 * Local storage is an explicit map, the clock an explicit `now`, and
 * `uuidv4()` the fresh-id oracle `FreshId`.
 */
module Builder {
  import opened FormModel
  import opened EditHistory

  /** How old a saved session may be and still be restored over a template:
      24 hours, in milliseconds. */
  const DayMs: int := 24 * 60 * 60 * 1000

  /** `SavedState`: the blob kept in local storage. */
  datatype SavedState = SavedState(
    fields: seq<Field>,
    settings: Settings,
    formName: string,
    formDescription: string,
    history: seq<Snapshot>,
    currentHistoryIndex: int,
    lastSaved: int)

  /** The whole editing session as one value: the live state and the history. */
  datatype Session = Session(live: Snapshot, timeline: History)

  /** The decision `loadSavedState` makes about a stored blob: restore it when
      no template was chosen, or when it was saved within the last 24 hours. */
  predicate ShouldRestore(hasTemplate: bool, lastSaved: int, now: int)
    ensures !hasTemplate ==> ShouldRestore(hasTemplate, lastSaved, now)
    ensures hasTemplate ==> (ShouldRestore(hasTemplate, lastSaved, now) <==> now - lastSaved < DayMs)
  {
    !hasTemplate || lastSaved > now - DayMs
  }

  predicate SnapshotsDistinct(hs: seq<Snapshot>) {
    forall k :: 0 <= k < |hs| ==> DistinctIds(hs[k].fields)
  }

  /** A blob as this code writes it: a cursor inside its history and
      distinct ids in every field list. */
  predicate ConsistentBlob(b: SavedState) {
    0 <= b.currentHistoryIndex < |b.history| && DistinctIds(b.fields) && SnapshotsDistinct(b.history)
  }

  /** The session a blob stands for. */
  function Restored(b: SavedState): (s: Session)
    requires ConsistentBlob(b)
    ensures s.timeline.Valid() && s.live.fields == b.fields && s.timeline.entries == b.history
  {
    Session(Snapshot(b.fields, b.settings, b.formName, b.formDescription),
            History(b.history, b.currentHistoryIndex))
  }

  function HistoryIds(hs: seq<Snapshot>): seq<string> {
    if hs == [] then [] else Ids(hs[0].fields) + HistoryIds(hs[1..])
  }

  function TemplateFields(t: Option<Template>): seq<Field> {
    if t.Some? then t.value.fields else []
  }

  /** `initialTemplate?.settings?.title || "Untitled Form"` */
  function TitleOf(t: Option<Template>): (title: string)
    ensures title != ""
  {
    if t.Some? && t.value.settings.title != "" then t.value.settings.title else UntitledForm
  }

  /** `initialTemplate?.settings?.description || ""` */
  function DescriptionOf(t: Option<Template>): string {
    if t.Some? then t.value.settings.description else ""
  }

  function BaseSettings(t: Option<Template>): Settings {
    if t.Some? then t.value.settings else DefaultSettings
  }

  /** The session the template effect installs: the template's fields under
      fresh ids, its settings with a non-empty title, and a one-entry history
      holding exactly that state. */
  function TemplateSession(t: Template, taken: seq<string>): (s: Session)
    ensures s.timeline == History([s.live], 0)
    ensures |s.live.fields| == |t.fields| && DistinctIds(s.live.fields)
    ensures forall i :: 0 <= i < |t.fields| ==>
      s.live.fields[i] == t.fields[i].(id := s.live.fields[i].id) && s.live.fields[i].id !in taken
    ensures s.live.formName == s.live.settings.title == TitleOf(Some(t))
  {
    var live := Snapshot(
      InitializeFormFields(t.fields, taken),
      t.settings.(title := TitleOf(Some(t))),
      TitleOf(Some(t)),
      DescriptionOf(Some(t)));
    Session(live, History([live], 0))
  }

  /** What the builder shows after mounting with an optional template and an
      optional stored blob, as the two effects are written: the restore
      effect runs first, then the template effect, and when a template is
      present the latter's state updates are the ones that survive. */
  function MountAsWritten(initial: Session, saved: Option<SavedState>, t: Option<Template>, now: int, taken: seq<string>): (s: Session)
    requires saved.Some? ==> ConsistentBlob(saved.value)
    ensures t.Some? ==> s == TemplateSession(t.value, taken)
    ensures t.None? ==> s == Mount(initial, saved, t, now, taken)
  {
    var afterLoad :=
      if saved.Some? && ShouldRestore(t.Some?, saved.value.lastSaved, now) then Restored(saved.value) else initial;
    if t.Some? then TemplateSession(t.value, taken) else afterLoad
  }

  /** With a template present, the mount result ignores the stored blob
      altogether, however recent it is. */
  lemma MountAsWrittenIgnoresBlob(initial: Session, saved: Option<SavedState>, t: Option<Template>, now: int, taken: seq<string>)
    requires saved.Some? ==> ConsistentBlob(saved.value)
    requires t.Some?
    ensures MountAsWritten(initial, saved, t, now, taken) == MountAsWritten(initial, None, t, now, taken)
  {
  }

  /** The witness: a template with one field and a blob written this very
      millisecond holding no fields at all. The rule says restore it; the
      builder as written shows the template's field instead. */
  lemma MountAsWrittenLosesFreshBlob(now: int)
    ensures var field := NewField("text", "t1");
      var t := Template("T", "", DefaultSettings, [field]);
      var blob := SavedState([], DefaultSettings, "Mine", "", [Snapshot([], DefaultSettings, "Mine", "")], 0, now);
      var initial := TemplateSession(t, []);
      ShouldRestore(true, blob.lastSaved, now) &&
      MountAsWritten(initial, Some(blob), Some(t), now, []) != Restored(blob)
  {
    var field := NewField("text", "t1");
    var t := Template("T", "", DefaultSettings, [field]);
    var blob := SavedState([], DefaultSettings, "Mine", "", [Snapshot([], DefaultSettings, "Mine", "")], 0, now);
    assert |MountAsWritten(TemplateSession(t, []), Some(blob), Some(t), now, []).live.fields| == 1;
  }

  /** The mount the restore rule describes: a stored blob that passes the
      rule is shown verbatim; otherwise the template, if any, is installed;
      otherwise the initial state stays. */
  function Mount(initial: Session, saved: Option<SavedState>, t: Option<Template>, now: int, taken: seq<string>): (s: Session)
    requires saved.Some? ==> ConsistentBlob(saved.value)
    ensures saved.Some? && ShouldRestore(t.Some?, saved.value.lastSaved, now) ==> s == Restored(saved.value)
    ensures !(saved.Some? && ShouldRestore(t.Some?, saved.value.lastSaved, now)) ==>
      s == if t.Some? then TemplateSession(t.value, taken) else initial
    ensures s.live.formName == (if saved.Some? && ShouldRestore(t.Some?, saved.value.lastSaved, now)
      then saved.value.formName else if t.Some? then TitleOf(t) else initial.live.formName)
  {
    if saved.Some? && ShouldRestore(t.Some?, saved.value.lastSaved, now) then Restored(saved.value)
    else if t.Some? then TemplateSession(t.value, taken)
    else initial
  }

  /** A blob written just now is restored over a template, and one written
      a full day ago or earlier is not. */
  lemma FreshnessWindow(b: SavedState, t: Template, now: int, initial: Session, taken: seq<string>)
    requires ConsistentBlob(b)
    ensures now - b.lastSaved < DayMs ==> Mount(initial, Some(b), Some(t), now, taken) == Restored(b)
    ensures now - b.lastSaved >= DayMs ==> Mount(initial, Some(b), Some(t), now, taken) == TemplateSession(t, taken)
  {
  }

  class FormBuilder {
    var fields: seq<Field>
    var settings: Settings
    var formName: string
    var formDescription: string
    var history: seq<Snapshot>
    var cursor: nat
    /** `isHistoryUpdate`: set while a snapshot is being restored. */
    var restoring: bool
    /** `completedFields` */
    var completed: set<string>

    ghost predicate Valid()
      reads this
    {
      cursor < |history| && DistinctIds(fields) && SnapshotsDistinct(history)
    }

    /** The state a commit captures. */
    function Live(): Snapshot
      reads this
    {
      Snapshot(fields, settings, formName, formDescription)
    }

    function Timeline(): History
      reads this
    {
      History(history, cursor)
    }

    function State(): Session
      reads this
    {
      Session(Live(), Timeline())
    }

    /** Every id the session has handed out, live or in history. */
    function UsedIds(): seq<string>
      reads this
    {
      Ids(fields) + HistoryIds(history)
    }

    /** `canUndo` and `canRedo` as passed to the toolbar: each is on
        exactly when the corresponding step would change the history. */
    function CanUndo(): (r: bool)
      reads this
      ensures Timeline().Valid() ==> (r <==> Timeline().Undo() != Timeline())
    {
      Timeline().CanUndo()
    }

    function CanRedo(): (r: bool)
      reads this
      ensures Timeline().Valid() ==> (r <==> Timeline().Redo() != Timeline())
    {
      Timeline().CanRedo()
    }

    /** The initial state: the template's fields under fresh ids (or none),
      a one-entry history holding the template's own fields and settings. */
    constructor (template: Option<Template>)
      requires template.Some? ==> DistinctIds(template.value.fields)
      ensures Valid() && !restoring && completed == {}
      ensures |fields| == |TemplateFields(template)|
      ensures forall i :: 0 <= i < |fields| ==> fields[i] == TemplateFields(template)[i].(id := fields[i].id)
      ensures settings == BaseSettings(template).(title := TitleOf(template), description := DescriptionOf(template))
      ensures formName == TitleOf(template) && formDescription == DescriptionOf(template)
      ensures history == [Snapshot(TemplateFields(template), BaseSettings(template), TitleOf(template), DescriptionOf(template))]
      ensures cursor == 0
    {
      var tf := TemplateFields(template);
      fields := InitializeFormFields(tf, Ids(tf));
      settings := BaseSettings(template).(title := TitleOf(template), description := DescriptionOf(template));
      formName := TitleOf(template);
      formDescription := DescriptionOf(template);
      history := [Snapshot(tf, BaseSettings(template), TitleOf(template), DescriptionOf(template))];
      cursor := 0;
      restoring := false;
      completed := {};
    }

    /** `saveToHistory`: commits the live state, unless a restore is under way. */
    method SaveToHistory()
      requires Valid()
      modifies this`history, this`cursor
      ensures Valid()
      ensures Timeline() == if restoring then old(Timeline()) else old(Timeline()).Commit(Live())
    {
      if restoring {
        return;
      }
      var kept := history[..cursor + 1];
      assert SnapshotsDistinct(kept);
      history := kept + [Live()];
      cursor := cursor + 1;
    }

    /** `handleDrop`: appends a new field of the dropped type under a fresh
        id, then commits. */
    method HandleDrop(kind: string)
      requires Valid()
      modifies this`fields, this`history, this`cursor
      ensures Valid()
      ensures |fields| == |old(fields)| + 1 && fields[..|old(fields)|] == old(fields)
      ensures var added := fields[|old(fields)|];
        added == NewField(kind, added.id) && added.id !in old(UsedIds())
      ensures Timeline() == if restoring then old(Timeline()) else old(Timeline()).Commit(Live())
    {
      var id := FreshId(UsedIds());
      var newFields := fields + [NewField(kind, id)];
      assert id !in Ids(fields);
      assert DistinctIds(newFields);
      fields := newFields;
      SaveToHistory();
    }

    /** `handleUpdate`: merges the update into the field with that id and
        commits, even when no field has that id. */
    method HandleUpdate(id: string, patch: FieldPatch)
      requires Valid()
      modifies this`fields, this`history, this`cursor
      ensures Valid()
      ensures fields == UpdateById(old(fields), id, patch)
      ensures !HasId(old(fields), id) ==> fields == old(fields)
      ensures Timeline() == if restoring then old(Timeline()) else old(Timeline()).Commit(Live())
    {
      fields := UpdateById(fields, id, patch);
      SaveToHistory();
    }

    /** `handleDelete`: drops the fields with that id and commits. */
    method HandleDelete(id: string)
      requires Valid()
      modifies this`fields, this`history, this`cursor
      ensures Valid()
      ensures fields == Without(old(fields), id)
      ensures HasId(old(fields), id) ==>
        var k := IndexOf(old(fields), id);
        fields == old(fields)[..k] + old(fields)[k + 1..]
      ensures !HasId(old(fields), id) ==> fields == old(fields)
      ensures Timeline() == if restoring then old(Timeline()) else old(Timeline()).Commit(Live())
    {
      WithoutKeepsDistinct(fields, id);
      if HasId(fields, id) {
        WithoutCutsOut(fields, id);
      } else {
        WithoutAbsent(fields, id);
      }
      fields := Without(fields, id);
      SaveToHistory();
    }

    /** `handleMove`: swaps the field with its neighbour in that direction
        and commits; at the first (up) or last (down) position it does
        nothing at all. The id must be present: the source does not guard a
        missing one. */
    method HandleMove(id: string, direction: Direction)
      requires Valid() && HasId(fields, id)
      modifies this`fields, this`history, this`cursor
      ensures Valid()
      ensures var i := IndexOf(old(fields), id);
        if AtBoundary(old(fields), id, direction) then
          fields == old(fields) && Timeline() == old(Timeline())
        else
          fields == Swap(old(fields), i, Neighbour(i, direction)) &&
          Timeline() == if restoring then old(Timeline()) else old(Timeline()).Commit(Live())
    {
      var index := IndexOf(fields, id);
      if (direction == Up && index == 0) || (direction == Down && index == |fields| - 1) {
        return;
      }
      var newIndex := if direction == Up then index - 1 else index + 1;
      SwapKeepsDistinct(fields, index, newIndex);
      fields := fields[index := fields[newIndex]][newIndex := fields[index]];
      SaveToHistory();
    }

    /** `handleDuplicate`: inserts a copy of the field right after it, under
        a fresh id, and commits; a missing id does nothing and commits
        nothing. */
    method HandleDuplicate(id: string)
      requires Valid()
      modifies this`fields, this`history, this`cursor
      ensures Valid()
      ensures !HasId(old(fields), id) ==> fields == old(fields) && Timeline() == old(Timeline())
      ensures HasId(old(fields), id) ==>
        var i := IndexOf(old(fields), id);
        |fields| == |old(fields)| + 1 &&
        fields == InsertAt(old(fields), i + 1, old(fields)[i].(id := fields[i + 1].id)) &&
        fields[i + 1].id !in old(UsedIds()) &&
        Timeline() == if restoring then old(Timeline()) else old(Timeline()).Commit(Live())
    {
      var source := Find(fields, id);
      if source.None? {
        return;
      }
      var index := IndexOf(fields, id);
      var newId := FreshId(UsedIds());
      assert newId !in Ids(fields);
      PlaceCopy(index, newId);
      SaveToHistory();
    }

    /** The insertion step of `handleDuplicate`, before the commit. */
    method PlaceCopy(index: nat, newId: string)
      requires Valid() && index < |fields| && newId !in Ids(fields)
      modifies this`fields
      ensures Valid()
      ensures fields == InsertAt(old(fields), index + 1, old(fields)[index].(id := newId))
      ensures fields[index + 1].id == newId
    {
      DuplicateKeepsDistinct(fields, index, newId);
      fields := InsertAt(fields, index + 1, fields[index].(id := newId));
    }

    /** `handleFormDetailsUpdate`: replaces the name and/or description that
        are given, then commits. */
    method HandleFormDetailsUpdate(name: Option<string>, description: Option<string>)
      requires Valid()
      modifies this`formName, this`formDescription, this`history, this`cursor
      ensures Valid()
      ensures formName == name.GetOr(old(formName)) && formDescription == description.GetOr(old(formDescription))
      ensures Timeline() == if restoring then old(Timeline()) else old(Timeline()).Commit(Live())
    {
      formName := name.GetOr(formName);
      formDescription := description.GetOr(formDescription);
      SaveToHistory();
    }

    /** `undo`: when there is an earlier entry, restores it, moves the cursor
        back and raises the guard; otherwise nothing happens. */
    method Undo()
      requires Valid()
      modifies this`fields, this`settings, this`formName, this`formDescription, this`cursor, this`restoring
      ensures Valid() && history == old(history)
      ensures Timeline() == old(Timeline()).Undo()
      ensures old(CanUndo()) ==> Live() == Timeline().Current() && restoring
      ensures !old(CanUndo()) ==> Live() == old(Live()) && restoring == old(restoring)
    {
      if cursor > 0 {
        restoring := true;
        var previous := history[cursor - 1];
        fields := previous.fields;
        settings := previous.settings;
        formName := previous.formName;
        formDescription := previous.formDescription;
        cursor := cursor - 1;
      }
    }

    /** `redo`: the mirror image of `undo`. */
    method Redo()
      requires Valid()
      modifies this`fields, this`settings, this`formName, this`formDescription, this`cursor, this`restoring
      ensures Valid() && history == old(history)
      ensures Timeline() == old(Timeline()).Redo()
      ensures old(CanRedo()) ==> Live() == Timeline().Current() && restoring
      ensures !old(CanRedo()) ==> Live() == old(Live()) && restoring == old(restoring)
    {
      if cursor < |history| - 1 {
        restoring := true;
        var next := history[cursor + 1];
        fields := next.fields;
        settings := next.settings;
        formName := next.formName;
        formDescription := next.formDescription;
        cursor := cursor + 1;
      }
    }

    /** The zero-delay timer that undo and redo schedule: lowers the guard. */
    method ReleaseGuard()
      modifies this`restoring
      ensures !restoring
    {
      restoring := false;
    }

    /** The blob `saveToLocalStorage` writes at time `now`. */
    function Blob(now: int): (b: SavedState)
      reads this
      ensures b.lastSaved == now
      ensures Valid() ==> ConsistentBlob(b) && Restored(b) == State()
    {
      SavedState(fields, settings, formName, formDescription, history, cursor, now)
    }

    /** `saveToLocalStorage`: writes the whole session under its key and
        leaves every other key alone. */
    method SaveToLocalStorage(store: map<string, SavedState>, key: string, now: int) returns (updated: map<string, SavedState>)
      requires Valid()
      ensures key in updated && ConsistentBlob(updated[key]) && Restored(updated[key]) == State()
      ensures updated[key].lastSaved == now && ShouldRestore(true, updated[key].lastSaved, now)
      ensures forall k :: k in store && k != key ==> k in updated && updated[k] == store[k]
      ensures updated.Keys == store.Keys + {key}
    {
      updated := store[key := Blob(now)];
    }

    /** `loadSavedState`: restores a stored blob verbatim when the restore
        rule allows it, and otherwise leaves the session as it is. */
    method LoadSavedState(saved: Option<SavedState>, hasTemplate: bool, now: int) returns (restored: bool)
      requires Valid()
      requires saved.Some? ==> ConsistentBlob(saved.value)
      modifies this`fields, this`settings, this`formName, this`formDescription, this`history, this`cursor
      ensures Valid()
      ensures restored == (saved.Some? && ShouldRestore(hasTemplate, saved.value.lastSaved, now))
      ensures State() == if restored then Restored(saved.value) else old(State())
    {
      restored := false;
      if saved.Some? {
        var blob := saved.value;
        if !hasTemplate || blob.lastSaved > now - DayMs {
          fields := blob.fields;
          settings := blob.settings;
          formName := blob.formName;
          formDescription := blob.formDescription;
          history := blob.history;
          cursor := blob.currentHistoryIndex;
          restored := true;
        }
      }
    }

    /** The template effect: installs the template session, with history
        reset to that one entry. */
    method InitFromTemplate(t: Template)
      requires Valid()
      modifies this`fields, this`settings, this`formName, this`formDescription, this`history, this`cursor
      ensures Valid()
      ensures State() == TemplateSession(t, old(UsedIds()) + Ids(t.fields))
    {
      var s := TemplateSession(t, UsedIds() + Ids(t.fields));
      history := [s.live];
      cursor := 0;
      fields := s.live.fields;
      settings := s.live.settings;
      formName := s.live.formName;
      formDescription := s.live.formDescription;
    }

    /** Mounting as the restore rule intends (see `Mount`): the template is
        installed only when the stored blob is not restored. */
    method MountSession(saved: Option<SavedState>, template: Option<Template>, now: int)
      requires Valid()
      requires saved.Some? ==> ConsistentBlob(saved.value)
      modifies this`fields, this`settings, this`formName, this`formDescription, this`history, this`cursor
      ensures Valid()
      ensures State() == Mount(old(State()), saved, template, now, old(UsedIds()) + Ids(TemplateFields(template)))
    {
      var restored := LoadSavedState(saved, template.Some?, now);
      if !restored && template.Some? {
        InitFromTemplate(template.value);
      }
    }

    /** `handleFieldChange`: a preview value marks its field completed when
        it is neither undefined nor the empty string, and unmarks it
        otherwise; values for unknown ids are ignored. */
    method HandleFieldChange(fieldId: string, value: Option<Value>)
      modifies this`completed
      ensures !HasId(fields, fieldId) ==> completed == old(completed)
      ensures HasId(fields, fieldId) ==>
        (fieldId in completed <==> value.Some? && value.value != Text("")) &&
        completed - {fieldId} == old(completed) - {fieldId}
    {
      if !HasId(fields, fieldId) {
        return;
      }
      var isCompleted := value.Some? && value.value != Text("");
      if isCompleted {
        completed := completed + {fieldId};
      } else {
        completed := completed - {fieldId};
      }
    }
  }

  /** The field a move in that direction would trade places with. */
  function Neighbour(i: int, direction: Direction): (j: int)
    ensures direction == Up ==> j + 1 == i
    ensures direction == Down ==> j == i + 1
  {
    if direction == Up then i - 1 else i + 1
  }

  /** The position guard of `handleMove`: up from the first field, or down
      from the last one. For a listed id it holds exactly when the
      neighbour in that direction would lie outside the list. */
  predicate AtBoundary(fs: seq<Field>, id: string, direction: Direction)
    ensures HasId(fs, id) ==>
      (AtBoundary(fs, id, direction) <==> !(0 <= Neighbour(IndexOf(fs, id), direction) < |fs|))
  {
    var i := IndexOf(fs, id);
    (direction == Up && i == 0) || (direction == Down && i == |fs| - 1)
  }
}
