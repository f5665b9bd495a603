/**
 * The field card: its inline editor keeps a draft of the field's label,
 * placeholder, required flag and option lists, edits the option lists,
 * and on save hands the builder one partial update whose shape depends on
 * the field's type.
 */
module FieldCard {
  import opened JsText
  import opened FormModel
  import opened Builder

  // ---------------------------------------------------------------------
  // Option lists

  /** `handleAddOption`: the trimmed input is appended when it is not
      empty; a blank input leaves the list alone. */
  function AddOption(opts: seq<string>, input: string): (r: seq<string>)
    ensures AllSpace(input) ==> r == opts
    ensures !AllSpace(input) ==> |r| == |opts| + 1 && r[..|opts|] == opts && r[|opts|] == Trim(input)
  {
    TrimEmptyIff(input);
    if Trim(input) != [] then opts + [Trim(input)] else opts
  }

  /** An added option never starts or ends with whitespace. */
  lemma AddedOptionIsTrimmed(opts: seq<string>, input: string)
    requires !AllSpace(input)
    ensures var o := AddOption(opts, input)[|opts|];
      o != [] && !IsSpace(o[0]) && !IsSpace(o[|o| - 1]) && Trim(o) == o
  {
    TrimEmptyIff(input);
    TrimIsTrimmed(input);
  }

  /** `opts.filter((_, i) => i !== index)`, walked from the back so that
      every element keeps its own position. */
  function RemoveOption(opts: seq<string>, index: int): (r: seq<string>)
    ensures |r| == if 0 <= index < |opts| then |opts| - 1 else |opts|
  {
    if opts == [] then []
    else
      var last := |opts| - 1;
      RemoveOption(opts[..last], index) + (if last == index then [] else [opts[last]])
  }

  /** Removing a position in range splices exactly that option out; any
      other index removes nothing. */
  lemma {:induction false} RemoveOptionSplices(opts: seq<string>, index: int)
    ensures 0 <= index < |opts| ==> RemoveOption(opts, index) == opts[..index] + opts[index + 1..]
    ensures !(0 <= index < |opts|) ==> RemoveOption(opts, index) == opts
  {
    if opts != [] {
      var last := |opts| - 1;
      var init := opts[..last];
      RemoveOptionSplices(init, index);
      if index == last {
        assert opts[index + 1..] == [];
      } else if 0 <= index < last {
        assert init[..index] == opts[..index];
        assert init[index + 1..] == opts[index + 1..last];
        assert opts[index + 1..] == opts[index + 1..last] + [opts[last]];
      } else {
        assert init + [opts[last]] == opts;
      }
    }
  }

  /** Removing the option just added gives the list back. */
  lemma AddThenRemove(opts: seq<string>, input: string)
    requires !AllSpace(input)
    ensures RemoveOption(AddOption(opts, input), |opts|) == opts
  {
    var r := AddOption(opts, input);
    RemoveOptionSplices(r, |opts|);
    assert r[..|opts|] == opts;
  }

  /** The inline edit of one option: `newOptions[index] = value`. */
  function ReplaceOption(opts: seq<string>, index: nat, text: string): (r: seq<string>)
    requires index < |opts|
    ensures |r| == |opts| && r[index] == text
    ensures forall k :: 0 <= k < |opts| && k != index ==> r[k] == opts[k]
  {
    opts[index := text]
  }

  /** Typing the old text back restores the list. */
  lemma ReplaceBack(opts: seq<string>, index: nat, text: string)
    requires index < |opts|
    ensures ReplaceOption(ReplaceOption(opts, index, text), index, opts[index]) == opts
  {
  }

  // ---------------------------------------------------------------------
  // Drafts and the update a save emits

  /** The editor's five draft values. */
  datatype Draft = Draft(
    labelText: string,
    placeholder: string,
    required: bool,
    options: seq<string>,
    checkboxOptions: seq<string>)

  /** The draft as the editor (re)initialises it from the field: a missing
      placeholder or option list reads as empty, a missing `required` as
      false. */
  function DraftOf(f: Field): (d: Draft)
    ensures d.labelText == f.labelText && d.required == f.required
    ensures f.placeholder.Some? ==> d.placeholder == f.placeholder.value
    ensures f.placeholder.None? ==> d.placeholder == ""
    ensures f.options.Some? ==> d.options == f.options.value
    ensures f.options.None? ==> d.options == []
    ensures f.checkboxOptions.Some? ==> d.checkboxOptions == f.checkboxOptions.value
    ensures f.checkboxOptions.None? ==> d.checkboxOptions == []
  {
    Draft(f.labelText, f.placeholder.GetOr(""), f.required, f.options.GetOr([]), f.checkboxOptions.GetOr([]))
  }

  /** `handleSave`'s update object. All five attributes are written: the
      placeholder is written as `undefined` on a dropdown, and the option
      list that does not belong to the type is written as `undefined`. */
  function SavePatch(kind: string, d: Draft): (p: FieldPatch)
    ensures p.labelText == Put(d.labelText) && p.required == Put(d.required)
    ensures p.placeholder == Put(if kind == Dropdown then None else Some(d.placeholder))
    ensures p.options == Put(if kind == Dropdown then Some(d.options) else None)
    ensures p.checkboxOptions == Put(if kind == Checkbox then Some(d.checkboxOptions) else None)
    ensures p != NoChange
  {
    FieldPatch(
      Put(d.labelText),
      Put(d.required),
      Put(if kind == Dropdown then None else Some(d.placeholder)),
      Put(if kind == Dropdown then Some(d.options) else None),
      Put(if kind == Checkbox then Some(d.checkboxOptions) else None))
  }

  /** The attribute layout a field of a given type has after a save (and
      right after a drop): a placeholder exactly when it is not a dropdown,
      options exactly on a dropdown, checkbox options exactly on a
      checkbox. */
  predicate Canonical(f: Field) {
    (f.placeholder.None? <==> f.kind == Dropdown) &&
    (f.options.Some? <==> f.kind == Dropdown) &&
    (f.checkboxOptions.Some? <==> f.kind == Checkbox)
  }

  /** Whatever the draft, a save leaves the field canonical, and so with
      the shape the validation and the preview expect; the label and the
      required flag are the draft's. */
  lemma SaveNormalizes(f: Field, d: Draft)
    ensures var g := Merge(f, SavePatch(f.kind, d));
      Canonical(g) && ShapeOk(g) && g.labelText == d.labelText && g.required == d.required
  {
  }

  /** A save made right after opening the editor, with no edits, changes
      nothing in a canonical field. */
  lemma SaveUneditedIsIdentity(f: Field)
    requires Canonical(f)
    ensures Merge(f, SavePatch(f.kind, DraftOf(f))) == f
  {
  }

  /** A field fresh from the palette is canonical. */
  lemma NewFieldIsCanonical(kind: string, id: string)
    ensures Canonical(NewField(kind, id))
  {
  }

  // ---------------------------------------------------------------------
  // The editor

  class Editor {
    /** The `field` prop: the field as the builder last rendered it. */
    var field: Field
    var isEditing: bool
    var editedLabel: string
    var editedPlaceholder: string
    var editedRequired: bool
    var editedOptions: seq<string>
    var editedCheckboxOptions: seq<string>
    var newOption: string
    var newCheckboxOption: string

    function Edited(): Draft
      reads this
    {
      Draft(editedLabel, editedPlaceholder, editedRequired, editedOptions, editedCheckboxOptions)
    }

    /** The card as first rendered: not editing, drafts taken from the
        field, both new-option inputs empty. */
    constructor (f: Field)
      ensures field == f && !isEditing && Edited() == DraftOf(f)
      ensures newOption == "" && newCheckboxOption == ""
    {
      field := f;
      isEditing := false;
      editedLabel, editedPlaceholder, editedRequired := f.labelText, f.placeholder.GetOr(""), f.required;
      editedOptions, editedCheckboxOptions := f.options.GetOr([]), f.checkboxOptions.GetOr([]);
      newOption, newCheckboxOption := "", "";
    }

    method SetDraft(d: Draft)
      modifies this`editedLabel, this`editedPlaceholder, this`editedRequired, this`editedOptions, this`editedCheckboxOptions
      ensures Edited() == d
    {
      editedLabel, editedPlaceholder, editedRequired := d.labelText, d.placeholder, d.required;
      editedOptions, editedCheckboxOptions := d.options, d.checkboxOptions;
    }

    /** The effect on `[field]`: a new field prop resets every draft value;
        whether the editor is open is left as it is. */
    method Resync(f: Field)
      modifies this`field, this`editedLabel, this`editedPlaceholder, this`editedRequired, this`editedOptions, this`editedCheckboxOptions
      ensures field == f && Edited() == DraftOf(f)
    {
      field := f;
      SetDraft(DraftOf(f));
    }

    /** The edit button. */
    method StartEditing()
      modifies this`isEditing
      ensures isEditing
    {
      isEditing := true;
    }

    /** `handleSave`: the builder merges the save's update into the field
        with this card's id and commits; the editor closes. */
    method HandleSave(builder: FormBuilder)
      requires builder.Valid()
      modifies builder`fields, builder`history, builder`cursor, this`isEditing
      ensures builder.Valid() && !isEditing
      ensures builder.fields == UpdateById(old(builder.fields), field.id, SavePatch(field.kind, Edited()))
      ensures builder.Timeline() ==
        if builder.restoring then old(builder.Timeline()) else old(builder.Timeline()).Commit(builder.Live())
    {
      builder.HandleUpdate(field.id, SavePatch(field.kind, Edited()));
      isEditing := false;
    }

    /** `handleCancel`: every draft value goes back to the field's; the
        editor closes and nothing reaches the builder. */
    method HandleCancel()
      modifies this`isEditing, this`editedLabel, this`editedPlaceholder, this`editedRequired, this`editedOptions, this`editedCheckboxOptions
      ensures !isEditing && Edited() == DraftOf(field)
    {
      SetDraft(DraftOf(field));
      isEditing := false;
    }

    /** `handleKeyDown` on the label and placeholder inputs: Ctrl+Enter
        saves, Escape cancels, any other key does nothing. */
    method HandleKeyDown(key: string, ctrlKey: bool, builder: FormBuilder)
      requires builder.Valid()
      modifies builder`fields, builder`history, builder`cursor
      modifies this`isEditing, this`editedLabel, this`editedPlaceholder, this`editedRequired, this`editedOptions, this`editedCheckboxOptions
      ensures builder.Valid()
      ensures key == "Enter" && ctrlKey ==>
        !isEditing && Edited() == old(Edited()) &&
        builder.fields == UpdateById(old(builder.fields), field.id, SavePatch(field.kind, old(Edited()))) &&
        builder.Timeline() == if builder.restoring then old(builder.Timeline()) else old(builder.Timeline()).Commit(builder.Live())
      ensures !(key == "Enter" && ctrlKey) && key == "Escape" ==>
        !isEditing && Edited() == DraftOf(field) && builder.fields == old(builder.fields) &&
        builder.Timeline() == old(builder.Timeline())
      ensures !(key == "Enter" && ctrlKey) && key != "Escape" ==>
        isEditing == old(isEditing) && Edited() == old(Edited()) && builder.fields == old(builder.fields) &&
        builder.Timeline() == old(builder.Timeline())
    {
      if key == "Enter" && ctrlKey {
        HandleSave(builder);
      } else if key == "Escape" {
        HandleCancel();
      }
    }

    /** The label, placeholder and required inputs write straight into the
        draft. */
    method EditLabel(text: string)
      modifies this`editedLabel
      ensures editedLabel == text
    {
      editedLabel := text;
    }

    method EditPlaceholder(text: string)
      modifies this`editedPlaceholder
      ensures editedPlaceholder == text
    {
      editedPlaceholder := text;
    }

    method EditRequired(checked: bool)
      modifies this`editedRequired
      ensures editedRequired == checked
    {
      editedRequired := checked;
    }

    /** The new-option inputs. */
    method TypeNewOption(text: string)
      modifies this`newOption
      ensures newOption == text
    {
      newOption := text;
    }

    method TypeNewCheckboxOption(text: string)
      modifies this`newCheckboxOption
      ensures newCheckboxOption == text
    {
      newCheckboxOption := text;
    }

    /** `handleAddOption` (also run by Enter in the new-option input): a
        non-blank input is appended trimmed and the input is cleared; a
        blank one changes nothing, not even the input. */
    method HandleAddOption()
      modifies this`editedOptions, this`newOption
      ensures editedOptions == AddOption(old(editedOptions), old(newOption))
      ensures newOption == if AllSpace(old(newOption)) then old(newOption) else ""
    {
      TrimEmptyIff(newOption);
      if Trim(newOption) != [] {
        editedOptions := editedOptions + [Trim(newOption)];
        newOption := "";
      }
    }

    method HandleRemoveOption(index: int)
      modifies this`editedOptions
      ensures editedOptions == RemoveOption(old(editedOptions), index)
    {
      editedOptions := RemoveOption(editedOptions, index);
    }

    /** Typing into the input of the option at `index`. */
    method EditOption(index: nat, text: string)
      requires index < |editedOptions|
      modifies this`editedOptions
      ensures editedOptions == ReplaceOption(old(editedOptions), index, text)
    {
      editedOptions := editedOptions[index := text];
    }

    /** The checkbox twins of the three option handlers. */
    method HandleAddCheckboxOption()
      modifies this`editedCheckboxOptions, this`newCheckboxOption
      ensures editedCheckboxOptions == AddOption(old(editedCheckboxOptions), old(newCheckboxOption))
      ensures newCheckboxOption == if AllSpace(old(newCheckboxOption)) then old(newCheckboxOption) else ""
    {
      TrimEmptyIff(newCheckboxOption);
      if Trim(newCheckboxOption) != [] {
        editedCheckboxOptions := editedCheckboxOptions + [Trim(newCheckboxOption)];
        newCheckboxOption := "";
      }
    }

    method HandleRemoveCheckboxOption(index: int)
      modifies this`editedCheckboxOptions
      ensures editedCheckboxOptions == RemoveOption(old(editedCheckboxOptions), index)
    {
      editedCheckboxOptions := RemoveOption(editedCheckboxOptions, index);
    }

    method EditCheckboxOption(index: nat, text: string)
      requires index < |editedCheckboxOptions|
      modifies this`editedCheckboxOptions
      ensures editedCheckboxOptions == ReplaceOption(old(editedCheckboxOptions), index, text)
    {
      editedCheckboxOptions := editedCheckboxOptions[index := text];
    }
  }
}
