/**
 * The data model shared by the builder, the canvas, the field editor and the
 * validation engine: field definitions, the partial updates the field editor
 * emits, form settings, history snapshots, templates and respondent values,
 * together with the pure list operations the builder's handlers are made of.
 */
module FormModel {
  import opened JsText

  datatype Option<T> = None | Some(value: T) {
    function GetOr(default: T): T {
      match this
      case Some(v) => v
      case None => default
    }
  }

  /** One form field. `kind` is the source's free-form `type` string (the
      palette offers text, textarea, dropdown, checkbox, date, email, phone;
      the label table also knows number). An absent `required` is `false`. */
  datatype Field = Field(
    id: string,
    kind: string,
    labelText: string,
    required: bool,
    placeholder: Option<string>,
    options: Option<seq<string>>,
    checkboxOptions: Option<seq<string>>)

  /** One attribute of a partial update: left alone, or overwritten. An
      explicit `undefined` in the update object overwrites too, so it is
      `Put(None)`. */
  datatype Update<T> = Keep | Put(value: T) {
    function Over(current: T): T {
      match this
      case Keep => current
      case Put(v) => v
    }
  }

  /** `Partial<FormField>` restricted to the attributes an update ever sets. */
  datatype FieldPatch = FieldPatch(
    labelText: Update<string>,
    required: Update<bool>,
    placeholder: Update<Option<string>>,
    options: Update<Option<seq<string>>>,
    checkboxOptions: Update<Option<seq<string>>>)

  const NoChange := FieldPatch(Keep, Keep, Keep, Keep, Keep)

  datatype Settings = Settings(
    submitButtonText: string,
    successMessage: string,
    title: string,
    description: string)

  const DefaultSettings := Settings("Submit", "Thank you for your submission!", "", "")
  const UntitledForm := "Untitled Form"

  /** One history entry: `HistoryState`. */
  datatype Snapshot = Snapshot(
    fields: seq<Field>,
    settings: Settings,
    formName: string,
    formDescription: string)

  datatype Template = Template(
    title: string,
    description: string,
    settings: Settings,
    fields: seq<Field>)

  /** A respondent's value for one field: the text of an input, or the list
      of checked checkbox values. A value missing from the map is `undefined`. */
  datatype Value = Text(text: string) | Choices(items: seq<string>)

  datatype Direction = Up | Down

  const Dropdown := "dropdown"
  const Checkbox := "checkbox"

  // ---------------------------------------------------------------------
  // Identity

  predicate HasId(fs: seq<Field>, id: string) {
    exists i :: 0 <= i < |fs| && fs[i].id == id
  }

  predicate DistinctIds(fs: seq<Field>) {
    forall i, j :: 0 <= i < j < |fs| ==> fs[i].id != fs[j].id
  }

  /** `fields.findIndex(f => f.id === id)`: the first position holding `id`,
      or -1. */
  function IndexOf(fs: seq<Field>, id: string): (r: int)
    ensures -1 <= r < |fs|
    ensures r == -1 <==> !HasId(fs, id)
    ensures r >= 0 ==> fs[r].id == id && forall i :: 0 <= i < r ==> fs[i].id != id
  {
    if fs == [] then -1
    else if fs[0].id == id then 0
    else
      var k := IndexOf(fs[1..], id);
      assert forall i :: 1 <= i < |fs| ==> fs[i] == fs[1..][i - 1];
      if k == -1 then -1 else k + 1
  }

  /** With distinct ids the first position holding an id is its only one. */
  lemma IndexOfDistinct(fs: seq<Field>, k: int)
    requires DistinctIds(fs) && 0 <= k < |fs|
    ensures IndexOf(fs, fs[k].id) == k
  {
  }

  /** `fields.find(f => f.id === id)` */
  function Find(fs: seq<Field>, id: string): (r: Option<Field>)
    ensures r.None? <==> !HasId(fs, id)
    ensures r.Some? ==> r.value == fs[IndexOf(fs, id)]
  {
    var i := IndexOf(fs, id);
    if i == -1 then None else Some(fs[i])
  }

  /** Every id used by a list of fields. */
  function Ids(fs: seq<Field>): (r: seq<string>)
    ensures |r| == |fs| && forall i :: 0 <= i < |fs| ==> r[i] == fs[i].id
  {
    if fs == [] then [] else [fs[0].id] + Ids(fs[1..])
  }

  function MaxLength(ss: seq<string>): (n: nat)
    ensures forall k :: 0 <= k < |ss| ==> |ss[k]| <= n
  {
    if ss == [] then 0
    else
      var m := MaxLength(ss[1..]);
      assert forall k :: 1 <= k < |ss| ==> ss[k] == ss[1..][k - 1];
      if |ss[0]| > m then |ss[0]| else m
  }

  /** A fresh-id oracle standing for `uuidv4()`: an id that is none of `taken`
      (it is longer than all of them), and never the empty string. */
  function FreshId(taken: seq<string>): (id: string)
    ensures id !in taken && id != ""
  {
    seq(MaxLength(taken) + 1, _ => 'f')
  }

  // ---------------------------------------------------------------------
  // Field shape

  /** `options` only on a dropdown, `checkboxOptions` only on a checkbox. */
  predicate ShapeOk(f: Field) {
    (f.options.Some? ==> f.kind == Dropdown) && (f.checkboxOptions.Some? ==> f.kind == Checkbox)
  }

  const DefaultLabels: map<string, string> := map[
    "text" := "Text Input",
    "textarea" := "Text Area",
    "dropdown" := "Dropdown",
    "checkbox" := "Checkbox",
    "date" := "Date Picker",
    "email" := "Email Address",
    "phone" := "Phone Number",
    "number" := "Number Input"]

  /** `getDefaultLabel`: the table's label for a known type, "Field" for any
      other type string. */
  function GetDefaultLabel(kind: string): (name: string)
    ensures name != ""
    ensures name == "Field" <==> kind !in DefaultLabels
    ensures kind in DefaultLabels ==> name == DefaultLabels[kind]
  {
    if kind in DefaultLabels then DefaultLabels[kind] else "Field"
  }

  /** The field a palette drop creates. */
  function NewField(kind: string, id: string): (f: Field)
    ensures f.id == id && f.kind == kind && f.labelText == GetDefaultLabel(kind) && !f.required
    ensures f.placeholder.None? <==> kind == Dropdown
    ensures f.placeholder.Some? ==> f.placeholder.value == "Enter " + kind + "..."
    ensures f.options.Some? <==> kind == Dropdown
    ensures f.checkboxOptions.Some? <==> kind == Checkbox
    ensures f.options.Some? ==> f.options.value == []
    ensures f.checkboxOptions.Some? ==> f.checkboxOptions.value == []
    ensures ShapeOk(f)
  {
    Field(
      id, kind, GetDefaultLabel(kind), false,
      if kind == Dropdown then None else Some("Enter " + kind + "..."),
      if kind == Dropdown then Some([]) else None,
      if kind == Checkbox then Some([]) else None)
  }

  /** `{ ...field, ...updates }` */
  function Merge(f: Field, p: FieldPatch): (r: Field)
    ensures r.id == f.id && r.kind == f.kind
    ensures p == NoChange ==> r == f
  {
    f.(labelText := p.labelText.Over(f.labelText),
       required := p.required.Over(f.required),
       placeholder := p.placeholder.Over(f.placeholder),
       options := p.options.Over(f.options),
       checkboxOptions := p.checkboxOptions.Over(f.checkboxOptions))
  }

  /** Merging the same update twice is merging it once. */
  lemma MergeIdempotent(f: Field, p: FieldPatch)
    ensures Merge(Merge(f, p), p) == Merge(f, p)
  {
  }

  // ---------------------------------------------------------------------
  // List operations

  /** `fields.map(f => f.id === id ? { ...f, ...updates } : f)` */
  function UpdateById(fs: seq<Field>, id: string, p: FieldPatch): (r: seq<Field>)
    ensures |r| == |fs|
    ensures forall i :: 0 <= i < |fs| ==> r[i].id == fs[i].id
    ensures forall i :: 0 <= i < |fs| && fs[i].id != id ==> r[i] == fs[i]
    ensures forall i :: 0 <= i < |fs| && fs[i].id == id ==> r[i] == Merge(fs[i], p)
    ensures !HasId(fs, id) ==> r == fs
    ensures DistinctIds(fs) ==> DistinctIds(r)
  {
    seq(|fs|, i requires 0 <= i < |fs| => if fs[i].id == id then Merge(fs[i], p) else fs[i])
  }

  /** `fields.filter(f => f.id !== id)` */
  function Without(fs: seq<Field>, id: string): (r: seq<Field>)
    ensures |r| <= |fs|
    ensures forall k :: 0 <= k < |r| ==> r[k].id != id
    ensures forall f :: f in r ==> f in fs
    ensures forall i :: 0 <= i < |fs| && fs[i].id != id ==> fs[i] in r
  {
    if fs == [] then []
    else if fs[0].id == id then Without(fs[1..], id)
    else [fs[0]] + Without(fs[1..], id)
  }

  /** The filter keeps every field when the id is absent; when the ids are
      distinct and `id` sits at position `k`, the result is the list with
      exactly that position cut out (so the remaining order is kept), and its
      ids are still distinct. */
  lemma {:induction false} WithoutAbsent(fs: seq<Field>, id: string)
    requires !HasId(fs, id)
    ensures Without(fs, id) == fs
  {
    if fs != [] {
      assert !HasId(fs[1..], id) by {
        forall i | 0 <= i < |fs[1..]| ensures fs[1..][i].id != id {
          assert fs[1..][i] == fs[i + 1];
        }
      }
      WithoutAbsent(fs[1..], id);
    }
  }

  lemma {:induction false} WithoutCutsOut(fs: seq<Field>, id: string)
    requires DistinctIds(fs) && HasId(fs, id)
    ensures var k := IndexOf(fs, id);
      Without(fs, id) == fs[..k] + fs[k + 1..]
  {
    var k := IndexOf(fs, id);
    var before, after := fs[..k], fs[k + 1..];
    calc {
      Without(fs, id);
    == { assert fs == (before + [fs[k]]) + after; }
      Without((before + [fs[k]]) + after, id);
    == { WithoutAppend(before + [fs[k]], after, id); WithoutAppend(before, [fs[k]], id); }
      Without(before, id) + Without([fs[k]], id) + Without(after, id);
    == { assert [fs[k]][1..] == []; }
      Without(before, id) + Without(after, id);
    == { NoIdBefore(fs, id); WithoutAbsent(before, id); }
      before + Without(after, id);
    == { NoIdAfter(fs, id); WithoutAbsent(after, id); }
      before + after;
    }
  }

  lemma NoIdBefore(fs: seq<Field>, id: string)
    requires HasId(fs, id)
    ensures !HasId(fs[..IndexOf(fs, id)], id)
  {
    var k := IndexOf(fs, id);
    forall i | 0 <= i < k ensures fs[..k][i].id != id {
      assert fs[..k][i] == fs[i];
    }
  }

  lemma NoIdAfter(fs: seq<Field>, id: string)
    requires DistinctIds(fs) && HasId(fs, id)
    ensures !HasId(fs[IndexOf(fs, id) + 1..], id)
  {
    var k := IndexOf(fs, id);
    var after := fs[k + 1..];
    forall i | 0 <= i < |after| ensures after[i].id != id {
      assert after[i] == fs[k + 1 + i];
    }
  }

  /** Filtering distributes over concatenation. */
  lemma {:induction false} WithoutAppend(a: seq<Field>, b: seq<Field>, id: string)
    ensures Without(a + b, id) == Without(a, id) + Without(b, id)
  {
    if a == [] {
      assert a + b == b;
    } else {
      assert (a + b)[1..] == a[1..] + b;
      WithoutAppend(a[1..], b, id);
    }
  }

  lemma TailDistinct(fs: seq<Field>)
    requires fs != [] && DistinctIds(fs)
    ensures DistinctIds(fs[1..])
  {
    forall i, j | 0 <= i < j < |fs[1..]| ensures fs[1..][i].id != fs[1..][j].id {
      assert fs[1..][i] == fs[i + 1] && fs[1..][j] == fs[j + 1];
    }
  }

  /** With distinct ids the head's id does not occur again. */
  lemma NotInTail(fs: seq<Field>)
    requires fs != [] && DistinctIds(fs)
    ensures !HasId(fs[1..], fs[0].id)
  {
    forall i | 0 <= i < |fs[1..]| ensures fs[1..][i].id != fs[0].id {
      assert fs[1..][i] == fs[i + 1];
    }
  }

  lemma IndexOfTail(fs: seq<Field>, id: string)
    requires fs != [] && fs[0].id != id && HasId(fs, id)
    ensures HasId(fs[1..], id) && IndexOf(fs, id) == IndexOf(fs[1..], id) + 1
  {
    var k := IndexOf(fs, id);
    assert fs[1..][k - 1] == fs[k];
  }

  lemma {:induction false} WithoutKeepsDistinct(fs: seq<Field>, id: string)
    requires DistinctIds(fs)
    ensures DistinctIds(Without(fs, id))
  {
    if fs != [] {
      assert DistinctIds(fs[1..]) by {
        forall i, j | 0 <= i < j < |fs[1..]| ensures fs[1..][i].id != fs[1..][j].id {
          assert fs[1..][i] == fs[i + 1] && fs[1..][j] == fs[j + 1];
        }
      }
      WithoutKeepsDistinct(fs[1..], id);
      var rest := Without(fs[1..], id);
      if fs[0].id != id {
        forall k | 0 <= k < |rest| ensures rest[k].id != fs[0].id {
          assert rest[k] in fs[1..];
          var j :| 0 <= j < |fs[1..]| && fs[1..][j] == rest[k];
          assert fs[1..][j] == fs[j + 1];
        }
        assert forall k :: 0 <= k < |rest| ==> ([fs[0]] + rest)[k + 1] == rest[k];
      }
    }
  }

  /** Exchanges two positions (`[a[i], a[j]] = [a[j], a[i]]`). */
  function Swap<T>(s: seq<T>, i: nat, j: nat): (r: seq<T>)
    requires i < |s| && j < |s|
    ensures |r| == |s| && r[i] == s[j] && r[j] == s[i]
    ensures forall k :: 0 <= k < |s| && k != i && k != j ==> r[k] == s[k]
  {
    s[i := s[j]][j := s[i]]
  }

  lemma SwapKeepsDistinct(fs: seq<Field>, i: nat, j: nat)
    requires i < |fs| && j < |fs| && DistinctIds(fs)
    ensures DistinctIds(Swap(fs, i, j))
  {
    var r := Swap(fs, i, j);
    forall a, b | 0 <= a < b < |r| ensures r[a].id != r[b].id {
      var a' := if a == i then j else if a == j then i else a;
      var b' := if b == i then j else if b == j then i else b;
      assert r[a] == fs[a'] && r[b] == fs[b'] && a' != b';
    }
  }

  /** Puts `x` at position `i`, shifting the rest one place on
      (`splice(i, 0, x)`). */
  function InsertAt<T>(s: seq<T>, i: nat, x: T): (r: seq<T>)
    requires i <= |s|
    ensures |r| == |s| + 1 && r[i] == x
    ensures r[..i] == s[..i] && r[i + 1..] == s[i..]
    ensures forall k :: 0 <= k < i ==> r[k] == s[k]
    ensures forall k :: i < k < |r| ==> r[k] == s[k - 1]
  {
    s[..i] + [x] + s[i..]
  }

  lemma InsertKeepsDistinct(fs: seq<Field>, i: nat, f: Field)
    requires i <= |fs| && DistinctIds(fs) && !HasId(fs, f.id)
    ensures DistinctIds(InsertAt(fs, i, f))
  {
    var r := InsertAt(fs, i, f);
    forall a, b | 0 <= a < b < |r| ensures r[a].id != r[b].id {
      if a != i && b != i {
        var a' := if a < i then a else a - 1;
        var b' := if b < i then b else b - 1;
        assert r[a] == fs[a'] && r[b] == fs[b'] && a' != b';
      } else if a == i {
        assert r[b] == fs[b - 1];
      } else {
        assert r[a] == fs[a];
      }
    }
  }

  /** A copy of `fs[i]` under an id no field uses, inserted right after it,
      keeps the ids distinct and carries the new id at `i + 1`. */
  lemma DuplicateKeepsDistinct(fs: seq<Field>, i: nat, newId: string)
    requires i < |fs| && DistinctIds(fs) && newId !in Ids(fs)
    ensures DistinctIds(InsertAt(fs, i + 1, fs[i].(id := newId)))
    ensures InsertAt(fs, i + 1, fs[i].(id := newId))[i + 1].id == newId
  {
    assert !HasId(fs, newId) by {
      forall k | 0 <= k < |fs| ensures fs[k].id != newId {
        assert Ids(fs)[k] == fs[k].id;
      }
    }
    InsertKeepsDistinct(fs, i + 1, fs[i].(id := newId));
  }

  /** Takes the element at `from` out and puts it back at `to`: the outcome a
      drag-to-reorder gesture is meant to have. The element lands at `to`,
      the elements between the two positions shift by one towards `from`,
      and the elements outside that range stay where they were. */
  function Relocate<T>(s: seq<T>, from: nat, to: nat): (r: seq<T>)
    requires from < |s| && to < |s|
    ensures |r| == |s| && r[to] == s[from]
    ensures forall p :: 0 <= p < |s| && p < from && p < to ==> r[p] == s[p]
    ensures forall p :: 0 <= p < |s| && p > from && p > to ==> r[p] == s[p]
    ensures forall p :: from <= p < to ==> r[p] == s[p + 1]
    ensures forall p :: to < p <= from ==> r[p] == s[p - 1]
  {
    var rest := s[..from] + s[from + 1..];
    assert forall p :: 0 <= p < from ==> rest[p] == s[p];
    assert forall p :: from <= p < |rest| ==> rest[p] == s[p + 1];
    var r := rest[..to] + [s[from]] + rest[to..];
    assert forall p :: 0 <= p < to ==> r[p] == rest[p];
    assert forall p :: to < p < |s| ==> r[p] == rest[p - 1];
    r
  }

  /** One step of the walk down: swapping the travelling element (now at `k`)
      with its lower neighbour moves it one position further. */
  lemma RelocateStepDown<T>(s: seq<T>, from: nat, k: nat)
    requires from <= k && k + 1 < |s|
    ensures Swap(Relocate(s, from, k), k, k + 1) == Relocate(s, from, k + 1)
  {
    var a := Swap(Relocate(s, from, k), k, k + 1);
    var b := Relocate(s, from, k + 1);
    forall p | 0 <= p < |s| ensures a[p] == b[p] {
    }
  }

  /** One step of the walk up. */
  lemma RelocateStepUp<T>(s: seq<T>, from: nat, k: nat)
    requires 0 < k <= from < |s|
    ensures Swap(Relocate(s, from, k), k, k - 1) == Relocate(s, from, k - 1)
  {
    var a := Swap(Relocate(s, from, k), k, k - 1);
    var b := Relocate(s, from, k - 1);
    forall p | 0 <= p < |s| ensures a[p] == b[p] {
    }
  }

  lemma RelocateInPlace<T>(s: seq<T>, k: nat)
    requires k < |s|
    ensures Relocate(s, k, k) == s
  {
  }

  /** `initializeFormFields`: the template's fields with fresh ids and
      everything else (labels included) kept. */
  function InitializeFormFields(template: seq<Field>, taken: seq<string>): (r: seq<Field>)
    ensures |r| == |template|
    ensures forall i :: 0 <= i < |r| ==> r[i] == template[i].(id := r[i].id)
    ensures forall i :: 0 <= i < |r| ==> r[i].id !in taken
    ensures DistinctIds(r)
  {
    if template == [] then []
    else
      var id := FreshId(taken);
      var rest := InitializeFormFields(template[1..], taken + [id]);
      var r := [template[0].(id := id)] + rest;
      assert forall i :: 1 <= i < |r| ==> r[i] == rest[i - 1];
      assert forall i :: 1 <= i < |r| ==> template[i] == template[1..][i - 1];
      assert forall i :: 0 <= i < |rest| ==> rest[i].id != id;
      r
  }
}
