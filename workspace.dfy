/** The field list the user edits (src/components/Workspace.tsx): the field
    record, the default field, adding and removing rows, loading a preset,
    and the per-row edits. The list-building handlers create new arrays
    (spread, `filter`, `map`) and are modelled as functions on values; the
    row edits assign an attribute of a field object that the old and the
    new array share, so fields are objects (`Key`) and the list a sequence
    of references, held by the `Workspace` class. */
module Workspace {
  import opened Base

  /** One keycap's description. `labelType` is the source's `type`
      (0 = General, 1 = Centered); `model` selects the base shape
      (0 = Normal, 1 = Pit, 2 = Flat). Both are plain numbers in the source
      and are kept as integers, out-of-range values included. */
  datatype Field = Field(
    main: string, shift: string, fn: string, center: string,
    angle: int, labelType: int, needBump: bool, model: int)

  /** `defaultField()`: empty labels, angle 0, General, no bump, Normal. */
  function DefaultField(): (f: Field)
    ensures f.main == "" && f.shift == "" && f.fn == "" && f.center == ""
    ensures f.angle == 0 && f.labelType == 0 && !f.needBump && f.model == 0
  {
    Field("", "", "", "", 0, 0, false, 0)
  }

  /** `handleAddField`: `[...fields, defaultField()]`. */
  function AddField(rows: seq<Field>): (r: seq<Field>)
    ensures |r| == |rows| + 1
    ensures r[..|rows|] == rows && r[|rows|] == DefaultField()
  {
    rows + [DefaultField()]
  }

  /** `fields.filter((_, i) => i !== index)`. */
  function FilterIndex<T>(s: seq<T>, index: int): (r: seq<T>)
    ensures r == if 0 <= index < |s| then s[..index] + s[index + 1..] else s
  {
    if |s| == 0 then []
    else
      var rest := FilterIndex(s[1..], index - 1);
      assert 0 <= index - 1 < |s[1..]| ==> s[1..][..index - 1] + s[1..][index..] == s[1..index] + s[index + 1..];
      if index == 0 then rest else [s[0]] + rest
  }

  /** `handleRemoveField`: drop the row at `index`; a list left empty
      becomes a single default field. */
  function RemoveField(rows: seq<Field>, index: int): (r: seq<Field>)
    ensures |r| >= 1
    ensures 0 <= index < |rows| && |rows| > 1 ==> r == rows[..index] + rows[index + 1..]
    ensures (index < 0 || index >= |rows|) && |rows| > 0 ==> r == rows
    ensures |rows| <= 1 && (|rows| == 0 || index == 0) ==> r == [DefaultField()]
  {
    var kept := FilterIndex(rows, index);
    if |kept| == 0 then [DefaultField()] else kept
  }

  /** Removing the row just added gives the list back. */
  lemma RemoveAddedField(rows: seq<Field>)
    requires |rows| > 0
    ensures RemoveField(AddField(rows), |rows|) == rows
  {
  }

  /** The `presets` table: the two bundled layouts, then "Blank". Their JSON
      data is not part of this model; it is supplied when the workspace is
      created. */
  function Presets(ansi: seq<Field>, nescius66: seq<Field>): (p: seq<seq<Field>>)
    ensures |p| == 3 && p[2] == [DefaultField()]
  {
    [ansi, nescius66, [DefaultField()]]
  }

  /** `loadPreset` as written: the guard `preset < 0 && preset < presets.length`
      only rejects negative indices, so an index past the table reaches
      `presets[preset].map` on `undefined` and throws. */
  function LoadPresetAsWritten(presets: seq<seq<Field>>, rows: seq<Field>, preset: int): Result<seq<Field>>
  {
    if preset < 0 && preset < |presets| then Success(rows)
    else if preset < |presets| then Success(presets[preset])
    else Failure("TypeError: Cannot read properties of undefined (reading 'map')")
  }

  /** The guard as written throws for the first index past the table. */
  lemma LoadPresetGuardMissesUpperBound(presets: seq<seq<Field>>, rows: seq<Field>)
    ensures LoadPresetAsWritten(presets, rows, |presets|).Failure?
  {
  }

  /** `loadPreset` with the evidently intended guard: an index outside the
      table leaves the fields as they are, any other index yields the
      chosen preset's fields in order. */
  function LoadPreset(presets: seq<seq<Field>>, rows: seq<Field>, preset: int): (r: seq<Field>)
    ensures 0 <= preset < |presets| ==> r == presets[preset]
    ensures !(0 <= preset < |presets|) ==> r == rows
  {
    if preset < 0 || preset >= |presets| then rows else presets[preset]
  }

  /** The corrected guard agrees with the source wherever the source does not
      throw. */
  lemma LoadPresetAgrees(presets: seq<seq<Field>>, rows: seq<Field>, preset: int)
    ensures LoadPresetAsWritten(presets, rows, preset).Success? <==> preset < |presets|
    ensures LoadPresetAsWritten(presets, rows, preset).Success? ==>
              LoadPresetAsWritten(presets, rows, preset).value == LoadPreset(presets, rows, preset)
  {
  }

  /** One row `onChange`: the attribute it sets and the value. `NeedBump`
      carries the selected number, and the bump is on exactly when it is 1. */
  datatype Edit =
    | SetMain(main: string) | SetShift(shift: string) | SetFn(fn: string)
    | SetCenter(center: string) | SetAngle(angle: int) | SetLabelType(labelType: int)
    | SetNeedBump(selected: int) | SetModel(model: int)

  /** The field after one edit: only the edited attribute changes. */
  function ApplyEdit(f: Field, e: Edit): (g: Field)
    ensures e.SetNeedBump? ==> (g.needBump <==> e.selected == 1)
    ensures e.SetMain? ==> g.main == e.main
    ensures e.SetShift? ==> g.shift == e.shift
    ensures e.SetFn? ==> g.fn == e.fn
    ensures e.SetCenter? ==> g.center == e.center
    ensures e.SetAngle? ==> g.angle == e.angle
    ensures e.SetLabelType? ==> g.labelType == e.labelType
    ensures e.SetModel? ==> g.model == e.model
    ensures !e.SetMain? ==> g.main == f.main
    ensures !e.SetShift? ==> g.shift == f.shift
    ensures !e.SetFn? ==> g.fn == f.fn
    ensures !e.SetCenter? ==> g.center == f.center
    ensures !e.SetAngle? ==> g.angle == f.angle
    ensures !e.SetLabelType? ==> g.labelType == f.labelType
    ensures !e.SetNeedBump? ==> g.needBump == f.needBump
    ensures !e.SetModel? ==> g.model == f.model
  {
    match e
    case SetMain(v) => f.(main := v)
    case SetShift(v) => f.(shift := v)
    case SetFn(v) => f.(fn := v)
    case SetCenter(v) => f.(center := v)
    case SetAngle(v) => f.(angle := v)
    case SetLabelType(v) => f.(labelType := v)
    case SetNeedBump(v) => f.(needBump := v == 1)
    case SetModel(v) => f.(model := v)
  }

  /** A field object, as the rows hold it. */
  class Key {
    var main: string
    var shift: string
    var fn: string
    var center: string
    var angle: int
    var labelType: int
    var needBump: bool
    var model: int

    /** The field this object currently describes. */
    function Value(): Field
      reads this
    {
      Field(main, shift, fn, center, angle, labelType, needBump, model)
    }

    /** `{ ...field }`: a fresh object with the same attributes. */
    constructor (f: Field)
      ensures Value() == f
    {
      main, shift, fn, center := f.main, f.shift, f.fn, f.center;
      angle, labelType, needBump, model := f.angle, f.labelType, f.needBump, f.model;
    }

    /** `newFields[rowIndex].<attr> = value` on this object. */
    method Apply(e: Edit)
      modifies this
      ensures Value() == ApplyEdit(old(Value()), e)
    {
      match e
      case SetMain(v) => main := v;
      case SetShift(v) => shift := v;
      case SetFn(v) => fn := v;
      case SetCenter(v) => center := v;
      case SetAngle(v) => angle := v;
      case SetLabelType(v) => labelType := v;
      case SetNeedBump(v) => needBump := v == 1;
      case SetModel(v) => model := v;
    }
  }

  /** The values of a row list. */
  ghost function Values(keys: seq<Key>): (r: seq<Field>)
    reads keys
    ensures |r| == |keys| && forall i :: 0 <= i < |keys| ==> r[i] == keys[i].Value()
  {
    if |keys| == 0 then [] else Values(keys[..|keys| - 1]) + [keys[|keys| - 1].Value()]
  }

  /** Filtering the row list filters its values. */
  lemma FilterValues(keys: seq<Key>, index: int)
    ensures Values(FilterIndex(keys, index)) == FilterIndex(Values(keys), index)
  {
    if 0 <= index < |keys| {
      ValuesDrop(keys, index);
    }
  }

  /** Dropping one row drops its value. */
  lemma ValuesDrop(keys: seq<Key>, index: int)
    requires 0 <= index < |keys|
    ensures Values(keys[..index] + keys[index + 1..]) == Values(keys)[..index] + Values(keys)[index + 1..]
  {
    var kept, all := keys[..index] + keys[index + 1..], Values(keys);
    var r := all[..index] + all[index + 1..];
    forall i | 0 <= i < |kept| ensures Values(kept)[i] == r[i] {
      DropAt(keys, index, i);
      DropAt(all, index, i);
    }
  }

  /** Entry `i` after dropping entry `index`. */
  lemma DropAt<T>(s: seq<T>, index: int, i: int)
    requires 0 <= index < |s| && 0 <= i < |s| - 1
    ensures (s[..index] + s[index + 1..])[i] == s[if i < index then i else i + 1]
  {
  }

  /** Filtering keeps the row objects distinct. */
  lemma FilterDistinct(keys: seq<Key>, index: int)
    requires Distinct(keys)
    ensures Distinct(FilterIndex(keys, index))
  {
    if 0 <= index < |keys| {
      var kept := keys[..index] + keys[index + 1..];
      forall i, j | 0 <= i < j < |kept| ensures kept[i] != kept[j] {
        DropAt(keys, index, i);
        DropAt(keys, index, j);
      }
    }
  }

  /** No field object appears in two rows. */
  ghost predicate Distinct(keys: seq<Key>) {
    forall i, j :: 0 <= i < j < |keys| ==> keys[i] != keys[j]
  }

  /** The `fields` state of the workspace component. */
  class Workspace {
    var fields: seq<Key>
    const presets: seq<seq<Field>>

    ghost predicate Valid()
      reads this
    {
      Distinct(fields)
    }

    ghost function Rows(): seq<Field>
      reads this, fields
    {
      Values(fields)
    }

    /** `useState([defaultField()])` with the preset table. (The mount effect
        that then loads preset 0 is a `LoadPreset(0)` call.) */
    constructor (ansi: seq<Field>, nescius66: seq<Field>)
      ensures Valid() && fresh(fields)
      ensures Rows() == [DefaultField()] && presets == Presets(ansi, nescius66)
    {
      var k := new Key(DefaultField());
      fields := [k];
      presets := Presets(ansi, nescius66);
    }

    method HandleAddField()
      requires Valid()
      modifies this
      ensures Valid()
      ensures |fields| == |old(fields)| + 1
      ensures fields[..|old(fields)|] == old(fields) && fresh(fields[|old(fields)|])
      ensures Rows() == AddField(old(Rows()))
    {
      var k := new Key(DefaultField());
      fields := fields + [k];
      assert fields[..|fields| - 1] == old(fields);
    }

    method HandleRemoveField(index: int)
      requires Valid()
      modifies this
      ensures Valid()
      ensures Rows() == RemoveField(old(Rows()), index)
    {
      ghost var before := Rows();
      var kept := FilterIndex(fields, index);
      FilterValues(fields, index);
      assert |FilterIndex(before, index)| == |kept|;
      if |kept| == 0 {
        assert RemoveField(before, index) == [DefaultField()];
        var k := new Key(DefaultField());
        fields := [k];
      } else {
        assert RemoveField(before, index) == Values(kept);
        FilterDistinct(fields, index);
        fields := kept;
      }
    }

    /** `loadPreset` with the corrected guard; the rows become fresh copies
        of the preset's fields. */
    method LoadPresetRows(preset: int)
      requires Valid()
      modifies this
      ensures Valid()
      ensures Rows() == LoadPreset(presets, old(Rows()), preset)
      ensures !(0 <= preset < |presets|) ==> fields == old(fields)
      ensures 0 <= preset < |presets| ==> forall i :: 0 <= i < |fields| ==> fresh(fields[i])
    {
      if preset < 0 || preset >= |presets| {
        return;
      }
      var source := presets[preset];
      var copies: seq<Key> := [];
      for i := 0 to |source|
        invariant |copies| == i && Distinct(copies)
        invariant forall j :: 0 <= j < i ==> fresh(copies[j]) && copies[j].Value() == source[j]
      {
        var k := new Key(source[i]);
        copies := copies + [k];
      }
      fields := copies;
    }

    /** A row `onChange`: the new array is a copy of the old one whose
        `rowIndex` element is edited in place, so the old and the new list
        hold the same objects and only that row's attribute changes. */
    method EditRow(rowIndex: nat, e: Edit)
      requires Valid() && rowIndex < |fields|
      modifies fields[rowIndex]
      ensures Valid() && fields == old(fields)
      ensures Rows() == old(Rows())[rowIndex := ApplyEdit(old(Rows())[rowIndex], e)]
    {
      var newFields := fields;
      newFields[rowIndex].Apply(e);
    }
  }
}
