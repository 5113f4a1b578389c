/**
 * The detail form around an edit: the stored row prepared for display
 * (`editForm`: datetimes in the field's display format, numbers with the
 * fiche's separators, booleans normalised), and the row re-displayed after
 * a failed validation (`repopulateFormOnError`).
 */
module Editing {
  import opened Wrappers
  import opened Strings
  import opened Values
  import opened Entity
  import opened Binding
  import opened Listing
  import opened NumberFormat

  /** A stored boolean as the database driver may return it: an integer, a boolean or text. */
  function NormalizeBool(raw: Value): bool
  {
    match raw
    case Int(i) => i != 0
    case Bool(b) => b
    case Str(s) => IsTruthy(s)
    case _ => false
  }

  /** One declared field of the stored row prepared for display. */
  function EditCell(rt: Runtime, f: Field, ficheByName: map<string, FieldDef>, row: Row): Row
  {
    if f.name !in row || row[f.name] == Nil then row
    else if f.fieldType == "datetime" then
      match row[f.name]
      case Str(s) =>
        (match rt.parseTime(DbLayout, s)
         case Some(t) => row[f.name := Str(rt.formatTime(t, f.displayFormat))]
         case None => row)
      case _ => row
    else if f.fieldType == "number" then NumberCell(rt, f, ficheByName, row)
    else if f.fieldType == "boolean" then row[f.name := Bool(NormalizeBool(row[f.name]))]
    else row
  }

  /** The stored row prepared field after field. */
  function EditRow(rt: Runtime, fields: seq<Field>, ficheByName: map<string, FieldDef>, row: Row): Row
  {
    if fields == [] then row
    else EditCell(rt, fields[|fields| - 1], ficheByName, EditRow(rt, fields[..|fields| - 1], ficheByName, row))
  }

  /** No later declared field of the same name as `fields[i]` has another type than boolean. */
  predicate BooleanAfter(fields: seq<Field>, i: int)
    requires 0 <= i < |fields|
  {
    forall j :: i < j < |fields| && fields[j].name == fields[i].name ==> fields[j].fieldType == "boolean"
  }

  /** Preparing keeps every column, and after it a non-nil boolean column holds a boolean. */
  lemma {:induction false} EditRowColumns(rt: Runtime, fields: seq<Field>, ficheByName: map<string, FieldDef>, row: Row)
    ensures EditRow(rt, fields, ficheByName, row).Keys == row.Keys
    ensures forall k :: k in row && row[k] != Nil ==> EditRow(rt, fields, ficheByName, row)[k] != Nil
    ensures forall i :: 0 <= i < |fields| && fields[i].fieldType == "boolean" && BooleanAfter(fields, i) ==>
      (fields[i].name in row && row[fields[i].name] != Nil ==> EditRow(rt, fields, ficheByName, row)[fields[i].name].Bool?)
  {
    if fields != [] {
      var n := |fields| - 1;
      var init := fields[..n];
      EditRowColumns(rt, init, ficheByName, row);
      var before := EditRow(rt, init, ficheByName, row);
      var f := fields[n];
      assert EditRow(rt, fields, ficheByName, row) == EditCell(rt, f, ficheByName, before);
      forall i | 0 <= i < |fields| && fields[i].fieldType == "boolean" && BooleanAfter(fields, i)
        ensures fields[i].name in row && row[fields[i].name] != Nil ==> EditRow(rt, fields, ficheByName, row)[fields[i].name].Bool?
      {
        if i < n {
          assert init[i] == fields[i];
          assert BooleanAfter(init, i) by {
            forall j | i < j < n && init[j].name == init[i].name
              ensures init[j].fieldType == "boolean"
            {
              assert init[j] == fields[j];
            }
          }
        }
      }
    }
  }

  /** Binding a submitted checkbox and normalising its stored text agree, whatever was submitted. */
  lemma BindThenNormalize(rt: Runtime, fd: FieldDef, props: Field, raw: string)
    requires fd.comboConfig.None? && fd.visionConfig.None? && props.fieldType == "boolean"
    ensures Coerce(rt, fd, props, raw) == Bool(NormalizeBool(Str(raw)))
  {
  }

  /**
   * What preparing makes of the value `v` of a column of the field `f`: a
   * datetime that reads in the database layout is shown in the field's
   * display format, a number is shown with the detail form's separators
   * (by `formatNumber` as written) when the form gives it a decimal
   * separator and it reads as a float, a non-nil boolean is normalised,
   * and any other value is left as it is.
   */
  predicate Prepared(rt: Runtime, f: Field, ficheByName: map<string, FieldDef>, v: Value, w: Value)
  {
    var datetime := f.fieldType == "datetime" && v.Str? && rt.parseTime(DbLayout, v.s).Some?;
    var number := f.fieldType == "number" && v != Nil && FormatsNumbers(ficheByName, f.name)
      && rt.parseFloat(Sprint(rt, v)).Some?;
    var boolean := f.fieldType == "boolean" && v != Nil;
    && (datetime ==> w == Str(rt.formatTime(rt.parseTime(DbLayout, v.s).value, f.displayFormat)))
    && (number ==> w == Str(FormattedNumberAsWritten(
          rt.formatFloat(rt.parseFloat(Sprint(rt, v)).value, ficheByName[f.name].decimals),
          ficheByName[f.name].decimalSeparator, ficheByName[f.name].thousandsSeparator)))
    && (boolean ==> w == Bool(NormalizeBool(v)))
    && (!datetime && !number && !boolean ==> w == v)
  }

  /** One declared field prepares its own column and touches no other. */
  lemma EditCellPrepared(rt: Runtime, f: Field, ficheByName: map<string, FieldDef>, row: Row)
    ensures EditCell(rt, f, ficheByName, row).Keys == row.Keys
    ensures forall k :: k in row && k != f.name ==> EditCell(rt, f, ficheByName, row)[k] == row[k]
    ensures f.name in row ==> Prepared(rt, f, ficheByName, row[f.name], EditCell(rt, f, ficheByName, row)[f.name])
  {
  }

  /** One declared field changes at most its own column. */
  lemma EditCellFrame(rt: Runtime, f: Field, ficheByName: map<string, FieldDef>, row: Row)
    ensures EditCell(rt, f, ficheByName, row).Keys == row.Keys
    ensures forall k :: k in row && k != f.name ==> EditCell(rt, f, ficheByName, row)[k] == row[k]
  {
  }

  /** Preparing keeps every column, and a column no declared field names is unchanged. */
  lemma {:induction false} EditRowUndeclared(rt: Runtime, fields: seq<Field>, ficheByName: map<string, FieldDef>, row: Row)
    ensures EditRow(rt, fields, ficheByName, row).Keys == row.Keys
    ensures forall k :: k in row && Undeclared(fields, k) ==> EditRow(rt, fields, ficheByName, row)[k] == row[k]
  {
    if fields != [] {
      var last := |fields| - 1;
      var init := fields[..last];
      EditRowUndeclared(rt, init, ficheByName, row);
      EditCellFrame(rt, fields[last], ficheByName, EditRow(rt, init, ficheByName, row));
      forall k | k in row && Undeclared(fields, k)
        ensures EditRow(rt, fields, ficheByName, row)[k] == row[k]
      {
        assert Undeclared(init, k) by {
          forall j | 0 <= j < |init|
            ensures init[j].name != k
          {
            assert init[j] == fields[j];
          }
        }
      }
    }
  }

  /** The last declared field, when it is the only one of its name, prepares the stored value of its column. */
  lemma LastFieldPrepared(rt: Runtime, fields: seq<Field>, ficheByName: map<string, FieldDef>, row: Row)
    requires fields != [] && DeclaredOnce(fields, |fields| - 1)
    ensures EditRow(rt, fields, ficheByName, row).Keys == row.Keys
    ensures var f := fields[|fields| - 1];
      f.name in row ==> Prepared(rt, f, ficheByName, row[f.name], EditRow(rt, fields, ficheByName, row)[f.name])
  {
    var last := |fields| - 1;
    var init := fields[..last];
    var f := fields[last];
    EditRowUndeclared(rt, fields, ficheByName, row);
    EditRowUndeclared(rt, init, ficheByName, row);
    assert Undeclared(init, f.name) by {
      forall j | 0 <= j < |init|
        ensures init[j].name != f.name
      {
        assert init[j] == fields[j];
      }
    }
    EditCellPrepared(rt, f, ficheByName, EditRow(rt, init, ficheByName, row));
  }

  /** In the prepared row the column of a field declared once is that field's preparation of the stored value. */
  lemma {:induction false} EditRowValues(rt: Runtime, fields: seq<Field>, ficheByName: map<string, FieldDef>, row: Row)
    ensures EditRow(rt, fields, ficheByName, row).Keys == row.Keys
    ensures forall i :: 0 <= i < |fields| && DeclaredOnce(fields, i) && fields[i].name in row ==>
      Prepared(rt, fields[i], ficheByName, row[fields[i].name], EditRow(rt, fields, ficheByName, row)[fields[i].name])
  {
    EditRowUndeclared(rt, fields, ficheByName, row);
    if fields != [] {
      var last := |fields| - 1;
      var init := fields[..last];
      var f := fields[last];
      EditRowValues(rt, init, ficheByName, row);
      EditCellFrame(rt, f, ficheByName, EditRow(rt, init, ficheByName, row));
      forall i | 0 <= i < |fields| && DeclaredOnce(fields, i) && fields[i].name in row
        ensures Prepared(rt, fields[i], ficheByName, row[fields[i].name], EditRow(rt, fields, ficheByName, row)[fields[i].name])
      {
        if i == last {
          LastFieldPrepared(rt, fields, ficheByName, row);
        } else {
          assert init[i] == fields[i];
          assert DeclaredOnce(init, i) by {
            forall j | 0 <= j < |init| && j != i
              ensures init[j].name != init[i].name
            {
              assert init[j] == fields[j];
            }
          }
        }
      }
    }
  }

  /** The body of the `editForm` loop for one declared field. */
  method EditField(rt: Runtime, ec: EntityConfig, f: Field, row: Row) returns (dataRow: Row)
    ensures dataRow == EditCell(rt, f, ec.ficheFieldsByName, row)
    ensures dataRow.Keys == row.Keys
    ensures forall k :: k in row && k != f.name ==> dataRow[k] == row[k]
    ensures f.name in row ==> Prepared(rt, f, ec.ficheFieldsByName, row[f.name], dataRow[f.name])
  {
    dataRow := row;
    if f.name !in row || row[f.name] == Nil {
      return;
    }
    var raw := row[f.name];
    if f.fieldType == "datetime" {
      if raw.Str? {
        var t := rt.parseTime(DbLayout, raw.s);
        if t.Some? {
          dataRow := row[f.name := Str(rt.formatTime(t.value, f.displayFormat))];
        }
      }
    } else if f.fieldType == "number" {
      if FormatsNumbers(ec.ficheFieldsByName, f.name) {
        var fd := ec.ficheFieldsByName[f.name];
        var num := rt.parseFloat(Sprint(rt, raw));
        if num.Some? {
          var text := FormatNumberAsWritten(rt, num.value, fd.decimals, fd.decimalSeparator, fd.thousandsSeparator);
          dataRow := row[f.name := Str(text)];
        }
      }
    } else if f.fieldType == "boolean" {
      var b: bool;
      match raw {
        case Int(i) => b := i != 0;
        case Bool(v) => b := v;
        case Str(s) => b := s == "true" || s == "1" || s == "on";
        case _ => b := false;
      }
      dataRow := row[f.name := Bool(b)];
    }
  }

  /** The `editForm` loop over the declared fields. */
  method PrepareEditRow(rt: Runtime, ec: EntityConfig, stored: Row) returns (dataRow: Row)
    ensures dataRow == EditRow(rt, ec.fields, ec.ficheFieldsByName, stored)
  {
    var fields := ec.fields;
    dataRow := stored;
    var k := 0;
    while k < |fields|
      invariant 0 <= k <= |fields|
      invariant dataRow == EditRow(rt, fields[..k], ec.ficheFieldsByName, stored)
    {
      assert fields[..k + 1][..k] == fields[..k];
      dataRow := EditField(rt, ec, fields[k], dataRow);
      k := k + 1;
    }
    assert fields[..k] == fields;
  }

  /** The names of the fields of `fds`. */
  function NamesOf(fds: seq<FieldDef>): set<string>
  {
    set i | 0 <= i < |fds| :: fds[i].name
  }

  /**
   * `repopulateFormOnError`: every fiche field shows the text just
   * submitted, and an edit keeps the id from the path.
   */
  method RepopulateFormOnError(fiche: FicheConfig, form: Params, mode: string, path: Params) returns (dataRow: Row)
    ensures dataRow.Keys == NamesOf(AllFields(GroupsOf(fiche))) + (if mode == "edit" then {"id"} else {})
    ensures forall k :: k in dataRow ==>
      dataRow[k] == if mode == "edit" && k == "id" then Str(Lookup(path, "id")) else Str(Lookup(form, k))
  {
    var groups := GroupsOf(fiche);
    dataRow := map[];
    var g := 0;
    while g < |groups|
      invariant 0 <= g <= |groups|
      invariant dataRow.Keys == NamesOf(AllFields(groups[..g]))
      invariant forall k :: k in dataRow ==> dataRow[k] == Str(Lookup(form, k))
    {
      var before := AllFields(groups[..g]);
      var fds := groups[g].fields;
      var j := 0;
      assert before + fds[..0] == before;
      while j < |fds|
        invariant 0 <= j <= |fds|
        invariant dataRow.Keys == NamesOf(before + fds[..j])
        invariant forall k :: k in dataRow ==> dataRow[k] == Str(Lookup(form, k))
      {
        var seen := before + fds[..j];
        assert before + fds[..j + 1] == seen + [fds[j]];
        NamesSnoc(seen, fds[j]);
        dataRow := dataRow[fds[j].name := Str(Lookup(form, fds[j].name))];
        j := j + 1;
      }
      assert groups[..g + 1][..g] == groups[..g];
      assert fds[..j] == fds;
      g := g + 1;
    }
    assert groups[..g] == groups;
    if mode == "edit" {
      dataRow := dataRow["id" := Str(Lookup(path, "id"))];
    }
  }

  lemma NamesSnoc(fds: seq<FieldDef>, fd: FieldDef)
    ensures NamesOf(fds + [fd]) == NamesOf(fds) + {fd.name}
  {
    var xs := fds + [fd];
    forall k | k in NamesOf(xs) ensures k in NamesOf(fds) + {fd.name} {
      var i :| 0 <= i < |xs| && xs[i].name == k;
      if i < |fds| {
        assert fds[i] == xs[i];
      }
    }
    forall k | k in NamesOf(fds) ensures k in NamesOf(xs) {
      var i :| 0 <= i < |fds| && fds[i].name == k;
      assert xs[i] == fds[i];
    }
    assert xs[|fds|] == fd;
  }
}
