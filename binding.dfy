/**
 * Reading a submitted detail form into a row of typed column values
 * (`bindAndConvertForm`): every field of the fiche that is declared in
 * the entity's field list, is not `id` and is not read-only is bound from
 * the POST form and converted according to its declared type.
 */
module Binding {
  import opened Wrappers
  import opened GoInt
  import opened Strconv
  import opened Strings
  import opened Values
  import opened Entity

  /** Layout of a submitted `date` field. */
  const DateLayout := "2006-01-02"
  /** Layout a `datetime` field is stored in. */
  const DbLayout := "2006-01-02 15:04:05"

  /** The spellings a checkbox or boolean field accepts as true. */
  predicate IsTruthy(raw: string)
  {
    raw == "on" || raw == "true" || raw == "1"
  }

  /** Whether a fiche field named `name` is written by the form. */
  predicate Binds(props: map<string, Field>, name: string)
  {
    name in props && props[name].name != "id" && !props[name].readOnly
  }

  /** The value one submitted text becomes, given the fiche definition and the entity field. */
  function Coerce(rt: Runtime, fd: FieldDef, props: Field, raw: string): Value
  {
    if raw == "" then
      (if props.fieldType == "boolean" then Bool(false) else Nil)
    else if fd.comboConfig.Some? || fd.visionConfig.Some? then Str(raw)
    else if props.fieldType == "uint" || props.fieldType == "int" then
      var p := Atoi(raw);
      if p.ok then Int(p.value) else Nil
    else if props.fieldType == "number" then
      match rt.parseFloat(ReplaceAll(raw, ',', '.'))
      case Some(f) => Float(f)
      case None => Nil
    else if props.fieldType == "boolean" then Bool(IsTruthy(raw))
    else if props.fieldType == "date" then
      match rt.parseTime(DateLayout, raw)
      case Some(t) => Time(t)
      case None => Nil
    else if props.fieldType == "datetime" then
      if props.displayFormat != "" then
        match rt.parseTime(props.displayFormat, raw)
        case Some(t) => Str(rt.formatTime(t, DbLayout))
        case None => Nil
      else Str(raw)
    else Str(raw)
  }

  /** The row bound from the fiche fields `fds`, one field after the other. */
  function BoundRow(rt: Runtime, props: map<string, Field>, fds: seq<FieldDef>, form: Params): Row
  {
    if fds == [] then map[]
    else
      var init := BoundRow(rt, props, fds[..|fds| - 1], form);
      var fd := fds[|fds| - 1];
      if Binds(props, fd.name) then init[fd.name := Coerce(rt, fd, props[fd.name], Lookup(form, fd.name))]
      else init
  }

  /**
   * The bound row has a column for every fiche name that binds, and no
   * other; it holds the conversion by the last fiche field of that name.
   */
  lemma {:induction false} BoundRowColumns(rt: Runtime, props: map<string, Field>, fds: seq<FieldDef>, form: Params)
    ensures forall k :: k in BoundRow(rt, props, fds, form) <==> LastIndex(fds, FieldDefName, k) >= 0 && Binds(props, k)
    ensures forall k :: k in BoundRow(rt, props, fds, form) ==>
      && k in props
      && BoundRow(rt, props, fds, form)[k] == Coerce(rt, fds[LastIndex(fds, FieldDefName, k)], props[k], Lookup(form, k))
  {
    if fds != [] {
      var n := |fds| - 1;
      var init := fds[..n];
      var fd := fds[n];
      BoundRowColumns(rt, props, init, form);
      var before := BoundRow(rt, props, init, form);
      var after := BoundRow(rt, props, fds, form);
      forall k
        ensures k in after <==> LastIndex(fds, FieldDefName, k) >= 0 && Binds(props, k)
        ensures k in after ==> k in props && after[k] == Coerce(rt, fds[LastIndex(fds, FieldDefName, k)], props[k], Lookup(form, k))
      {
        if k == fd.name {
          assert LastIndex(fds, FieldDefName, k) == n;
        } else {
          assert LastIndex(fds, FieldDefName, k) == LastIndex(init, FieldDefName, k);
          assert (k in after) == (k in before);
        }
      }
    }
  }

  lemma BoundRowSnoc(rt: Runtime, props: map<string, Field>, fds: seq<FieldDef>, fd: FieldDef, form: Params)
    ensures BoundRow(rt, props, fds + [fd], form) ==
      if Binds(props, fd.name) then BoundRow(rt, props, fds, form)[fd.name := Coerce(rt, fd, props[fd.name], Lookup(form, fd.name))]
      else BoundRow(rt, props, fds, form)
  {
    assert (fds + [fd])[..|fds|] == fds;
  }

  /** The inner loop of `bindAndConvertForm`: the fields of one group. */
  method BindGroup(rt: Runtime, fieldProps: map<string, Field>, before: seq<FieldDef>, fds: seq<FieldDef>, form: Params, values0: Row)
    returns (values: Row)
    requires values0 == BoundRow(rt, fieldProps, before, form)
    ensures values == BoundRow(rt, fieldProps, before + fds, form)
  {
    values := values0;
    var j := 0;
    assert before + fds[..0] == before;
    while j < |fds|
      invariant 0 <= j <= |fds|
      invariant values == BoundRow(rt, fieldProps, before + fds[..j], form)
    {
      var fd := fds[j];
      assert before + fds[..j + 1] == (before + fds[..j]) + [fd];
      BoundRowSnoc(rt, fieldProps, before + fds[..j], fd, form);
      if fd.name !in fieldProps || fieldProps[fd.name].name == "id" || fieldProps[fd.name].readOnly {
        j := j + 1;
        continue;
      }
      var raw := Lookup(form, fd.name);
      values := values[fd.name := Coerce(rt, fd, fieldProps[fd.name], raw)];
      j := j + 1;
    }
    assert fds[..j] == fds;
  }

  /** `bindAndConvertForm`: index the entity fields by name, then walk the fiche group by group. */
  method BindAndConvertForm(rt: Runtime, ec: EntityConfig, form: Params) returns (values: Row)
    ensures values == BoundRow(rt, LastByKey(ec.fields, FieldName), AllFields(GroupsOf(ec.fiche)), form)
  {
    var fieldProps := IndexByKey(ec.fields, FieldName);
    var groups := GroupsOf(ec.fiche);
    values := map[];
    var g := 0;
    while g < |groups|
      invariant 0 <= g <= |groups|
      invariant values == BoundRow(rt, fieldProps, AllFields(groups[..g]), form)
    {
      values := BindGroup(rt, fieldProps, AllFields(groups[..g]), groups[g].fields, form, values);
      AllFieldsStep(groups, g);
      g := g + 1;
    }
    assert groups[..g] == groups;
  }

  /**
   * An empty submission binds `false` for a boolean field and nil for every
   * other type, dates and datetimes included.
   */
  lemma EmptySubmission(rt: Runtime, fd: FieldDef, props: Field)
    ensures props.fieldType == "boolean" ==> Coerce(rt, fd, props, "") == Bool(false)
    ensures props.fieldType != "boolean" ==> Coerce(rt, fd, props, "") == Nil
    ensures props.fieldType in {"date", "datetime"} ==> Coerce(rt, fd, props, "") == Nil
  {
  }

  /**
   * A non-empty submission that fails to parse binds nil, for int, uint,
   * number, date and a datetime with a display format; a combo or vision
   * field, and a datetime without a display format, keep the submitted text.
   */
  lemma FailedParseIsNil(rt: Runtime, fd: FieldDef, props: Field, raw: string)
    requires raw != ""
    ensures fd.comboConfig.Some? || fd.visionConfig.Some? ==> Coerce(rt, fd, props, raw) == Str(raw)
    ensures fd.comboConfig.None? && fd.visionConfig.None? ==>
      && (props.fieldType in {"int", "uint"} && !Atoi(raw).ok ==> Coerce(rt, fd, props, raw) == Nil)
      && (props.fieldType == "number" && rt.parseFloat(ReplaceAll(raw, ',', '.')).None? ==> Coerce(rt, fd, props, raw) == Nil)
      && (props.fieldType == "date" && rt.parseTime(DateLayout, raw).None? ==> Coerce(rt, fd, props, raw) == Nil)
      && (props.fieldType == "datetime" && props.displayFormat != "" && rt.parseTime(props.displayFormat, raw).None? ==>
            Coerce(rt, fd, props, raw) == Nil)
      && (props.fieldType == "datetime" && props.displayFormat == "" ==> Coerce(rt, fd, props, raw) == Str(raw))
  {
  }

  /** A plain integer field binds back the integer whose decimal text was submitted. */
  lemma IntegerRoundTrip(rt: Runtime, fd: FieldDef, props: Field, n: Int64)
    requires fd.comboConfig.None? && fd.visionConfig.None?
    requires props.fieldType == "int" || props.fieldType == "uint"
    ensures Coerce(rt, fd, props, Itoa(n)) == Int(n)
  {
    AtoiItoa(n);
  }

  /** A plain number field reads a comma as the decimal point: "1,5" and "1.5" bind alike. */
  lemma CommaIsDecimalPoint(rt: Runtime, fd: FieldDef, props: Field, raw: string)
    requires fd.comboConfig.None? && fd.visionConfig.None? && props.fieldType == "number"
    ensures Coerce(rt, fd, props, raw) == Coerce(rt, fd, props, ReplaceAll(raw, ',', '.'))
  {
    var once := ReplaceAll(raw, ',', '.');
    var twice := ReplaceAll(once, ',', '.');
    assert forall i :: 0 <= i < |once| ==> twice[i] == once[i];
    assert twice == once;
  }

  /**
   * Only the entity field's read-only flag matters: two fiches that differ
   * only in their own `readonly` flags bind the same row.
   */
  lemma {:induction false} FicheReadOnlyIgnored(rt: Runtime, props: map<string, Field>, fds: seq<FieldDef>, other: seq<FieldDef>, form: Params)
    requires |other| == |fds|
    requires forall i :: 0 <= i < |fds| ==> other[i] == fds[i].(readOnly := other[i].readOnly)
    ensures BoundRow(rt, props, other, form) == BoundRow(rt, props, fds, form)
  {
    if fds != [] {
      var n := |fds| - 1;
      FicheReadOnlyIgnored(rt, props, fds[..n], other[..n], form);
      assert other[n].name == fds[n].name;
      assert other[n].comboConfig == fds[n].comboConfig && other[n].visionConfig == fds[n].visionConfig;
    }
  }
}
