/**
 * Options of the `combo_base` selects of the detail form
 * (`prepareComboData`): each such field runs its query, and every returned
 * row becomes an option whose value is the key column and whose label joins
 * the display columns with the configured separator.
 */
module Combo {
  import opened Wrappers
  import opened Strings
  import opened Values
  import opened Entity

  datatype ComboOption = ComboOption(value: Value, labelText: string)

  /** The printed display columns of a row; a missing column prints as `<nil>`. */
  function LabelParts(rt: Runtime, row: Row, columns: seq<string>): (parts: seq<string>)
    ensures |parts| == |columns|
    ensures forall i :: 0 <= i < |columns| ==> parts[i] == Sprint(rt, Get(row, columns[i]))
  {
    if columns == [] then []
    else LabelParts(rt, row, columns[..|columns| - 1]) + [Sprint(rt, Get(row, columns[|columns| - 1]))]
  }

  function OptionOf(rt: Runtime, row: Row, cfg: ComboFieldConfig): ComboOption
  {
    ComboOption(Get(row, cfg.keyField), Join(LabelParts(rt, row, cfg.displayFields), cfg.separator))
  }

  /** One option per row, in row order. */
  function Options(rt: Runtime, rows: seq<Row>, cfg: ComboFieldConfig): (opts: seq<ComboOption>)
    ensures |opts| == |rows|
    ensures forall i :: 0 <= i < |rows| ==> opts[i] == OptionOf(rt, rows[i], cfg)
  {
    if rows == [] then [] else Options(rt, rows[..|rows| - 1], cfg) + [OptionOf(rt, rows[|rows| - 1], cfg)]
  }

  predicate IsComboBase(fd: FieldDef)
  {
    fd.fieldType == "combo_base" && fd.comboConfig.Some?
  }

  /** The options of every combo field of `fds`, by field name; a later field of the same name wins. */
  function ComboData(rt: Runtime, query: string -> seq<Row>, fds: seq<FieldDef>): map<string, seq<ComboOption>>
  {
    if fds == [] then map[]
    else
      var init := ComboData(rt, query, fds[..|fds| - 1]);
      var fd := fds[|fds| - 1];
      if IsComboBase(fd) then init[fd.name := Options(rt, query(fd.comboConfig.value.sql), fd.comboConfig.value)]
      else init
  }

  /** Position of the last combo field named `k` in `fds`, or -1. */
  function LastComboIndex(fds: seq<FieldDef>, k: string): (i: int)
    ensures -1 <= i < |fds|
    ensures i >= 0 ==> IsComboBase(fds[i]) && fds[i].name == k
    ensures forall j :: i < j < |fds| && fds[j].name == k ==> !IsComboBase(fds[j])
  {
    if fds == [] then -1
    else if IsComboBase(fds[|fds| - 1]) && fds[|fds| - 1].name == k then |fds| - 1
    else LastComboIndex(fds[..|fds| - 1], k)
  }

  /**
   * The keys are the names of the combo fields, and each holds one option
   * per row of the query of the last combo field of that name.
   */
  lemma {:induction false} ComboDataEntries(rt: Runtime, query: string -> seq<Row>, fds: seq<FieldDef>)
    ensures forall k :: k in ComboData(rt, query, fds) <==> LastComboIndex(fds, k) >= 0
    ensures forall k :: k in ComboData(rt, query, fds) ==>
      var fd := fds[LastComboIndex(fds, k)];
      ComboData(rt, query, fds)[k] == Options(rt, query(fd.comboConfig.value.sql), fd.comboConfig.value)
  {
    if fds != [] {
      ComboDataEntries(rt, query, fds[..|fds| - 1]);
    }
  }

  /** The label loop: format each display column, then join with the separator. */
  method BuildLabel(rt: Runtime, row: Row, cfg: ComboFieldConfig) returns (text: string)
    ensures text == Join(LabelParts(rt, row, cfg.displayFields), cfg.separator)
  {
    var parts: seq<string> := [];
    var c := 0;
    while c < |cfg.displayFields|
      invariant 0 <= c <= |cfg.displayFields|
      invariant parts == LabelParts(rt, row, cfg.displayFields[..c])
    {
      assert cfg.displayFields[..c + 1][..c] == cfg.displayFields[..c];
      parts := parts + [Sprint(rt, Get(row, cfg.displayFields[c]))];
      c := c + 1;
    }
    assert cfg.displayFields[..c] == cfg.displayFields;
    text := Join(parts, cfg.separator);
  }

  /** The option loop over the rows a combo query returned. */
  method BuildOptions(rt: Runtime, rows: seq<Row>, cfg: ComboFieldConfig) returns (opts: seq<ComboOption>)
    ensures opts == Options(rt, rows, cfg)
  {
    opts := [];
    var r := 0;
    while r < |rows|
      invariant 0 <= r <= |rows|
      invariant opts == Options(rt, rows[..r], cfg)
    {
      assert rows[..r + 1][..r] == rows[..r];
      var text := BuildLabel(rt, rows[r], cfg);
      opts := opts + [ComboOption(Get(rows[r], cfg.keyField), text)];
      r := r + 1;
    }
    assert rows[..r] == rows;
  }

  lemma ComboDataSnoc(rt: Runtime, query: string -> seq<Row>, fds: seq<FieldDef>, fd: FieldDef)
    ensures ComboData(rt, query, fds + [fd]) ==
      if IsComboBase(fd) then ComboData(rt, query, fds)[fd.name := Options(rt, query(fd.comboConfig.value.sql), fd.comboConfig.value)]
      else ComboData(rt, query, fds)
  {
    assert (fds + [fd])[..|fds|] == fds;
  }

  /**
   * `prepareComboData`: the query runner stands for the database; a query
   * that fails returns no rows.
   */
  method PrepareComboData(rt: Runtime, query: string -> seq<Row>, fiche: FicheConfig)
    returns (comboData: map<string, seq<ComboOption>>)
    ensures comboData == ComboData(rt, query, AllFields(GroupsOf(fiche)))
  {
    var groups := GroupsOf(fiche);
    comboData := map[];
    var g := 0;
    while g < |groups|
      invariant 0 <= g <= |groups|
      invariant comboData == ComboData(rt, query, AllFields(groups[..g]))
    {
      var before := AllFields(groups[..g]);
      var fds := groups[g].fields;
      var j := 0;
      assert before + fds[..0] == before;
      while j < |fds|
        invariant 0 <= j <= |fds|
        invariant comboData == ComboData(rt, query, before + fds[..j])
      {
        var fd := fds[j];
        assert before + fds[..j + 1] == (before + fds[..j]) + [fd];
        ComboDataSnoc(rt, query, before + fds[..j], fd);
        if fd.fieldType == "combo_base" && fd.comboConfig.Some? {
          var rows := query(fd.comboConfig.value.sql);
          var opts := BuildOptions(rt, rows, fd.comboConfig.value);
          comboData := comboData[fd.name := opts];
        }
        j := j + 1;
      }
      assert groups[..g + 1][..g] == groups[..g];
      assert fds[..j] == fds;
      g := g + 1;
    }
    assert groups[..g] == groups;
  }

  /** With two display columns the label is the two printed values around the separator. */
  lemma TwoColumnLabel(rt: Runtime, row: Row, cfg: ComboFieldConfig)
    requires |cfg.displayFields| == 2
    ensures OptionOf(rt, row, cfg).labelText ==
      Sprint(rt, Get(row, cfg.displayFields[0])) + cfg.separator + Sprint(rt, Get(row, cfg.displayFields[1]))
  {
    var parts := LabelParts(rt, row, cfg.displayFields);
    assert parts[1..] == [parts[1]];
    assert Join(parts[1..], cfg.separator) == parts[1];
  }
}
