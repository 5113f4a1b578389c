/**
 * Assembly of an `EntityConfig` from a decoded entity document: the
 * field-by-field merge of list and detail-form configurations with the
 * process-wide defaults, dispatch on each form's kind, the name indexes, and
 * the generic fallbacks for page size and sorting. YAML decoding and file
 * reading are outside the model: the document arrives already decoded, and
 * each form carries the outcome of decoding its `config` node as each of
 * the three configuration types.
 */
module EntityLoader {
  import opened Wrappers
  import opened Values
  import opened FormCodes
  import opened Entity

  // ---------------------------------------------------------------------
  // Merge with defaults (reflection replaced by an explicit per-field merge)
  // ---------------------------------------------------------------------

  /** A string field keeps its value unless it is "", Go's zero string. */
  function PickString(s: string, d: string): string { if s == "" then d else s }

  /** An int field keeps its value unless it is 0. */
  function PickInt(s: int, d: int): int { if s == 0 then d else s }

  /** A slice field keeps its value unless it is nil; an explicit empty list is kept. */
  function PickSlice<T>(s: Option<seq<T>>, d: Option<seq<T>>): Option<seq<T>> { if s.None? then d else s }

  function KeysOf(m: Option<map<string, string>>): set<string>
  {
    if m.Some? then m.value.Keys else {}
  }

  /**
   * The map-field merge as its comment describes it: a nil specific map
   * becomes the default map; otherwise every specific key stays, and each
   * default key whose specific value is missing or "" receives the
   * default's value.
   */
  function MergedMap(s: Option<map<string, string>>, d: Option<map<string, string>>): (r: Option<map<string, string>>)
    ensures MapMerged(s, d, r)
  {
    if s.None? then d
    else if d.None? then s
    else Some(map k | k in s.value.Keys + d.value.Keys ::
      if k in d.value && (k !in s.value || s.value[k] == "") then d.value[k] else s.value[k])
  }

  /**
   * The map-field merge as the source writes it. `MapIndex` of a key the
   * specific map lacks is an invalid reflect value, and `IsZero` panics on
   * it; `None` stands for that panic.
   */
  function MergedMapAsWritten(s: Option<map<string, string>>, d: Option<map<string, string>>): Option<Option<map<string, string>>>
  {
    if s.Some? && d.Some? && !(d.value.Keys <= s.value.Keys) then None
    else Some(MergedMap(s, d))
  }

  /** A detail form that sets one title while the defaults define two panics instead of gaining the second title. */
  lemma MapMergePanicsOnAbsentKey()
    ensures MergedMapAsWritten(Some(map["edit" := "Modifier"]), Some(map["edit" := "Edit", "new" := "Nouveau"])) == None
    ensures MergedMap(Some(map["edit" := "Modifier"]), Some(map["edit" := "Edit", "new" := "Nouveau"]))
      == Some(map["edit" := "Modifier", "new" := "Nouveau"])
  {
    var d := map["edit" := "Edit", "new" := "Nouveau"];
    assert "new" in d.Keys && "new" !in map["edit" := "Modifier"].Keys;
    var r := MergedMap(Some(map["edit" := "Modifier"]), Some(d)).value;
    assert r.Keys == {"edit", "new"};
    assert r["edit"] == "Modifier" && r["new"] == "Nouveau";
    assert r == map["edit" := "Modifier", "new" := "Nouveau"];
  }

  /** Whenever the source does not panic, it computes what the comment describes. */
  lemma AsWrittenAgreesWithoutPanic(s: Option<map<string, string>>, d: Option<map<string, string>>)
    requires MergedMapAsWritten(s, d).Some?
    ensures MergedMapAsWritten(s, d).value == MergedMap(s, d)
    ensures s.Some? && d.Some? ==> d.value.Keys <= s.value.Keys
  {
  }

  /** The loop over the default map's keys that fills the specific map in place. */
  method FillMissingKeys(s: map<string, string>, d: map<string, string>) returns (r: map<string, string>)
    ensures Some(r) == MergedMap(Some(s), Some(d))
  {
    r := s;
    var todo := d.Keys;
    while todo != {}
      invariant todo <= d.Keys
      invariant r.Keys == s.Keys + (d.Keys - todo)
      invariant forall k :: k in r ==>
        r[k] == if k in d && k !in todo && (k !in s || s[k] == "") then d[k] else s[k]
      decreases todo
    {
      var key :| key in todo;
      if key !in r || r[key] == "" {
        r := r[key := d[key]];
      }
      todo := todo - {key};
    }
    FilledIsMerged(s, d, r);
  }

  /** The loop's final state is the merge: every default key visited, every value as the merge gives it. */
  lemma FilledIsMerged(s: map<string, string>, d: map<string, string>, r: map<string, string>)
    requires r.Keys == s.Keys + d.Keys
    requires forall k :: k in r ==> r[k] == if k in d && (k !in s || s[k] == "") then d[k] else s[k]
    ensures Some(r) == MergedMap(Some(s), Some(d))
  {
    assert r == map k | k in s.Keys + d.Keys :: if k in d && (k !in s || s[k] == "") then d[k] else s[k];
  }

  /** Merging a map twice with the same defaults changes nothing more. */
  lemma {:induction false} MergedMapIdempotent(s: Option<map<string, string>>, d: Option<map<string, string>>)
    ensures MergedMap(MergedMap(s, d), d) == MergedMap(s, d)
  {
    var r := MergedMap(s, d);
    if r.Some? && d.Some? {
      var rr := MergedMap(r, d);
      assert rr.value.Keys == r.value.Keys;
      forall k | k in r.value
        ensures rr.value[k] == r.value[k]
      {
        if k in d.value && r.value[k] == "" {
          assert s.None? || (k in s.value && s.value[k] == "") || k !in s.value;
        }
      }
      assert rr.value == r.value;
    }
  }

  /** `mergeWithDefaults` on a list configuration: every zero field takes the default's value. */
  function MergedList(s: ListConfig, d: ListConfig): ListConfig
  {
    ListConfig(
      PickString(s.name, d.name),
      PickString(s.title, d.title),
      PickInt(s.pageSize, d.pageSize),
      PickString(s.defaultSortField, d.defaultSortField),
      PickString(s.defaultSortOrder, d.defaultSortOrder),
      PickSlice(s.pageSizeOptions, d.pageSizeOptions),
      PickSlice(s.columns, d.columns),
      PickSlice(s.searchableFields, d.searchableFields),
      PickSlice(s.sortableFields, d.sortableFields),
      PickString(s.width, d.width),
      PickString(s.maxWidth, d.maxWidth),
      PickString(s.formBackgroundColor, d.formBackgroundColor),
      PickString(s.pageBackgroundColor, d.pageBackgroundColor),
      PickString(s.buttonFontSize, d.buttonFontSize),
      PickString(s.paginationButtonFontSize, d.paginationButtonFontSize),
      PickString(s.paginationTextFontSize, d.paginationTextFontSize),
      PickSlice(s.columnWidths, d.columnWidths),
      PickString(s.columnHeaderFontSize, d.columnHeaderFontSize),
      PickSlice(s.columnAlignments, d.columnAlignments))
  }

  /** `mergeWithDefaults` on a detail form: scalar and slice fields as for lists, map fields key by key. */
  function MergedFiche(s: FicheConfig, d: FicheConfig): FicheConfig
  {
    FicheConfig(
      PickString(s.name, d.name),
      PickSlice(s.groups, d.groups),
      MergedMap(s.titles, d.titles),
      MergedMap(s.buttonLabels, d.buttonLabels),
      PickString(s.width, d.width),
      PickString(s.maxWidth, d.maxWidth),
      PickString(s.formBackgroundColor, d.formBackgroundColor),
      PickString(s.pageBackgroundColor, d.pageBackgroundColor),
      PickString(s.tabInactiveBackgroundColor, d.tabInactiveBackgroundColor),
      PickString(s.tabActiveBackgroundColor, d.tabActiveBackgroundColor),
      PickString(s.tabContentBackgroundColor, d.tabContentBackgroundColor),
      PickString(s.labelColumnWidth, d.labelColumnWidth),
      PickString(s.tabLabelFontSize, d.tabLabelFontSize),
      PickString(s.buttonFontSize, d.buttonFontSize),
      PickString(s.formActionButtonsFontSize, d.formActionButtonsFontSize),
      PickString(s.formContentMaxHeightAdjustment, d.formContentMaxHeightAdjustment))
  }

  /** The map-valued fields go through the key loop; every other field is picked as in `MergedFiche`. */
  method MergeFiche(s: FicheConfig, d: FicheConfig) returns (r: FicheConfig)
    ensures r == MergedFiche(s, d)
  {
    r := MergedFiche(s.(titles := None, buttonLabels := None), d.(titles := None, buttonLabels := None));
    var titles := d.titles;
    if s.titles.Some? {
      titles := s.titles;
      if d.titles.Some? {
        var filled := FillMissingKeys(s.titles.value, d.titles.value);
        titles := Some(filled);
      }
    }
    var labels := d.buttonLabels;
    if s.buttonLabels.Some? {
      labels := s.buttonLabels;
      if d.buttonLabels.Some? {
        var filled := FillMissingKeys(s.buttonLabels.value, d.buttonLabels.value);
        labels := Some(filled);
      }
    }
    r := r.(titles := titles, buttonLabels := labels);
  }

  /** A string field: kept when set, the default's when "". */
  predicate StringMerged(s: string, d: string, r: string)
  {
    (s != "" ==> r == s) && (s == "" ==> r == d)
  }

  /** An int field: kept when non-zero, the default's when 0. */
  predicate IntMerged(s: int, d: int, r: int)
  {
    (s != 0 ==> r == s) && (s == 0 ==> r == d)
  }

  /** A slice field: kept when non-nil (even empty), the default's when nil. */
  predicate SliceMerged<T(==)>(s: Option<seq<T>>, d: Option<seq<T>>, r: Option<seq<T>>)
  {
    (s.Some? ==> r == s) && (s.None? ==> r == d)
  }

  /**
   * A map field: the default's when nil; otherwise every key of either map,
   * a non-empty specific value kept, a missing or empty one replaced by the
   * default's, and a key without default kept as it is.
   */
  predicate MapMerged(s: Option<map<string, string>>, d: Option<map<string, string>>, r: Option<map<string, string>>)
  {
    && (s.None? ==> r == d)
    && (s.Some? ==>
          && r.Some? && r.value.Keys == s.value.Keys + KeysOf(d)
          && (forall k :: k in s.value && s.value[k] != "" ==> r.value[k] == s.value[k])
          && (forall k :: k in s.value && k !in KeysOf(d) ==> r.value[k] == s.value[k])
          && (d.Some? ==> forall k :: k in d.value && (k !in s.value || s.value[k] == "") ==> r.value[k] == d.value[k]))
  }

  /**
   * Every field of a merged list configuration: a non-zero field is kept, a
   * zero one takes the default, so an explicit 0 or "" can never survive a
   * non-zero default.
   */
  lemma MergedListFields(s: ListConfig, d: ListConfig)
    ensures var r := MergedList(s, d);
      && StringMerged(s.name, d.name, r.name)
      && StringMerged(s.title, d.title, r.title)
      && IntMerged(s.pageSize, d.pageSize, r.pageSize)
      && StringMerged(s.defaultSortField, d.defaultSortField, r.defaultSortField)
      && StringMerged(s.defaultSortOrder, d.defaultSortOrder, r.defaultSortOrder)
      && SliceMerged(s.pageSizeOptions, d.pageSizeOptions, r.pageSizeOptions)
      && SliceMerged(s.columns, d.columns, r.columns)
      && SliceMerged(s.searchableFields, d.searchableFields, r.searchableFields)
      && SliceMerged(s.sortableFields, d.sortableFields, r.sortableFields)
      && StringMerged(s.width, d.width, r.width)
      && StringMerged(s.maxWidth, d.maxWidth, r.maxWidth)
      && StringMerged(s.formBackgroundColor, d.formBackgroundColor, r.formBackgroundColor)
      && StringMerged(s.pageBackgroundColor, d.pageBackgroundColor, r.pageBackgroundColor)
      && StringMerged(s.buttonFontSize, d.buttonFontSize, r.buttonFontSize)
      && StringMerged(s.paginationButtonFontSize, d.paginationButtonFontSize, r.paginationButtonFontSize)
      && StringMerged(s.paginationTextFontSize, d.paginationTextFontSize, r.paginationTextFontSize)
      && SliceMerged(s.columnWidths, d.columnWidths, r.columnWidths)
      && StringMerged(s.columnHeaderFontSize, d.columnHeaderFontSize, r.columnHeaderFontSize)
      && SliceMerged(s.columnAlignments, d.columnAlignments, r.columnAlignments)
  {
  }

  /** Every field of a merged detail form, the map fields merged key by key. */
  lemma MergedFicheFields(s: FicheConfig, d: FicheConfig)
    ensures var r := MergedFiche(s, d);
      && StringMerged(s.name, d.name, r.name)
      && SliceMerged(s.groups, d.groups, r.groups)
      && MapMerged(s.titles, d.titles, r.titles)
      && MapMerged(s.buttonLabels, d.buttonLabels, r.buttonLabels)
      && StringMerged(s.width, d.width, r.width)
      && StringMerged(s.maxWidth, d.maxWidth, r.maxWidth)
      && StringMerged(s.formBackgroundColor, d.formBackgroundColor, r.formBackgroundColor)
      && StringMerged(s.pageBackgroundColor, d.pageBackgroundColor, r.pageBackgroundColor)
      && StringMerged(s.tabInactiveBackgroundColor, d.tabInactiveBackgroundColor, r.tabInactiveBackgroundColor)
      && StringMerged(s.tabActiveBackgroundColor, d.tabActiveBackgroundColor, r.tabActiveBackgroundColor)
      && StringMerged(s.tabContentBackgroundColor, d.tabContentBackgroundColor, r.tabContentBackgroundColor)
      && StringMerged(s.labelColumnWidth, d.labelColumnWidth, r.labelColumnWidth)
      && StringMerged(s.tabLabelFontSize, d.tabLabelFontSize, r.tabLabelFontSize)
      && StringMerged(s.buttonFontSize, d.buttonFontSize, r.buttonFontSize)
      && StringMerged(s.formActionButtonsFontSize, d.formActionButtonsFontSize, r.formActionButtonsFontSize)
      && StringMerged(s.formContentMaxHeightAdjustment, d.formContentMaxHeightAdjustment, r.formContentMaxHeightAdjustment)
  {
  }

  /** Merging twice with the same defaults equals merging once. */
  lemma MergedListIdempotent(s: ListConfig, d: ListConfig)
    ensures MergedList(MergedList(s, d), d) == MergedList(s, d)
  {
  }

  /** Merging twice with the same defaults equals merging once, map fields included. */
  lemma {:induction false} MergedFicheIdempotent(s: FicheConfig, d: FicheConfig)
    ensures MergedFiche(MergedFiche(s, d), d) == MergedFiche(s, d)
  {
    MergedMapIdempotent(s.titles, d.titles);
    MergedMapIdempotent(s.buttonLabels, d.buttonLabels);
  }

  // ---------------------------------------------------------------------
  // The decoded document and the load
  // ---------------------------------------------------------------------

  datatype YamlEntityHeader = YamlEntityHeader(
    name: string, table: string, labelText: string, labelPlural: string, defaultPageSize: int)

  datatype YamlField = YamlField(
    name: string, fieldType: string, labelText: string, readOnly: bool, required: bool,
    defaultValue: Value, displayFormat: string, maxLength: int)

  /** One entry of `forms`, with the outcome of decoding its `config` node as each configuration type. */
  datatype FormDoc = FormDoc(
    name: string, formType: string,
    asList: Result<ListConfig, string>,
    asFiche: Result<FicheConfig, string>,
    asVision: Result<VisionFormConfig, string>)

  datatype YamlEntity = YamlEntity(entity: YamlEntityHeader, fields: seq<YamlField>, forms: seq<FormDoc>)

  /** The process-wide default templates for list and detail forms. */
  datatype Defaults = Defaults(list: ListConfig, fiche: FicheConfig)

  datatype LoadError =
    | ReadError(path: string, cause: string)
    | DecodeError(formType: string, formName: string, cause: string)

  /** What the form loop has assembled so far. */
  datatype FormsState = FormsState(list: ListConfig, fiche: FicheConfig, visions: map<string, VisionFormConfig>)

  const NoForms: FormsState := FormsState(ZeroList, ZeroFiche, map[])

  function FieldOf(f: YamlField): Field
  {
    Field(f.name, f.labelText, f.fieldType, f.readOnly, f.required, f.defaultValue, f.displayFormat, f.maxLength)
  }

  /** The list a "list" form yields: its decoded config named after the form, merged with the defaults. */
  function ListOf(form: FormDoc, d: Defaults): ListConfig
  {
    match form.asList
    case Ok(c) => MergedList(c.(name := form.name), d.list)
    case Err(_) => ZeroList
  }

  function FicheOf(form: FormDoc, d: Defaults): FicheConfig
  {
    match form.asFiche
    case Ok(c) => MergedFiche(c.(name := form.name), d.fiche)
    case Err(_) => ZeroFiche
  }

  /** A vision form is not merged: only its name and type are set from the form entry. */
  function VisionOf(form: FormDoc): VisionFormConfig
  {
    match form.asVision
    case Ok(c) => c.(name := form.name, formType := form.formType)
    case Err(_) => c0
  }

  const c0: VisionFormConfig := VisionFormConfig("", "", "", [], VisionActionsConfig(false, false, false, None), [], map[], "", "", 0, [])

  /** True when the form is of a handled kind and its config does not decode as that kind. */
  predicate DecodeFails(form: FormDoc)
  {
    (form.formType == "list" && form.asList.Err?)
    || (form.formType == "fiche" && form.asFiche.Err?)
    || (form.formType == "vision" && form.asVision.Err?)
  }

  /** One turn of the form loop: dispatch on the kind string; other kinds are ignored. */
  function ApplyForm(st: FormsState, form: FormDoc, d: Defaults): (r: Result<FormsState, LoadError>)
    ensures r.Err? <==> DecodeFails(form)
  {
    if form.formType == "list" then
      if form.asList.Err? then Err(DecodeError("list", form.name, form.asList.error))
      else Ok(st.(list := ListOf(form, d)))
    else if form.formType == "fiche" then
      if form.asFiche.Err? then Err(DecodeError("fiche", form.name, form.asFiche.error))
      else Ok(st.(fiche := FicheOf(form, d)))
    else if form.formType == "vision" then
      if form.asVision.Err? then Err(DecodeError("vision", form.name, form.asVision.error))
      else Ok(st.(visions := st.visions[form.name := VisionOf(form)]))
    else Ok(st)
  }

  /** The form loop, which returns at the first decode error. */
  function ApplyForms(forms: seq<FormDoc>, st: FormsState, d: Defaults): Result<FormsState, LoadError>
    decreases |forms|
  {
    if forms == [] then Ok(st)
    else match ApplyForm(st, forms[0], d)
      case Err(e) => Err(e)
      case Ok(st1) => ApplyForms(forms[1..], st1, d)
  }

  /**
   * The generic fallbacks applied after the forms: page size from the
   * entity, else 10; sort field from the first declared field; sort order
   * "asc". Nothing else changes.
   */
  function WithFallbacks(l: ListConfig, defaultPageSize: int, fields: seq<Field>): (r: ListConfig)
    ensures r.pageSize != 0
    ensures l.pageSize != 0 ==> r.pageSize == l.pageSize
    ensures l.pageSize == 0 ==> r.pageSize == (if defaultPageSize != 0 then defaultPageSize else 10)
    ensures l.defaultSortOrder == "" ==> r.defaultSortOrder == "asc"
    ensures l.defaultSortOrder != "" ==> r.defaultSortOrder == l.defaultSortOrder
    ensures l.defaultSortField == "" && |fields| > 0 ==> r.defaultSortField == fields[0].name
    ensures l.defaultSortField == "" && |fields| == 0 ==> r.defaultSortField == ""
    ensures l.defaultSortField != "" ==> r.defaultSortField == l.defaultSortField
    ensures r == l.(pageSize := r.pageSize, defaultSortField := r.defaultSortField, defaultSortOrder := r.defaultSortOrder)
  {
    var ps := if l.pageSize != 0 then l.pageSize else if defaultPageSize != 0 then defaultPageSize else 10;
    var sf := if l.defaultSortField == "" && |fields| > 0 then fields[0].name else l.defaultSortField;
    var so := if l.defaultSortOrder == "" then "asc" else l.defaultSortOrder;
    l.(pageSize := ps, defaultSortField := sf, defaultSortOrder := so)
  }

  function FieldsOf(y: YamlEntity): (fields: seq<Field>)
    ensures |fields| == |y.fields|
    ensures forall i :: 0 <= i < |y.fields| ==> fields[i] == FieldOf(y.fields[i])
  {
    seq(|y.fields|, i requires 0 <= i < |y.fields| => FieldOf(y.fields[i]))
  }

  /** `LoadEntityConfig`, from the decoded document (or the read/parse error) and the form code found for the fiche. */
  function Load(path: string, doc: Result<YamlEntity, string>, d: Defaults, code: Option<FormCode>): Result<EntityConfig, LoadError>
  {
    match doc
    case Err(e) => Err(ReadError(path, e))
    case Ok(y) =>
      match ApplyForms(y.forms, NoForms, d)
      case Err(e) => Err(e)
      case Ok(st) =>
        var fields := FieldsOf(y);
        Ok(EntityConfig(
          y.entity.name, y.entity.table, y.entity.labelText, y.entity.labelPlural, y.entity.defaultPageSize,
          fields,
          LastByKey(fields, FieldName),
          LastByKey(AllFields(GroupsOf(st.fiche)), FieldDefName),
          WithFallbacks(st.list, y.entity.defaultPageSize, fields),
          st.fiche,
          st.visions,
          code))
  }

  // ---------------------------------------------------------------------
  // What the load produces
  // ---------------------------------------------------------------------

  /** The last form of the given kind, if any. */
  function LastOfKind(forms: seq<FormDoc>, kind: string): (r: Option<FormDoc>)
    ensures r.Some? ==> r.value in forms && r.value.formType == kind
    ensures r.None? ==> forall i :: 0 <= i < |forms| ==> forms[i].formType != kind
    decreases |forms|
  {
    if forms == [] then None
    else
      var rest := LastOfKind(forms[1..], kind);
      if rest.Some? then rest
      else if forms[0].formType == kind then Some(forms[0])
      else None
  }

  /** The last vision form with the given name, if any. */
  function LastVisionNamed(forms: seq<FormDoc>, n: string): (r: Option<FormDoc>)
    ensures r.Some? ==> r.value in forms && r.value.formType == "vision" && r.value.name == n
    ensures r.None? ==> forall i :: 0 <= i < |forms| ==> !(forms[i].formType == "vision" && forms[i].name == n)
    decreases |forms|
  {
    if forms == [] then None
    else
      var rest := LastVisionNamed(forms[1..], n);
      if rest.Some? then rest
      else if forms[0].formType == "vision" && forms[0].name == n then Some(forms[0])
      else None
  }

  /** The form loop fails exactly when some list, fiche or vision form does not decode. */
  lemma {:induction false} ApplyFormsFails(forms: seq<FormDoc>, st: FormsState, d: Defaults)
    ensures ApplyForms(forms, st, d).Err? <==> exists i :: 0 <= i < |forms| && DecodeFails(forms[i])
    decreases |forms|
  {
    if forms != [] {
      if !DecodeFails(forms[0]) {
        ApplyFormsFails(forms[1..], ApplyForm(st, forms[0], d).value, d);
        assert forall i :: 1 <= i < |forms| ==> forms[i] == forms[1..][i - 1];
      }
    }
  }

  /** After the form loop, the list is that of the last "list" form, merged with the defaults and named after the form. */
  lemma {:induction false} ApplyFormsList(forms: seq<FormDoc>, st: FormsState, d: Defaults)
    requires ApplyForms(forms, st, d).Ok?
    ensures ApplyForms(forms, st, d).value.list ==
      match LastOfKind(forms, "list") case None => st.list case Some(f) => ListOf(f, d)
    decreases |forms|
  {
    if forms != [] {
      var st1 := ApplyForm(st, forms[0], d).value;
      ApplyFormsList(forms[1..], st1, d);
    }
  }

  /** After the form loop, the detail form is that of the last "fiche" form, merged with the defaults and named after the form. */
  lemma {:induction false} ApplyFormsFiche(forms: seq<FormDoc>, st: FormsState, d: Defaults)
    requires ApplyForms(forms, st, d).Ok?
    ensures ApplyForms(forms, st, d).value.fiche ==
      match LastOfKind(forms, "fiche") case None => st.fiche case Some(f) => FicheOf(f, d)
    decreases |forms|
  {
    if forms != [] {
      var st1 := ApplyForm(st, forms[0], d).value;
      ApplyFormsFiche(forms[1..], st1, d);
    }
  }

  /** After the form loop, each vision form is the last one of its name, with name and type set and nothing merged. */
  lemma {:induction false} ApplyFormsVisions(forms: seq<FormDoc>, st: FormsState, d: Defaults)
    requires ApplyForms(forms, st, d).Ok?
    ensures forall n :: n in ApplyForms(forms, st, d).value.visions <==> n in st.visions || LastVisionNamed(forms, n).Some?
    ensures forall n :: n in ApplyForms(forms, st, d).value.visions ==>
      ApplyForms(forms, st, d).value.visions[n] ==
        match LastVisionNamed(forms, n) case None => st.visions[n] case Some(f) => VisionOf(f)
    decreases |forms|
  {
    if forms != [] {
      var st1 := ApplyForm(st, forms[0], d).value;
      ApplyFormsVisions(forms[1..], st1, d);
    }
  }

  /** Loading fails exactly when the document cannot be read or one of its handled forms does not decode. */
  lemma LoadFails(path: string, doc: Result<YamlEntity, string>, d: Defaults, code: Option<FormCode>)
    ensures Load(path, doc, d, code).Err? <==>
      doc.Err? || exists i :: 0 <= i < |doc.value.forms| && DecodeFails(doc.value.forms[i])
  {
    if doc.Ok? {
      ApplyFormsFails(doc.value.forms, NoForms, d);
    }
  }

  /**
   * A loaded entity: the fields in document order with the last-wins name
   * index, the list of the last "list" form (merged, then completed by the
   * fallbacks), the detail form of the last "fiche" form, its fields indexed
   * by name, and one vision form per vision-form name.
   */
  lemma LoadResult(path: string, doc: Result<YamlEntity, string>, d: Defaults, code: Option<FormCode>)
    requires Load(path, doc, d, code).Ok?
    ensures var ec := Load(path, doc, d, code).value;
      && |ec.fields| == |doc.value.fields|
      && (forall i :: 0 <= i < |ec.fields| ==> ec.fields[i] == FieldOf(doc.value.fields[i]))
      && ec.fieldsByName == LastByKey(ec.fields, FieldName)
      && ec.list == WithFallbacks(
           match LastOfKind(doc.value.forms, "list") case None => ZeroList case Some(f) => ListOf(f, d),
           doc.value.entity.defaultPageSize, ec.fields)
      && ec.fiche == (match LastOfKind(doc.value.forms, "fiche") case None => ZeroFiche case Some(f) => FicheOf(f, d))
      && ec.ficheFieldsByName == LastByKey(AllFields(GroupsOf(ec.fiche)), FieldDefName)
      && (forall n :: n in ec.visionForms <==> LastVisionNamed(doc.value.forms, n).Some?)
      && (forall n :: n in ec.visionForms ==> ec.visionForms[n] == VisionOf(LastVisionNamed(doc.value.forms, n).value))
      && ec.code == code
  {
    ApplyFormsList(doc.value.forms, NoForms, d);
    ApplyFormsFiche(doc.value.forms, NoForms, d);
    ApplyFormsVisions(doc.value.forms, NoForms, d);
  }

  /** A form's non-empty name, set before the merge, survives it; the merged list is settled by a second merge. */
  lemma FormNameSurvivesMerge(form: FormDoc, d: Defaults)
    requires form.name != ""
    ensures form.asList.Ok? ==> ListOf(form, d).name == form.name
    ensures form.asFiche.Ok? ==> FicheOf(form, d).name == form.name
    ensures form.asVision.Ok? ==> VisionOf(form).name == form.name && VisionOf(form).formType == form.formType
  {
  }

  /** The field loop: `Fields[i] = field` into a slice of the document's length, and `FieldsByName[f.Name] = field`. */
  method BuildFields(y: YamlEntity) returns (fields: seq<Field>, byName: map<string, Field>)
    ensures fields == FieldsOf(y)
    ensures byName == LastByKey(fields, FieldName)
  {
    var arr := new Field[|y.fields|];
    byName := map[];
    var i := 0;
    while i < |y.fields|
      invariant 0 <= i <= |y.fields|
      invariant arr[..i] == FieldsOf(y)[..i]
      invariant byName == LastByKey(arr[..i], FieldName)
    {
      var field := FieldOf(y.fields[i]);
      arr[i] := field;
      assert arr[..i + 1][..i] == arr[..i];
      byName := byName[field.name := field];
      i := i + 1;
    }
    fields := arr[..];
    assert arr[..i] == fields;
  }

  /** The form loop with its switch on the kind string; it returns at the first decode error. */
  method RunForms(forms: seq<FormDoc>, d: Defaults) returns (r: Result<FormsState, LoadError>)
    ensures r == ApplyForms(forms, NoForms, d)
  {
    var st := NoForms;
    var k := 0;
    while k < |forms|
      invariant 0 <= k <= |forms|
      invariant ApplyForms(forms, NoForms, d) == ApplyForms(forms[k..], st, d)
    {
      var form := forms[k];
      assert forms[k..][0] == form && forms[k..][1..] == forms[k + 1..];
      if form.formType == "list" {
        if form.asList.Err? {
          return Err(DecodeError("list", form.name, form.asList.error));
        }
        var listCfg := form.asList.value.(name := form.name);
        st := st.(list := MergedList(listCfg, d.list));
      } else if form.formType == "fiche" {
        if form.asFiche.Err? {
          return Err(DecodeError("fiche", form.name, form.asFiche.error));
        }
        var ficheCfg := form.asFiche.value.(name := form.name);
        var merged := MergeFiche(ficheCfg, d.fiche);
        st := st.(fiche := merged);
      } else if form.formType == "vision" {
        if form.asVision.Err? {
          return Err(DecodeError("vision", form.name, form.asVision.error));
        }
        var visionCfg := form.asVision.value.(name := form.name, formType := form.formType);
        st := st.(visions := st.visions[form.name := visionCfg]);
      }
      k := k + 1;
    }
    assert forms[k..] == [];
    r := Ok(st);
  }

  /** The inner loop of the fiche index: the fields of one group. */
  method IndexGroup(before: seq<FieldDef>, fds: seq<FieldDef>, m0: map<string, FieldDef>) returns (m: map<string, FieldDef>)
    requires m0 == LastByKey(before, FieldDefName)
    ensures m == LastByKey(before + fds, FieldDefName)
  {
    m := m0;
    var j := 0;
    assert before + fds[..0] == before;
    while j < |fds|
      invariant 0 <= j <= |fds|
      invariant m == LastByKey(before + fds[..j], FieldDefName)
    {
      assert before + fds[..j + 1] == (before + fds[..j]) + [fds[j]];
      LastByKeySnoc(before + fds[..j], fds[j], FieldDefName);
      m := m[fds[j].name := fds[j]];
      j := j + 1;
    }
    assert fds[..j] == fds;
  }

  /** The nested loop filling `FicheFieldsByName` group by group. */
  method IndexFicheFields(groups: seq<Group>) returns (m: map<string, FieldDef>)
    ensures m == LastByKey(AllFields(groups), FieldDefName)
  {
    m := map[];
    var g := 0;
    while g < |groups|
      invariant 0 <= g <= |groups|
      invariant m == LastByKey(AllFields(groups[..g]), FieldDefName)
    {
      m := IndexGroup(AllFields(groups[..g]), groups[g].fields, m);
      assert groups[..g + 1][..g] == groups[..g];
      g := g + 1;
    }
    assert groups[..g] == groups;
  }

  /** `LoadEntityConfig`: fields, forms, the fiche index, then the fallbacks one field at a time. */
  method LoadEntityConfig(path: string, doc: Result<YamlEntity, string>, d: Defaults, code: Option<FormCode>)
    returns (r: Result<EntityConfig, LoadError>)
    ensures r == Load(path, doc, d, code)
  {
    if doc.Err? {
      return Err(ReadError(path, doc.error));
    }
    var y := doc.value;
    var fields, byName := BuildFields(y);
    var forms := RunForms(y.forms, d);
    if forms.Err? {
      return Err(forms.error);
    }
    var st := forms.value;
    var ficheByName := IndexFicheFields(GroupsOf(st.fiche));

    var list := st.list;
    if list.pageSize == 0 {
      if y.entity.defaultPageSize != 0 {
        list := list.(pageSize := y.entity.defaultPageSize);
      } else {
        list := list.(pageSize := 10);
      }
    }
    if list.defaultSortField == "" && |fields| > 0 {
      list := list.(defaultSortField := fields[0].name);
    }
    if list.defaultSortOrder == "" {
      list := list.(defaultSortOrder := "asc");
    }

    r := Ok(EntityConfig(
      y.entity.name, y.entity.table, y.entity.labelText, y.entity.labelPlural, y.entity.defaultPageSize,
      fields, byName, ficheByName, list, st.fiche, st.visions, code));
  }
}
