/**
 * The in-memory configuration of one entity: the declared fields, the list
 * view, the detail form ("fiche") laid out in groups of field definitions,
 * and the standalone lookup forms ("vision" forms).
 */
module Entity {
  import opened Wrappers
  import opened Values
  import opened FormCodes

  /** Inline select populated by a parameterless query. */
  datatype ComboFieldConfig = ComboFieldConfig(
    sql: string, keyField: string, displayFields: seq<string>, separator: string)

  /** Modal search picker ("vision" field). */
  datatype VisionFieldConfig = VisionFieldConfig(
    sql: string, keyField: string, displayFields: seq<string>,
    returnField: string, returnFieldDisplay: string, modalTitle: string)

  /** A named query parameter of a vision form, taken from the request ("context") or a constant ("literal"). */
  datatype VisionParamConfig = VisionParamConfig(
    name: string, source: string, contextField: string, value: string)

  /** `allowSelectable` is optional in the source (a `*bool`): None when the document does not mention it. */
  datatype VisionActionsConfig = VisionActionsConfig(
    allowCreate: bool, allowUpdate: bool, allowDelete: bool, allowSelectable: Option<bool>)

  datatype VisionFormConfig = VisionFormConfig(
    name: string, formType: string, sql: string,
    params: seq<VisionParamConfig>, actions: VisionActionsConfig,
    columns: seq<string>, labels: map<string, string>,
    defaultSortField: string, defaultSortOrder: string,
    pageSize: int, pageSizeOptions: seq<int>)

  /** A field as placed in a group of the detail form. */
  datatype FieldDef = FieldDef(
    name: string, fieldType: string, readOnly: bool,
    comboConfig: Option<ComboFieldConfig>, visionConfig: Option<VisionFieldConfig>,
    visionButton: string, maxLength: int, size: int, rows: int, decimals: int,
    decimalSeparator: string, thousandsSeparator: string, align: string)

  const ZeroFieldDef: FieldDef := FieldDef("", "", false, None, None, "", 0, 0, 0, 0, "", "", "")

  datatype Group = Group(name: string, fields: seq<FieldDef>)

  /**
   * The detail form. Slices and maps are optional: `None` is Go's nil, which
   * the default merge treats as unset, while `Some([])` is an explicitly
   * empty list, which it keeps.
   */
  datatype FicheConfig = FicheConfig(
    name: string,
    groups: Option<seq<Group>>,
    titles: Option<map<string, string>>,
    buttonLabels: Option<map<string, string>>,
    width: string,
    maxWidth: string,
    formBackgroundColor: string,
    pageBackgroundColor: string,
    tabInactiveBackgroundColor: string,
    tabActiveBackgroundColor: string,
    tabContentBackgroundColor: string,
    labelColumnWidth: string,
    tabLabelFontSize: string,
    buttonFontSize: string,
    formActionButtonsFontSize: string,
    formContentMaxHeightAdjustment: string)

  const ZeroFiche: FicheConfig := FicheConfig("", None, None, None, "", "", "", "", "", "", "", "", "", "", "", "")

  /** The list view; slices are optional for the same reason as in `FicheConfig`. */
  datatype ListConfig = ListConfig(
    name: string,
    title: string,
    pageSize: int,
    defaultSortField: string,
    defaultSortOrder: string,
    pageSizeOptions: Option<seq<int>>,
    columns: Option<seq<string>>,
    searchableFields: Option<seq<string>>,
    sortableFields: Option<seq<string>>,
    width: string,
    maxWidth: string,
    formBackgroundColor: string,
    pageBackgroundColor: string,
    buttonFontSize: string,
    paginationButtonFontSize: string,
    paginationTextFontSize: string,
    columnWidths: Option<seq<string>>,
    columnHeaderFontSize: string,
    columnAlignments: Option<seq<string>>)

  const ZeroList: ListConfig := ListConfig("", "", 0, "", "", None, None, None, None, "", "", "", "", "", "", "", None, "", None)

  /** A declared field of the entity (its column). */
  datatype Field = Field(
    name: string, labelText: string, fieldType: string, readOnly: bool, required: bool,
    defaultValue: Value, displayFormat: string, maxLength: int)

  datatype EntityConfig = EntityConfig(
    name: string, table: string, labelText: string, labelPlural: string,
    defaultPageSize: int,
    fields: seq<Field>,
    fieldsByName: map<string, Field>,
    ficheFieldsByName: map<string, FieldDef>,
    list: ListConfig,
    fiche: FicheConfig,
    visionForms: map<string, VisionFormConfig>,
    code: Option<FormCode>)

  /** The groups of a detail form; a nil slice has none. */
  function GroupsOf(fiche: FicheConfig): seq<Group>
  {
    if fiche.groups.Some? then fiche.groups.value else []
  }

  /** The fields of all groups, group after group, each group's fields in order. */
  function AllFields(groups: seq<Group>): seq<FieldDef>
  {
    if groups == [] then [] else AllFields(groups[..|groups| - 1]) + groups[|groups| - 1].fields
  }

  function SumSizes(groups: seq<Group>): nat
  {
    if groups == [] then 0 else SumSizes(groups[..|groups| - 1]) + |groups[|groups| - 1].fields|
  }

  /** The flattened list is as long as all groups together. */
  lemma {:induction false} AllFieldsLength(groups: seq<Group>)
    ensures |AllFields(groups)| == SumSizes(groups)
  {
    if groups != [] {
      AllFieldsLength(groups[..|groups| - 1]);
    }
  }

  /** Every field definition of the flattened list comes from some group, and every group's fields are in it. */
  lemma {:induction false} AllFieldsMembers(groups: seq<Group>, fd: FieldDef)
    ensures fd in AllFields(groups) <==> exists g :: g in groups && fd in g.fields
  {
    if groups != [] {
      var init := groups[..|groups| - 1];
      AllFieldsMembers(init, fd);
      assert forall g :: g in groups <==> g in init || g == groups[|groups| - 1];
    }
  }

  /** One more group appends its fields to the flattened prefix. */
  lemma AllFieldsStep(groups: seq<Group>, g: nat)
    requires g < |groups|
    ensures AllFields(groups[..g + 1]) == AllFields(groups[..g]) + groups[g].fields
  {
    assert groups[..g + 1][..g] == groups[..g];
  }

  /** `FicheConfig.GetAllFields`: appends each group's fields in a loop. */
  method GetAllFields(fc: FicheConfig) returns (all: seq<FieldDef>)
    ensures all == AllFields(GroupsOf(fc))
    ensures |all| == SumSizes(GroupsOf(fc))
  {
    var groups := GroupsOf(fc);
    all := [];
    var i := 0;
    while i < |groups|
      invariant 0 <= i <= |groups|
      invariant all == AllFields(groups[..i])
    {
      assert groups[..i + 1][..i] == groups[..i];
      all := all + groups[i].fields;
      i := i + 1;
    }
    assert groups[..|groups|] == groups;
    AllFieldsLength(groups);
  }

  /** Position of the last element whose key is `k`, or -1 when there is none. */
  function LastIndex<T>(xs: seq<T>, key: T -> string, k: string): (i: int)
    ensures -1 <= i < |xs|
    ensures i >= 0 ==> key(xs[i]) == k
    ensures forall j :: i < j < |xs| ==> key(xs[j]) != k
  {
    if xs == [] then -1
    else if key(xs[|xs| - 1]) == k then |xs| - 1
    else LastIndex(xs[..|xs| - 1], key, k)
  }

  /**
   * An index keyed by `key(x)`, built by inserting the elements in order: a
   * key is present exactly when some element has it, and maps to the last
   * such element.
   */
  function LastByKey<T>(xs: seq<T>, key: T -> string): (m: map<string, T>)
    ensures forall k :: k in m <==> LastIndex(xs, key, k) >= 0
    ensures forall k :: k in m ==> m[k] == xs[LastIndex(xs, key, k)]
  {
    if xs == [] then map[]
    else
      var init := xs[..|xs| - 1];
      var x := xs[|xs| - 1];
      var m0 := LastByKey(init, key);
      assert forall k :: k != key(x) ==> LastIndex(xs, key, k) == LastIndex(init, key, k);
      m0[key(x) := x]
  }

  /** Inserting one more element into the index. */
  lemma LastByKeySnoc<T>(xs: seq<T>, x: T, key: T -> string)
    ensures LastByKey(xs + [x], key) == LastByKey(xs, key)[key(x) := x]
  {
    assert (xs + [x])[..|xs|] == xs;
  }

  /** The loop `for _, x := range xs { m[key(x)] = x }`. */
  method IndexByKey<T>(xs: seq<T>, key: T -> string) returns (m: map<string, T>)
    ensures m == LastByKey(xs, key)
  {
    m := map[];
    var i := 0;
    while i < |xs|
      invariant 0 <= i <= |xs|
      invariant m == LastByKey(xs[..i], key)
    {
      assert xs[..i + 1][..i] == xs[..i];
      m := m[key(xs[i]) := xs[i]];
      i := i + 1;
    }
    assert xs[..|xs|] == xs;
  }

  function FieldName(f: Field): string { f.name }

  /** No declared field is named `k`. */
  predicate Undeclared(fields: seq<Field>, k: string)
  {
    forall j :: 0 <= j < |fields| ==> fields[j].name != k
  }

  /** `fields[i]` is the only declared field of its name. */
  predicate DeclaredOnce(fields: seq<Field>, i: int)
    requires 0 <= i < |fields|
  {
    forall j :: 0 <= j < |fields| && j != i ==> fields[j].name != fields[i].name
  }

  function FieldDefName(fd: FieldDef): string { fd.name }

  /** A YAML node in a group's field list: a bare scalar, a mapping (decoded by the YAML library) or anything else. */
  datatype YamlNode = Scalar(text: string) | Mapping(decoded: Result<FieldDef, string>) | Sequence(error: string)

  /**
   * `FieldDef.UnmarshalYAML`: a node that decodes as a string becomes a
   * definition with only its name set; otherwise the node is decoded as the
   * structure, and its error, if any, is returned.
   */
  function UnmarshalFieldDef(node: YamlNode): (r: Result<FieldDef, string>)
    ensures node.Scalar? ==> r.Ok? && r.value.name == node.text && r.value.(name := "") == ZeroFieldDef
    ensures node.Scalar? ==> r.value.fieldType == "" && r.value.comboConfig.None? && r.value.visionConfig.None?
    ensures node.Mapping? ==> r == node.decoded
    ensures node.Sequence? ==> r.Err?
  {
    match node
    case Scalar(s) => Ok(ZeroFieldDef.(name := s))
    case Mapping(decoded) => decoded
    case Sequence(e) => Err(e)
  }
}
