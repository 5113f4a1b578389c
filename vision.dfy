/**
 * The "vision" handlers: a standalone vision form bound to its named query
 * parameters and shown on a single page (`vision`), and the lookup of a
 * field's vision picker configuration in the detail form (`visionData`).
 */
module Vision {
  import opened Wrappers
  import opened GoInt
  import opened Strconv
  import opened Values
  import opened Entity

  /** `sql.Named(name, value)`: a named argument of the raw query. */
  datatype NamedArg = NamedArg(name: string, value: string)

  /** The value of one parameter: read from the request, a constant, or empty for an unknown source. */
  function ParamValue(p: VisionParamConfig, q: Params): string
  {
    if p.source == "context" then Lookup(q, p.contextField)
    else if p.source == "literal" then p.value
    else ""
  }

  /**
   * The loop binding the configured parameters, one named argument per
   * parameter in order: a "context" parameter takes the request value of its
   * context field ("" when absent), a "literal" one its configured value,
   * any other source the empty string.
   */
  method BindVisionParams(params: seq<VisionParamConfig>, q: Params) returns (args: seq<NamedArg>)
    ensures |args| == |params|
    ensures forall i :: 0 <= i < |params| ==> args[i].name == params[i].name
    ensures forall i :: 0 <= i < |params| && params[i].source == "context" ==>
      args[i].value == Lookup(q, params[i].contextField)
    ensures forall i :: 0 <= i < |params| && params[i].source == "literal" ==>
      args[i].value == params[i].value
    ensures forall i :: 0 <= i < |params| && params[i].source != "context" && params[i].source != "literal" ==>
      args[i].value == ""
  {
    args := [];
    var i := 0;
    while i < |params|
      invariant 0 <= i <= |params|
      invariant |args| == i
      invariant forall k :: 0 <= k < i ==> args[k] == NamedArg(params[k].name, ParamValue(params[k], q))
    {
      var param := params[i];
      var value := "";
      if param.source == "context" {
        value := Lookup(q, param.contextField);
      } else if param.source == "literal" {
        value := param.value;
      }
      args := args + [NamedArg(param.name, value)];
      i := i + 1;
    }
  }

  /** The page size of a vision page: a positive request value, else the configured one, 10 in place of 0. */
  function VisionPageSize(configured: int, q: Params): (ps: int)
    ensures ps != 0
    ensures ps > 0 <== configured >= 0
  {
    var requested := Atoi(Lookup(q, "pageSize"));
    var ps := if requested.ok && requested.value > 0 then requested.value as int else configured;
    if ps == 0 then 10 else ps
  }

  /** A positive page size in the request always wins over the configuration. */
  lemma PageSizeRequestHonoured(configured: int, q: Params, n: Int64)
    requires n > 0
    ensures VisionPageSize(configured, q["pageSize" := Itoa(n)]) == n as int
  {
    AtoiItoa(n);
  }

  /** Without a usable request value the configured size is kept, and 10 stands in for 0. */
  lemma PageSizeFallback(configured: int, q: Params)
    requires "pageSize" !in q
    ensures VisionPageSize(configured, q) == if configured == 0 then 10 else configured
  {
    assert !Atoi("").ok;
  }

  /** Selection is allowed unless the configuration says otherwise. */
  function AllowSelectable(actions: VisionActionsConfig): bool
  {
    if actions.allowSelectable.Some? then actions.allowSelectable.value else true
  }

  /** What the vision handler passes to the page template. */
  datatype VisionView = VisionView(
    config: VisionFormConfig, isVisionReturn: bool, returnTo: string, allowSelectable: bool,
    columns: seq<string>, data: seq<Row>, page: Int64, pageSize: int, pageSizeOptions: seq<int>,
    sortField: string, sortOrder: string, search: string, total: nat, totalPages: nat)

  /**
   * The vision page for the form `name`, given the rows its query returned
   * (none when the query failed); None stands for the 404 of an unknown form.
   */
  function VisionPage(ec: EntityConfig, name: string, q: Params, data: seq<Row>): Option<VisionView>
  {
    if name !in ec.visionForms then None
    else
      var cfg := ec.visionForms[name];
      Some(VisionView(
        cfg, Lookup(q, "return_to") != "", Lookup(q, "return_to"), AllowSelectable(cfg.actions),
        cfg.columns, data, Atoi(DefaultQuery(q, "page", "1")).value, VisionPageSize(cfg.pageSize, q),
        cfg.pageSizeOptions, DefaultQuery(q, "sort", cfg.defaultSortField),
        DefaultQuery(q, "order", cfg.defaultSortOrder), "", |data|, 1))
  }

  /**
   * The vision page is one unpaginated page of all the rows: it exists
   * exactly for the configured forms, shows every row, is in return mode
   * exactly when a return target is given, never has a zero page size, and
   * without query parameters starts on page 1 with the configured sort and
   * selection allowed unless configured otherwise.
   */
  lemma VisionPageShape(ec: EntityConfig, name: string, q: Params, data: seq<Row>)
    ensures VisionPage(ec, name, q, data).Some? <==> name in ec.visionForms
    ensures VisionPage(ec, name, q, data).Some? ==>
      var v := VisionPage(ec, name, q, data).value;
      && v.config == ec.visionForms[name]
      && v.data == data && v.total == |data| && v.totalPages == 1 && v.search == ""
      && (v.isVisionReturn <==> v.returnTo != "")
      && v.pageSize != 0
      && ("page" !in q ==> v.page == 1)
      && ("sort" !in q ==> v.sortField == v.config.defaultSortField)
      && ("order" !in q ==> v.sortOrder == v.config.defaultSortOrder)
      && (v.config.actions.allowSelectable.None? ==> v.allowSelectable)
  {
    AtoiItoa(1);
    assert Itoa(1) == "1";
  }

  /** A field named `name` that carries a vision picker. */
  predicate HasVision(fd: FieldDef, name: string)
  {
    fd.name == name && fd.visionConfig.Some?
  }

  /** The picker of the first field named `name` with one, in the order given. */
  function FirstVision(fds: seq<FieldDef>, name: string): Option<VisionFieldConfig>
  {
    if fds == [] then None
    else if HasVision(fds[0], name) then fds[0].visionConfig
    else FirstVision(fds[1..], name)
  }

  /** The same search, group by group. */
  function FirstVisionIn(groups: seq<Group>, name: string): Option<VisionFieldConfig>
  {
    if groups == [] then None
    else if FirstVision(groups[0].fields, name).Some? then FirstVision(groups[0].fields, name)
    else FirstVisionIn(groups[1..], name)
  }

  /**
   * `FirstVision` finds the first match: None exactly when no field matches,
   * and otherwise the picker of a matching field with no match before it.
   */
  lemma {:induction false} FirstVisionIsFirst(fds: seq<FieldDef>, name: string)
    ensures FirstVision(fds, name).None? <==> forall k :: 0 <= k < |fds| ==> !HasVision(fds[k], name)
    ensures FirstVision(fds, name).Some? ==>
      exists k :: 0 <= k < |fds| && HasVision(fds[k], name) && fds[k].visionConfig == FirstVision(fds, name)
        && forall k' :: 0 <= k' < k ==> !HasVision(fds[k'], name)
  {
    if fds != [] && !HasVision(fds[0], name) {
      FirstVisionIsFirst(fds[1..], name);
      if FirstVision(fds, name).Some? {
        var k :| 0 <= k < |fds[1..]| && HasVision(fds[1..][k], name) && fds[1..][k].visionConfig == FirstVision(fds, name)
          && forall k' :: 0 <= k' < k ==> !HasVision(fds[1..][k'], name);
        assert HasVision(fds[k + 1], name) && fds[k + 1].visionConfig == FirstVision(fds, name);
        assert forall k' :: 0 <= k' < k + 1 ==> !HasVision(fds[k'], name) by {
          forall k' | 0 <= k' < k + 1
            ensures !HasVision(fds[k'], name)
          {
            if k' > 0 {
              assert fds[k'] == fds[1..][k' - 1];
            }
          }
        }
      } else {
        forall k | 0 <= k < |fds|
          ensures !HasVision(fds[k], name)
        {
          if k > 0 {
            assert fds[k] == fds[1..][k - 1];
          }
        }
      }
    }
  }

  /** The search over a concatenation looks at the second part only when the first has no match. */
  lemma {:induction false} FirstVisionConcat(a: seq<FieldDef>, b: seq<FieldDef>, name: string)
    ensures FirstVision(a + b, name) == if FirstVision(a, name).Some? then FirstVision(a, name) else FirstVision(b, name)
  {
    if a != [] {
      assert (a + b)[0] == a[0];
      assert (a + b)[1..] == a[1..] + b;
      FirstVisionConcat(a[1..], b, name);
    } else {
      assert a + b == b;
    }
  }

  /** The flattened fields start with the first group's fields. */
  lemma {:induction false} AllFieldsFront(groups: seq<Group>)
    requires groups != []
    ensures AllFields(groups) == groups[0].fields + AllFields(groups[1..])
  {
    if |groups| == 1 {
      assert groups[..0] == [];
      assert groups[1..] == [];
    } else {
      var init, rest := groups[..|groups| - 1], groups[1..];
      var last := groups[|groups| - 1];
      AllFieldsFront(init);
      assert init[0] == groups[0];
      assert init[1..] == rest[..|rest| - 1];
      assert rest[|rest| - 1] == last;
      assert AllFields(rest) == AllFields(init[1..]) + last.fields;
      assert AllFields(groups) == (groups[0].fields + AllFields(init[1..])) + last.fields;
      Associate(groups[0].fields, AllFields(init[1..]), last.fields);
    }
  }

  lemma Associate(a: seq<FieldDef>, b: seq<FieldDef>, c: seq<FieldDef>)
    ensures (a + b) + c == a + (b + c)
  {
  }

  /** Searching group by group is searching the flattened detail form. */
  lemma {:induction false} FirstVisionInFlattened(groups: seq<Group>, name: string)
    ensures FirstVisionIn(groups, name) == FirstVision(AllFields(groups), name)
  {
    if groups != [] {
      AllFieldsFront(groups);
      FirstVisionConcat(groups[0].fields, AllFields(groups[1..]), name);
      FirstVisionInFlattened(groups[1..], name);
    }
  }

  /**
   * The lookup loop of `visionData`: the inner loop stops at the first field
   * of a group that matches, the outer one at the first group that had one.
   */
  method FindVisionConfig(fiche: FicheConfig, name: string) returns (vc: Option<VisionFieldConfig>)
    ensures vc == FirstVision(AllFields(GroupsOf(fiche)), name)
  {
    var groups := GroupsOf(fiche);
    FirstVisionInFlattened(groups, name);
    vc := None;
    var g := 0;
    assert groups[0..] == groups;
    while g < |groups|
      invariant 0 <= g <= |groups|
      invariant vc.None?
      invariant FirstVisionIn(groups[g..], name) == FirstVisionIn(groups, name)
    {
      var fields := groups[g].fields;
      var j := 0;
      while j < |fields|
        invariant 0 <= j <= |fields|
        invariant vc.None?
        invariant FirstVision(fields[j..], name) == FirstVision(fields, name)
      {
        var fd := fields[j];
        if fd.name == name && fd.visionConfig.Some? {
          vc := fd.visionConfig;
          break;
        }
        assert fields[j..][1..] == fields[j + 1..];
        j := j + 1;
      }
      assert groups[g..][0] == groups[g];
      if vc.Some? {
        assert vc == FirstVision(fields[j..], name);
        return;
      }
      assert fields[j..] == [];
      assert groups[g..][1..] == groups[g + 1..];
      g := g + 1;
    }
    assert groups[g..] == [];
  }

  /** The picker found is that of a field of the detail form named `name`, and none is found exactly when no field has one. */
  lemma FoundPickerBelongsToField(fiche: FicheConfig, name: string)
    ensures var fds := AllFields(GroupsOf(fiche));
      && (FirstVision(fds, name).None? <==> forall k :: 0 <= k < |fds| ==> !HasVision(fds[k], name))
      && (FirstVision(fds, name).Some? ==>
        exists k :: 0 <= k < |fds| && fds[k].name == name && fds[k].visionConfig == FirstVision(fds, name))
  {
    FirstVisionIsFirst(AllFields(GroupsOf(fiche)), name);
  }
}
