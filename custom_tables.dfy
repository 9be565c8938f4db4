/**
 * What the `CustomTablesApi` builder accumulates, as values: the column map
 * of the list view, the metabox table (context -> metabox name -> label and
 * fields), the supports list, and the configuration built from them when
 * the table is registered and its metaboxes rendered.
 *
 * Each setter of the builder is specified here by a function from the old
 * value of the array it writes to the new one; the class in
 * custom_tables_api.dfy is proved to compute exactly these.
 */
module CustomTables {
  import opened Options
  import opened PhpArrays
  import opened PhpValues
  import opened PhpStrings

  /** The text domain metabox titles are translated in. */
  const TextDomain := "custom-tables-api"

  /** Rows per page the list view starts with. */
  const PerPage := 40

  /** The table schema: a pre-built string or a declarative array. */
  datatype SchemaDef = SchemaText(text: string) | SchemaArray(definition: Args)

  /** `[$name, $ascending]`: the list view may sort by this column. */
  datatype SortSpec = SortSpec(column: string, ascending: bool)

  /** `['label' => ..., 'sortable' => ...]`, with None for a null sortable. */
  datatype ColumnSpec = ColumnSpec(title: string, sortable: Option<SortSpec>)

  type ColumnMap = OrderedMap<string, ColumnSpec>

  /** `['label' => ..., 'fields' => [field name => field arguments]]`. */
  datatype FieldGroup = FieldGroup(title: string, fields: OrderedMap<string, Args>)

  /** context -> metabox name -> group. */
  type GroupMap = OrderedMap<string, OrderedMap<string, FieldGroup>>

  // ---------------------------------------------------------------------
  // Columns

  /**
   * The sort descriptor `column()` stores: null for a falsy `$sortable`,
   * otherwise the column's own name and whether `$direction` reads "asc"
   * in any mix of cases.
   */
  function SortDescriptor(name: string, sortable: Value, direction: string): (r: Option<SortSpec>)
    ensures r.None? <==> !Truthy(sortable)
    ensures r.Some? ==> r.value.column == name
    ensures r.Some? ==>
      (r.value.ascending <==> |direction| == 3 && direction[0] in "aA" && direction[1] in "sS" && direction[2] in "cC")
  {
    LowerIsAsc(direction);
    if Truthy(sortable) then Some(SortSpec(name, StrToLower(direction) == "asc")) else None
  }

  /** The column map after `column($name, $label, $sortable, $direction)`. */
  function WithColumn(cols: ColumnMap, name: string, title: string, sortable: Value, direction: string): (r: ColumnMap)
    ensures Get(r, name) == Some(ColumnSpec(title, SortDescriptor(name, sortable, direction)))
    ensures forall other :: other != name ==> Get(r, other) == Get(cols, other)
    ensures Keys(r) == if HasKey(cols, name) then Keys(cols) else Keys(cols) + [name]
    ensures UniqueKeys(cols) ==> UniqueKeys(r)
  {
    var spec := ColumnSpec(title, SortDescriptor(name, sortable, direction));
    SetSame(cols, name, spec);
    SetFrame(cols, name, spec);
    assert UniqueKeys(cols) ==> UniqueKeys(Set(cols, name, spec)) by {
      if UniqueKeys(cols) {
        SetUnique(cols, name, spec);
      }
    }
    Set(cols, name, spec)
  }

  /** The arguments `columns()` passes to `column()` for one entry. */
  datatype ColumnCall = ColumnCall(name: string, title: string, sortable: Value, direction: string)

  /**
   * One entry of `columns()`: `column`, `label` and `direction` (default
   * 'asc') must be acceptable as strings and `sortable` defaults to false;
   * anything else is the TypeError `column()` raises (None).
   */
  function ColumnCallOf(entry: Value): (r: Option<ColumnCall>)
    ensures r.Some? <==>
      && entry.Arr?
      && !Lookup(entry.entries, StrKey("column")).Null? && !Lookup(entry.entries, StrKey("column")).Arr?
      && !Lookup(entry.entries, StrKey("label")).Null? && !Lookup(entry.entries, StrKey("label")).Arr?
      && !Lookup(entry.entries, StrKey("direction")).Arr?
    ensures r.Some? && Lookup(entry.entries, StrKey("column")).Str? ==> r.value.name == Lookup(entry.entries, StrKey("column")).s
    ensures r.Some? && Lookup(entry.entries, StrKey("label")).Str? ==> r.value.title == Lookup(entry.entries, StrKey("label")).s
    ensures r.Some? ==> r.value.sortable == if IsSet(entry.entries, StrKey("sortable")) then Lookup(entry.entries, StrKey("sortable")) else Bool(false)
    ensures r.Some? && !IsSet(entry.entries, StrKey("direction")) ==> r.value.direction == "asc"
    ensures r.Some? && Lookup(entry.entries, StrKey("direction")).Str? ==>
      r.value.direction == Lookup(entry.entries, StrKey("direction")).s
  {
    match entry
    case Arr(a) =>
      var name := StringParam(Lookup(a, StrKey("column")));
      var title := StringParam(Lookup(a, StrKey("label")));
      var direction := StringParam(Coalesce(a, StrKey("direction"), Str("asc")));
      if name.Some? && title.Some? && direction.Some? then
        Some(ColumnCall(name.value, title.value, Coalesce(a, StrKey("sortable"), Bool(false)), direction.value))
      else None
    case _ => None
  }

  function ApplyColumnCall(cols: ColumnMap, call: ColumnCall): ColumnMap {
    WithColumn(cols, call.name, call.title, call.sortable, call.direction)
  }

  // ---------------------------------------------------------------------
  // Loops over a list of entries

  /** Where a setter loop ended: its state, and whether no entry raised. */
  datatype Applied<S> = Applied(state: S, ok: bool)

  /**
   * A `foreach` over `entries` that turns each entry into a call (`parse`)
   * and makes it (`apply`), stopping at the first entry whose call raises.
   * The loop runs to the end exactly when no entry raises.
   */
  function FoldEntries<C, S>(s: S, entries: seq<Value>, parse: Value -> Option<C>, apply: (S, C) -> S): (r: Applied<S>)
    ensures r.ok <==> forall j :: 0 <= j < |entries| ==> parse(entries[j]).Some?
    decreases |entries|
  {
    if entries == [] then Applied(s, true)
    else
      var init := entries[..|entries| - 1];
      var prev := FoldEntries(s, init, parse, apply);
      assert forall j :: 0 <= j < |init| ==> init[j] == entries[j];
      if !prev.ok then prev
      else match parse(entries[|entries| - 1])
        case None => Applied(prev.state, false)
        case Some(call) => Applied(apply(prev.state, call), true)
  }

  /** A property every call keeps holds after the whole loop. */
  lemma {:induction false} FoldPreserves<C(!new), S(!new)>(s: S, entries: seq<Value>, parse: Value -> Option<C>, apply: (S, C) -> S,
                                               inv: S -> bool)
    requires inv(s)
    requires forall x, c :: inv(x) ==> inv(apply(x, c))
    ensures inv(FoldEntries(s, entries, parse, apply).state)
    decreases |entries|
  {
    if entries != [] {
      var prev := FoldEntries(s, entries[..|entries| - 1], parse, apply);
      FoldPreserves(s, entries[..|entries| - 1], parse, apply, inv);
      var call := parse(entries[|entries| - 1]);
      if prev.ok && call.Some? {
        assert inv(apply(prev.state, call.value));
      }
    }
  }

  /** One more entry: the loop so far, then that entry's call unless something raised. */
  lemma FoldStep<C, S>(s: S, entries: seq<Value>, parse: Value -> Option<C>, apply: (S, C) -> S, i: nat)
    requires i < |entries|
    ensures var prev := FoldEntries(s, entries[..i], parse, apply);
      FoldEntries(s, entries[..i + 1], parse, apply) ==
        if !prev.ok then prev
        else match parse(entries[i])
          case None => Applied(prev.state, false)
          case Some(call) => Applied(apply(prev.state, call), true)
  {
    assert entries[..i + 1][..i] == entries[..i];
  }

  /** Once an entry has raised, the later entries change nothing. */
  lemma {:induction false} FoldStops<C, S>(s: S, entries: seq<Value>, parse: Value -> Option<C>, apply: (S, C) -> S, i: nat)
    requires i <= |entries|
    requires !FoldEntries(s, entries[..i], parse, apply).ok
    ensures FoldEntries(s, entries, parse, apply) == FoldEntries(s, entries[..i], parse, apply)
    decreases |entries| - i
  {
    if i < |entries| {
      var init := entries[..|entries| - 1];
      assert init[..i] == entries[..i];
      FoldStops(s, init, parse, apply, i);
    } else {
      assert entries[..i] == entries;
    }
  }

  /**
   * `columns($entries)` applied to the column map `cols`: it completes
   * exactly when every entry is a valid `column()` call, never removes a
   * column, and keeps the map a PHP array.
   */
  function ApplyColumns(cols: ColumnMap, entries: seq<Value>): (r: Applied<ColumnMap>)
    ensures r.ok <==> forall j :: 0 <= j < |entries| ==> ColumnCallOf(entries[j]).Some?
    ensures forall k :: HasKey(cols, k) ==> HasKey(r.state, k)
    ensures UniqueKeys(cols) ==> UniqueKeys(r.state)
  {
    forall k | HasKey(cols, k) ensures HasKey(FoldEntries(cols, entries, ColumnCallOf, ApplyColumnCall).state, k) {
      FoldPreserves(cols, entries, ColumnCallOf, ApplyColumnCall, (x: ColumnMap) => HasKey(x, k));
    }
    assert UniqueKeys(cols) ==> UniqueKeys(FoldEntries(cols, entries, ColumnCallOf, ApplyColumnCall).state) by {
      if UniqueKeys(cols) {
        FoldPreserves(cols, entries, ColumnCallOf, ApplyColumnCall, (x: ColumnMap) => UniqueKeys(x));
      }
    }
    FoldEntries(cols, entries, ColumnCallOf, ApplyColumnCall)
  }

  // ---------------------------------------------------------------------
  // Metaboxes and fields

  /** `$m[$context][$name]`, or None when `isset` would be false. */
  function GroupOf(m: GroupMap, context: string, name: string): (r: Option<FieldGroup>)
    ensures r.Some? <==> HasKey(m, context) && name in GroupNames(m, context)
    ensures r.Some? ==> (name, r.value) in Get(m, context).value
  {
    match Get(m, context)
    case None => None
    case Some(groups) => Get(groups, name)
  }

  /** The fields of `$m[$context][$name]`; none when the group is absent. */
  function FieldsOf(m: GroupMap, context: string, name: string): OrderedMap<string, Args> {
    match GroupOf(m, context, name)
    case None => []
    case Some(g) => g.fields
  }

  /** The metabox names under `context`, in order. */
  function GroupNames(m: GroupMap, context: string): seq<string> {
    Keys(Get(m, context).GetOr([]))
  }

  /** Every level of the metabox table is a PHP array. */
  ghost predicate WellFormed(m: GroupMap) {
    UniqueKeys(m) && forall p :: p in m ==> UniqueKeys(p.1)
  }

  /** The assignment `$m[$context][$name] = $g`. */
  function PutGroup(m: GroupMap, context: string, name: string, g: FieldGroup): (r: GroupMap)
    ensures forall c, b :: GroupOf(r, c, b) == if c == context && b == name then Some(g) else GroupOf(m, c, b)
    ensures forall c :: c != context ==> Get(r, c) == Get(m, c)
    ensures Keys(r) == if HasKey(m, context) then Keys(m) else Keys(m) + [context]
    ensures GroupNames(r, context) ==
      if GroupOf(m, context, name).Some? then GroupNames(m, context) else GroupNames(m, context) + [name]
    ensures WellFormed(m) ==> WellFormed(r)
  {
    PutGroupLookups(m, context, name, g);
    PutGroupShape(m, context, name, g);
    Set(m, context, Set(Get(m, context).GetOr([]), name, g))
  }

  lemma PutGroupLookups(m: GroupMap, context: string, name: string, g: FieldGroup)
    ensures var r := Set(m, context, Set(Get(m, context).GetOr([]), name, g));
      && (forall c, b :: GroupOf(r, c, b) == if c == context && b == name then Some(g) else GroupOf(m, c, b))
      && (forall c :: c != context ==> Get(r, c) == Get(m, c))
  {
    var groups := Get(m, context).GetOr([]);
    var groups' := Set(groups, name, g);
    SetSame(m, context, groups');
    SetFrame(m, context, groups');
    SetSame(groups, name, g);
    SetFrame(groups, name, g);
  }

  lemma PutGroupShape(m: GroupMap, context: string, name: string, g: FieldGroup)
    ensures var r := Set(m, context, Set(Get(m, context).GetOr([]), name, g));
      && GroupNames(r, context) ==
           (if GroupOf(m, context, name).Some? then GroupNames(m, context) else GroupNames(m, context) + [name])
      && (WellFormed(m) ==> WellFormed(r))
  {
    var groups := Get(m, context).GetOr([]);
    var groups' := Set(groups, name, g);
    var r := Set(m, context, groups');
    SetSame(m, context, groups');
    assert GroupNames(r, context) == Keys(groups');
    if WellFormed(m) {
      SetUnique(m, context, groups');
      SetEntries(m, context, groups');
      SetUnique(groups, name, g);
    }
  }

  /** Assigning the same group twice keeps only the second assignment. */
  lemma PutGroupTwice(m: GroupMap, context: string, name: string, g1: FieldGroup, g2: FieldGroup)
    ensures PutGroup(PutGroup(m, context, name, g1), context, name, g2) == PutGroup(m, context, name, g2)
  {
    var groups := Get(m, context).GetOr([]);
    var m1 := PutGroup(m, context, name, g1);
    SetSame(m, context, Set(groups, name, g1));
    assert Get(m1, context).GetOr([]) == Set(groups, name, g1);
    SetSet(groups, name, g1, g2);
    SetSet(m, context, Set(groups, name, g1), Set(groups, name, g2));
  }

  /**
   * `metabox($name, $label, $context)`: the group becomes `$label` with no
   * fields, even if it had some; every other group is unchanged, and a group
   * that existed keeps its place.
   */
  function WithMetabox(m: GroupMap, name: string, title: string, context: string): (r: GroupMap)
    ensures GroupOf(r, context, name) == Some(FieldGroup(title, []))
    ensures forall c, b :: c != context || b != name ==> GroupOf(r, c, b) == GroupOf(m, c, b)
    ensures forall c :: c != context ==> Get(r, c) == Get(m, c)
    ensures Keys(r) == if HasKey(m, context) then Keys(m) else Keys(m) + [context]
    ensures GroupNames(r, context) ==
      if GroupOf(m, context, name).Some? then GroupNames(m, context) else GroupNames(m, context) + [name]
    ensures WellFormed(m) ==> WellFormed(r)
  {
    PutGroup(m, context, name, FieldGroup(title, []))
  }

  /**
   * `field($name, $args, $context, $metabox)`: the group is created with
   * label `ucwords($metabox)` when it is missing, and its field `$name`
   * becomes `$args`.
   */
  function WithField(m: GroupMap, context: string, metabox: string, name: string, args: Args): (r: GroupMap)
    ensures GroupOf(r, context, metabox).Some?
    ensures GroupOf(r, context, metabox).value.title ==
      if GroupOf(m, context, metabox).Some? then GroupOf(m, context, metabox).value.title else UcWords(metabox)
    ensures Get(FieldsOf(r, context, metabox), name) == Some(args)
    ensures forall f :: f != name ==> Get(FieldsOf(r, context, metabox), f) == Get(FieldsOf(m, context, metabox), f)
    ensures Keys(FieldsOf(r, context, metabox)) ==
      if HasKey(FieldsOf(m, context, metabox), name) then Keys(FieldsOf(m, context, metabox))
      else Keys(FieldsOf(m, context, metabox)) + [name]
    ensures forall c, b :: c != context || b != metabox ==> GroupOf(r, c, b) == GroupOf(m, c, b)
    ensures forall c :: c != context ==> Get(r, c) == Get(m, c)
    ensures Keys(r) == if HasKey(m, context) then Keys(m) else Keys(m) + [context]
    ensures GroupNames(r, context) ==
      if GroupOf(m, context, metabox).Some? then GroupNames(m, context) else GroupNames(m, context) + [metabox]
    ensures WellFormed(m) ==> WellFormed(r)
  {
    var g := GroupOf(m, context, metabox).GetOr(FieldGroup(UcWords(metabox), []));
    assert g.fields == FieldsOf(m, context, metabox);
    SetSame(g.fields, name, args);
    SetFrame(g.fields, name, args);
    PutGroup(m, context, metabox, FieldGroup(g.title, Set(g.fields, name, args)))
  }

  /**
   * Writing a field twice leaves the second arguments and nothing of the
   * first: `field()` overwrites, it does not merge.
   */
  lemma FieldLastWriteWins(m: GroupMap, context: string, metabox: string, name: string, a1: Args, a2: Args)
    ensures WithField(WithField(m, context, metabox, name, a1), context, metabox, name, a2)
         == WithField(m, context, metabox, name, a2)
  {
    var g := GroupOf(m, context, metabox).GetOr(FieldGroup(UcWords(metabox), []));
    var g1 := FieldGroup(g.title, Set(g.fields, name, a1));
    var m1 := WithField(m, context, metabox, name, a1);
    assert GroupOf(m1, context, metabox) == Some(g1);
    SetSet(g.fields, name, a1, a2);
    PutGroupTwice(m, context, metabox, g1, FieldGroup(g.title, Set(g.fields, name, a2)));
  }

  /** The name and arguments `fields()` passes to `field()` for one entry. */
  function FieldCallOf(entry: Value): (r: Option<(string, Args)>)
    ensures r.Some? <==>
      entry.Arr? && !Lookup(entry.entries, StrKey("column")).Null? && !Lookup(entry.entries, StrKey("column")).Arr?
    ensures r.Some? ==> r.value.1 == entry.entries
    ensures r.Some? && Lookup(entry.entries, StrKey("column")).Str? ==> r.value.0 == Lookup(entry.entries, StrKey("column")).s
  {
    match entry
    case Arr(a) =>
      (match StringParam(Lookup(a, StrKey("column")))
       case Some(name) => Some((name, a))
       case None => None)
    case _ => None
  }

  /**
   * `fields($entries, $context, $metabox)` applied to the metabox table `m`:
   * it completes exactly when every entry is a valid `field()` call, and
   * keeps every level of the table a PHP array.
   */
  function ApplyFields(m: GroupMap, entries: seq<Value>, context: string, metabox: string): (r: Applied<GroupMap>)
    ensures r.ok <==> forall j :: 0 <= j < |entries| ==> FieldCallOf(entries[j]).Some?
    ensures WellFormed(m) ==> WellFormed(r.state)
  {
    var apply := (g: GroupMap, call: (string, Args)) => WithField(g, context, metabox, call.0, call.1);
    assert WellFormed(m) ==> WellFormed(FoldEntries(m, entries, FieldCallOf, apply).state) by {
      if WellFormed(m) {
        FoldPreserves(m, entries, FieldCallOf, apply, (x: GroupMap) => WellFormed(x));
      }
    }
    FoldEntries(m, entries, FieldCallOf, apply)
  }

  // ---------------------------------------------------------------------
  // Supports

  /** `$supports[] = 'meta'` followed by `array_unique`. */
  function WithMeta(supports: seq<string>): (r: seq<string>)
    ensures "meta" in r && NoDuplicates(r)
    ensures forall i :: 0 <= i < |r| ==> r[i] == "meta" || r[i] in supports
    ensures NoDuplicates(supports) ==> r == if "meta" in supports then supports else supports + ["meta"]
  {
    var s := supports + ["meta"];
    assert s[|s| - 1] == "meta";
    assert s[..|s| - 1] == supports;
    assert NoDuplicates(supports) ==> ArrayUnique(supports) == supports by {
      if NoDuplicates(supports) {
        ArrayUniqueDistinct(supports);
      }
    }
    ArrayUnique(s)
  }

  /** Enabling meta support twice is the same as enabling it once. */
  lemma WithMetaIdempotent(supports: seq<string>)
    ensures WithMeta(WithMeta(supports)) == WithMeta(supports)
  {
  }

  // ---------------------------------------------------------------------
  // Rendering

  /** The configuration `render_metabox` gives `add_field` for the field `id`. */
  function FieldConfig(id: string, field: Args, escHtml: Value -> Value): (r: Args)
    ensures |r| >= 3 && r[0] == (StrKey("id"), Str(id))
    ensures forall i :: 0 <= i < |field| && field[i].0 !in [StrKey("id"), StrKey("name"), StrKey("desc")] ==> field[i] in r
    ensures forall p :: p in r[3..] ==> p in field
  {
    var desc := if IsSet(field, StrKey("desc")) then escHtml(Lookup(field, StrKey("desc"))) else Null;
    var synthesized := [(StrKey("id"), Str(id)), (StrKey("name"), escHtml(Lookup(field, StrKey("name")))), (StrKey("desc"), desc)];
    assert Keys(synthesized) == [StrKey("id"), StrKey("name"), StrKey("desc")];
    assert Union(synthesized, field)[3..] == Without(field, Keys(synthesized));
    Union(synthesized, field)
  }

  /**
   * `['id' => $id, 'name' => esc_html(...), 'desc' => ...] + $field`: the
   * three synthesized keys come first and win over the same keys in the
   * field's own arguments; `desc` is null unless the arguments set one;
   * every other key comes from the arguments.
   */
  lemma FieldConfigKeys(id: string, field: Args, escHtml: Value -> Value)
    ensures var r := FieldConfig(id, field, escHtml);
      && Get(r, StrKey("id")) == Some(Str(id))
      && Get(r, StrKey("name")) == Some(escHtml(Lookup(field, StrKey("name"))))
      && Get(r, StrKey("desc")) ==
           Some(if IsSet(field, StrKey("desc")) then escHtml(Lookup(field, StrKey("desc"))) else Null)
      && (!IsSet(field, StrKey("desc")) ==> Get(r, StrKey("desc")) == Some(Null))
      && (forall k :: k != StrKey("id") && k != StrKey("name") && k != StrKey("desc") ==> Get(r, k) == Get(field, k))
      && |r| >= 3 && Keys(r)[..3] == [StrKey("id"), StrKey("name"), StrKey("desc")]
      && (UniqueKeys(field) ==> UniqueKeys(r))
  {
    var desc := if IsSet(field, StrKey("desc")) then escHtml(Lookup(field, StrKey("desc"))) else Null;
    assert "id"[0] != "name"[0] && "id"[0] != "desc"[0] && "name"[0] != "desc"[0];
    UnionOfThree(StrKey("id"), StrKey("name"), StrKey("desc"), Str(id), escHtml(Lookup(field, StrKey("name"))), desc, field);
  }

  /** What `new_cmb2_box` and `add_field` receive for one metabox. */
  datatype Panel = Panel(id: string, title: string, objectTypes: seq<string>, context: string, fields: seq<Args>)

  /** The panel of group `g`, registered as `$context` / `$name` of `table`. */
  function PanelOf(table: string, context: string, name: string, g: FieldGroup,
                   escHtml: Value -> Value, translate: (string, string) -> string): (r: Panel)
    ensures r.objectTypes == [table] && r.context == context
    ensures |r.fields| == |g.fields|
    ensures forall k :: 0 <= k < |g.fields| ==> Get(r.fields[k], StrKey("id")) == Some(Str(g.fields[k].0))
  {
    Panel(table + "-" + context + "-" + name, translate(g.title, TextDomain), [table], context,
          seq(|g.fields|, k requires 0 <= k < |g.fields| => FieldConfig(g.fields[k].0, g.fields[k].1, escHtml)))
  }

  /** The panels of the groups of one context, in insertion order. */
  function ContextPanels(table: string, context: string, groups: OrderedMap<string, FieldGroup>,
                         escHtml: Value -> Value, translate: (string, string) -> string): seq<Panel>
  {
    seq(|groups|, j requires 0 <= j < |groups| => PanelOf(table, context, groups[j].0, groups[j].1, escHtml, translate))
  }

  /** The panels of every group, context by context, in insertion order. */
  function AllPanels(table: string, m: GroupMap, escHtml: Value -> Value, translate: (string, string) -> string): (r: seq<Panel>)
    ensures |r| == GroupCount(m)
    ensures forall p :: p in r ==> p.objectTypes == [table]
    decreases |m|
  {
    if m == [] then []
    else
      AllPanels(table, m[..|m| - 1], escHtml, translate)
        + ContextPanels(table, m[|m| - 1].0, m[|m| - 1].1, escHtml, translate)
  }

  /** The number of groups in the table, over all contexts. */
  function GroupCount(m: GroupMap): nat
    decreases |m|
  {
    if m == [] then 0 else GroupCount(m[..|m| - 1]) + |m[|m| - 1].1|
  }

  /** In a well-formed table, the group at a position is the one its keys find. */
  lemma GroupAt(m: GroupMap, i: nat, j: nat)
    requires WellFormed(m) && i < |m| && j < |m[i].1|
    ensures GroupOf(m, m[i].0, m[i].1[j].0) == Some(m[i].1[j].1)
  {
    GetEntry(m, i);
    assert m[i] in m;
    GetEntry(m[i].1, j);
  }

  /** Every group of the table is rendered. */
  lemma {:induction false} EveryGroupRendered(table: string, m: GroupMap, escHtml: Value -> Value,
                                              translate: (string, string) -> string, i: nat, j: nat)
    requires i < |m| && j < |m[i].1|
    ensures PanelOf(table, m[i].0, m[i].1[j].0, m[i].1[j].1, escHtml, translate) in AllPanels(table, m, escHtml, translate)
  {
    var init := m[..|m| - 1];
    if i < |m| - 1 {
      assert init[i] == m[i];
      EveryGroupRendered(table, init, escHtml, translate, i, j);
    } else {
      var last := ContextPanels(table, m[i].0, m[i].1, escHtml, translate);
      assert last[j] in last;
    }
  }

  // ---------------------------------------------------------------------
  // Examples

  /** A column given only a name and a label is not sortable. */
  lemma ColumnDefaults(cols: ColumnMap, name: string, title: string)
    ensures ApplyColumns(cols, [Arr([(StrKey("column"), Str(name)), (StrKey("label"), Str(title))])])
         == Applied(WithColumn(cols, name, title, Bool(false), "asc"), true)
    ensures Get(WithColumn(cols, name, title, Bool(false), "asc"), name) == Some(ColumnSpec(title, None))
  {
    var entries := [Arr([(StrKey("column"), Str(name)), (StrKey("label"), Str(title))])];
    DefaultsEntry(name, title);
    FoldStep(cols, entries, ColumnCallOf, ApplyColumnCall, 0);
    assert entries[..0] == [] && entries[..1] == entries;
  }

  /** An entry with only a column and a label is the call `column($name, $label, false, 'asc')`. */
  lemma DefaultsEntry(name: string, title: string)
    ensures ColumnCallOf(Arr([(StrKey("column"), Str(name)), (StrKey("label"), Str(title))]))
         == Some(ColumnCall(name, title, Bool(false), "asc"))
  {
    var a := [(StrKey("column"), Str(name)), (StrKey("label"), Str(title))];
    assert "column"[0] != "label"[0];
    assert Keys(a) == [StrKey("column"), StrKey("label")];
    GetEntry(a, 0);
    GetEntry(a, 1);
    assert "direction"[0] != "column"[0] && "direction"[0] != "label"[0];
    assert "sortable"[0] != "column"[0] && "sortable"[0] != "label"[0];
    assert !HasKey(a, StrKey("direction")) && !HasKey(a, StrKey("sortable"));
    assert Lookup(a, StrKey("column")) == Str(name);
    assert Lookup(a, StrKey("label")) == Str(title);
    assert Coalesce(a, StrKey("sortable"), Bool(false)) == Bool(false);
    assert Coalesce(a, StrKey("direction"), Str("asc")) == Str("asc");
  }

  /**
   * An "events" table with one sortable "title" column in descending order
   * gives the list view `['title' => ['label' => 'Title', 'sortable' => ['title', false]]]`.
   */
  lemma EventsColumns()
    ensures ApplyColumns([], [Arr([(StrKey("column"), Str("title")), (StrKey("label"), Str("Title")),
                                   (StrKey("sortable"), Bool(true)), (StrKey("direction"), Str("desc"))])])
         == Applied([("title", ColumnSpec("Title", Some(SortSpec("title", false))))], true)
  {
    var a := [(StrKey("column"), Str("title")), (StrKey("label"), Str("Title")),
              (StrKey("sortable"), Bool(true)), (StrKey("direction"), Str("desc"))];
    var call := ColumnCall("title", "Title", Bool(true), "desc");
    EventsEntry();
    assert SortDescriptor("title", Bool(true), "desc") == Some(SortSpec("title", false));
    assert ApplyColumnCall([], call) == [("title", ColumnSpec("Title", Some(SortSpec("title", false))))];
    assert [Arr(a)][..0] == [];
  }

  /** The "events" column entry is the call `column('title', 'Title', true, 'desc')`. */
  lemma EventsEntry()
    ensures ColumnCallOf(Arr([(StrKey("column"), Str("title")), (StrKey("label"), Str("Title")),
                              (StrKey("sortable"), Bool(true)), (StrKey("direction"), Str("desc"))]))
         == Some(ColumnCall("title", "Title", Bool(true), "desc"))
  {
    var a := [(StrKey("column"), Str("title")), (StrKey("label"), Str("Title")),
              (StrKey("sortable"), Bool(true)), (StrKey("direction"), Str("desc"))];
    assert "column"[0] != "label"[0] && "column"[0] != "sortable"[0] && "column"[0] != "direction"[0];
    assert "label"[0] != "sortable"[0] && "label"[0] != "direction"[0] && "sortable"[0] != "direction"[0];
    assert Keys(a) == [StrKey("column"), StrKey("label"), StrKey("sortable"), StrKey("direction")];
    GetEntry(a, 0);
    GetEntry(a, 1);
    GetEntry(a, 2);
    GetEntry(a, 3);
    assert Lookup(a, StrKey("column")) == Str("title");
    assert Lookup(a, StrKey("label")) == Str("Title");
    assert Coalesce(a, StrKey("sortable"), Bool(false)) == Bool(true);
    assert Coalesce(a, StrKey("direction"), Str("asc")) == Str("desc");
  }
}
