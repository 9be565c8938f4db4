/**
 * The `CustomTablesApi` builder: an object whose setters update its fields
 * in place, `init()`, which hands the accumulated configuration to the
 * host, and `render_metaboxes()`, which turns the metabox table into
 * panels.
 */
module Builder {
  import opened Options
  import opened PhpArrays
  import opened PhpValues
  import opened PhpStrings
  import opened CustomTables

  /** The list view options of the registered table. */
  datatype ListView = ListView(perPage: int, columns: ColumnMap, parentSlug: string, menuTitle: string)

  /** The configuration array handed to `ct_register_table`. */
  datatype TableConfig = TableConfig(
    singular: string,
    plural: string,
    showUi: bool,
    showInRest: bool,
    version: int,
    schema: SchemaDef,
    engine: string,
    addView: Args,
    listView: ListView,
    supports: seq<seq<string>>)

  /** The two closures `init()` registers as filters. */
  datatype Closure = DefaultDataClosure | SearchFieldsClosure

  /** A call `init()` makes into the host. */
  datatype HostCall =
    | RegisterTable(table: string, config: TableConfig)
    | AddFilter(hook: string, closure: Closure)
    | AddAction(hook: string, callback: string)

  function DefaultDataHook(table: string): string {
    "ct_" + table + "_default_data"
  }

  function SearchFieldsHook(table: string): string {
    "ct_query_" + table + "_search_fields"
  }

  class CustomTablesApi {
    const table: string
    const name: string
    const plural: string
    const version: int
    const showUi := true
    const showInRest := false

    var schema: SchemaDef
    var columns: ColumnMap
    var parentSlug: string
    var metaboxes: GroupMap
    var supports: seq<string>
    var defaults: Args
    var searchFields: Args
    var filters: Args

    /** The builder's own arrays are PHP arrays, and supports is empty or just 'meta'. */
    ghost predicate Valid()
      reads this
    {
      UniqueKeys(columns) && WellFormed(metaboxes) && (supports == [] || supports == ["meta"])
    }

    constructor(table: string, name: string, plural: string, schema: SchemaDef, version: int := 1)
      ensures Valid()
      ensures this.table == table && this.name == name && this.plural == plural
      ensures this.schema == schema && this.version == version
      ensures columns == [] && metaboxes == [] && supports == [] && parentSlug == ""
      ensures defaults == [] && searchFields == [] && filters == []
    {
      this.table := table;
      this.name := name;
      this.plural := plural;
      this.schema := schema;
      this.version := version;
      columns := [];
      parentSlug := "";
      metaboxes := [];
      supports := [];
      defaults := [];
      searchFields := [];
      filters := [];
    }

    method Parent(slug: string)
      modifies this`parentSlug
      ensures parentSlug == slug
    {
      parentSlug := slug;
    }

    method Schema(schema: SchemaDef)
      modifies this`schema
      ensures this.schema == schema
    {
      this.schema := schema;
    }

    method Filters(filters: Args)
      modifies this`filters
      ensures this.filters == filters
    {
      this.filters := filters;
    }

    method Searchable(searchFields: Args)
      modifies this`searchFields
      ensures this.searchFields == searchFields
    {
      this.searchFields := searchFields;
    }

    method Defaults(defaults: Args)
      modifies this`defaults
      ensures this.defaults == defaults
    {
      this.defaults := defaults;
    }

    /** After one call or many, supports is exactly `['meta']`. */
    method SupportsMeta()
      requires Valid()
      modifies this`supports
      ensures Valid()
      ensures supports == WithMeta(old(supports))
      ensures supports == ["meta"]
    {
      supports := supports + ["meta"];
      supports := ArrayUnique(supports);
      assert supports == WithMeta(old(supports));
    }

    method Column(name: string, title: string, sortable: Value := Bool(false), direction: string := "asc")
      requires Valid()
      modifies this`columns
      ensures Valid()
      ensures columns == WithColumn(old(columns), name, title, sortable, direction)
    {
      columns := Set(columns, name,
        ColumnSpec(title, if Truthy(sortable) then Some(SortSpec(name, StrToLower(direction) == "asc")) else None));
      SetUnique(old(columns), name, ColumnSpec(title, SortDescriptor(name, sortable, direction)));
    }

    /**
     * `columns($entries)`: `column()` for each entry in turn. `ok` is false
     * when an entry made `column()` raise; the entries before it have been
     * applied.
     */
    method Columns(entries: seq<Value>) returns (ok: bool)
      requires Valid()
      modifies this`columns
      ensures Valid()
      ensures Applied(columns, ok) == ApplyColumns(old(columns), entries)
    {
      var i := 0;
      while i < |entries|
        invariant 0 <= i <= |entries|
        invariant Valid()
        invariant ApplyColumns(old(columns), entries[..i]) == Applied(columns, true)
      {
        var call := ColumnCallOf(entries[i]);
        FoldStep(old(columns), entries, ColumnCallOf, ApplyColumnCall, i);
        if call.None? {
          FoldStops(old(columns), entries, ColumnCallOf, ApplyColumnCall, i + 1);
          return false;
        }
        Column(call.value.name, call.value.title, call.value.sortable, call.value.direction);
        i := i + 1;
      }
      assert entries[..i] == entries;
      return true;
    }

    /** `metabox($name, $label, $context)`: the group is reset to `$label` with no fields. */
    method Metabox(name: string, title: string, context: string := "normal")
      requires Valid()
      modifies this`metaboxes
      ensures Valid()
      ensures metaboxes == WithMetabox(old(metaboxes), name, title, context)
    {
      metaboxes := PutGroup(metaboxes, context, name, FieldGroup(title, []));
    }

    method Field(name: string, args: Args := [], context: string := "normal", metabox: string := "default")
      requires Valid()
      modifies this`metaboxes
      ensures Valid()
      ensures metaboxes == WithField(old(metaboxes), context, metabox, name, args)
    {
      if GroupOf(metaboxes, context, metabox).None? {
        Metabox(metabox, UcWords(metabox), context);
        PutGroupTwice(old(metaboxes), context, metabox, FieldGroup(UcWords(metabox), []),
                      FieldGroup(UcWords(metabox), Set([], name, args)));
      }
      var g := GroupOf(metaboxes, context, metabox).value;
      metaboxes := PutGroup(metaboxes, context, metabox, g.(fields := Set(g.fields, name, args)));
    }

    /**
     * `fields($entries, $context, $metabox)`: `field()` for each entry, named
     * by its 'column'. `ok` is false when an entry made `field()` raise; the
     * entries before it have been applied.
     */
    method Fields(entries: seq<Value>, context: string := "normal", metabox: string := "default") returns (ok: bool)
      requires Valid()
      modifies this`metaboxes
      ensures Valid()
      ensures Applied(metaboxes, ok) == ApplyFields(old(metaboxes), entries, context, metabox)
    {
      var i := 0;
      while i < |entries|
        invariant 0 <= i <= |entries|
        invariant Valid()
        invariant ApplyFields(old(metaboxes), entries[..i], context, metabox) == Applied(metaboxes, true)
      {
        var call := FieldCallOf(entries[i]);
        FoldStep(old(metaboxes), entries, FieldCallOf,
          (g: GroupMap, c: (string, Args)) => WithField(g, context, metabox, c.0, c.1), i);
        if call.None? {
          FoldStops(old(metaboxes), entries, FieldCallOf,
            (g: GroupMap, c: (string, Args)) => WithField(g, context, metabox, c.0, c.1), i + 1);
          return false;
        }
        Field(call.value.0, call.value.1, context, metabox);
        i := i + 1;
      }
      assert entries[..i] == entries;
      return true;
    }

    /**
     * The default-data filter: `$this->defaults + $default_data`. Stored
     * defaults win; incoming keys they lack are kept after them.
     */
    function DefaultData(incoming: Args): (r: Args)
      reads this
      ensures forall k :: Get(r, k) == if HasKey(defaults, k) then Get(defaults, k) else Get(incoming, k)
      ensures |r| >= |defaults| && r[..|defaults|] == defaults
      ensures defaults == [] ==> r == incoming
      ensures UniqueKeys(defaults) && UniqueKeys(incoming) ==> UniqueKeys(r)
    {
      UnionGetAll(defaults, incoming);
      UnionEmptyLeft(incoming);
      assert UniqueKeys(defaults) && UniqueKeys(incoming) ==> UniqueKeys(Union(defaults, incoming)) by {
        if UniqueKeys(defaults) && UniqueKeys(incoming) {
          UnionUnique(defaults, incoming);
        }
      }
      Union(defaults, incoming)
    }

    /**
     * The search-fields filter: `$this->search_fields + $search_fields`.
     * On two lists this keeps the stored list and only the incoming entries
     * past its length.
     */
    function SearchFields(incoming: Args): (r: Args)
      reads this
      ensures forall k :: Get(r, k) == if HasKey(searchFields, k) then Get(searchFields, k) else Get(incoming, k)
      ensures searchFields == [] ==> r == incoming
      ensures IsList(searchFields) && IsList(incoming) ==>
        r == if |incoming| <= |searchFields| then searchFields else searchFields + incoming[|searchFields|..]
    {
      UnionGetAll(searchFields, incoming);
      UnionEmptyLeft(incoming);
      assert IsList(searchFields) && IsList(incoming) ==>
        Union(searchFields, incoming) ==
          if |incoming| <= |searchFields| then searchFields else searchFields + incoming[|searchFields|..] by {
        if IsList(searchFields) && IsList(incoming) {
          ListUnion(searchFields, incoming);
        }
      }
      Union(searchFields, incoming)
    }

    /** The configuration `init()` registers the table with. */
    function Registration(): (r: TableConfig)
      reads this
      ensures r.singular == name && r.plural == plural && r.version == version && r.schema == schema
      ensures r.showUi && !r.showInRest && r.engine == "InnoDB" && r.addView == []
      ensures r.listView == ListView(PerPage, columns, parentSlug, plural)
      ensures r.supports == [supports]
    {
      TableConfig(name, plural, showUi, showInRest, version, schema, "InnoDB", [],
                  ListView(PerPage, columns, parentSlug, plural), [supports])
    }

    /**
     * `init()`: registers the table, then the default-data filter when
     * defaults are set, then the search-fields filter when search fields
     * are set, then the metabox callback. The closures read the builder
     * when they run (DefaultData, SearchFields).
     */
    method Init() returns (calls: seq<HostCall>)
      ensures |calls| == 2 + (if defaults != [] then 1 else 0) + (if searchFields != [] then 1 else 0)
      ensures calls[0] == RegisterTable(table, Registration())
      ensures calls[0].config.listView.perPage == 40 && calls[0].config.listView.menuTitle == plural
      ensures calls[0].config.listView.columns == columns && calls[0].config.supports == [supports]
      ensures calls[|calls| - 1] == AddAction("cmb2_admin_init", "render_metaboxes")
      ensures AddFilter(DefaultDataHook(table), DefaultDataClosure) in calls <==> defaults != []
      ensures AddFilter(SearchFieldsHook(table), SearchFieldsClosure) in calls <==> searchFields != []
    {
      calls := [RegisterTable(table, Registration())];
      if defaults != [] {
        calls := calls + [AddFilter("ct_" + table + "_default_data", DefaultDataClosure)];
      }
      if searchFields != [] {
        calls := calls + [AddFilter("ct_query_" + table + "_search_fields", SearchFieldsClosure)];
      }
      calls := calls + [AddAction("cmb2_admin_init", "render_metaboxes")];
    }

    /**
     * `render_metabox($context, $name)`: the panel `{table}-{context}-{name}`
     * titled with the translated label, and one field configuration per
     * field, in insertion order.
     */
    method RenderMetabox(context: string, name: string, escHtml: Value -> Value, translate: (string, string) -> string)
      returns (panel: Panel)
      requires GroupOf(metaboxes, context, name).Some?
      ensures panel == PanelOf(table, context, name, GroupOf(metaboxes, context, name).value, escHtml, translate)
      ensures panel.id == table + "-" + context + "-" + name && panel.context == context
      ensures panel.title == translate(GroupOf(metaboxes, context, name).value.title, TextDomain)
      ensures var fs := GroupOf(metaboxes, context, name).value.fields;
        |panel.fields| == |fs| &&
        forall k :: 0 <= k < |fs| ==> panel.fields[k] == FieldConfig(fs[k].0, fs[k].1, escHtml)
    {
      var g := GroupOf(metaboxes, context, name).value;
      var configs: seq<Args> := [];
      var k := 0;
      while k < |g.fields|
        invariant 0 <= k <= |g.fields|
        invariant |configs| == k
        invariant forall j :: 0 <= j < k ==> configs[j] == FieldConfig(g.fields[j].0, g.fields[j].1, escHtml)
      {
        var config := FieldConfig(g.fields[k].0, g.fields[k].1, escHtml);
        configs := configs + [config];
        k := k + 1;
      }
      panel := Panel(table + "-" + context + "-" + name, translate(g.title, TextDomain), [table], context, configs);
    }

    /** `render_metaboxes()`: every group, context by context, in insertion order. */
    method RenderMetaboxes(escHtml: Value -> Value, translate: (string, string) -> string) returns (panels: seq<Panel>)
      requires Valid()
      ensures panels == AllPanels(table, metaboxes, escHtml, translate)
    {
      panels := [];
      var i := 0;
      while i < |metaboxes|
        invariant 0 <= i <= |metaboxes|
        invariant panels == AllPanels(table, metaboxes[..i], escHtml, translate)
      {
        var (context, groups) := metaboxes[i];
        var j := 0;
        while j < |groups|
          invariant 0 <= j <= |groups|
          invariant panels == AllPanels(table, metaboxes[..i], escHtml, translate)
                            + ContextPanels(table, context, groups[..j], escHtml, translate)
        {
          GroupAt(metaboxes, i, j);
          var panel := RenderMetabox(context, groups[j].0, escHtml, translate);
          assert ContextPanels(table, context, groups[..j + 1], escHtml, translate)
              == ContextPanels(table, context, groups[..j], escHtml, translate) + [panel];
          panels := panels + [panel];
          j := j + 1;
        }
        assert groups[..j] == groups;
        assert metaboxes[..i + 1][..i] == metaboxes[..i];
        i := i + 1;
      }
      assert metaboxes[..i] == metaboxes;
    }
  }

  /**
   * With defaults `['status' => 'draft']`, the default-data filter turns
   * `['status' => 'published', 'author' => 'x']` into
   * `['status' => 'draft', 'author' => 'x']`: the stored value wins.
   */
  lemma DraftDefaults(api: CustomTablesApi)
    requires api.defaults == [(StrKey("status"), Str("draft"))]
    ensures api.DefaultData([(StrKey("status"), Str("published")), (StrKey("author"), Str("x"))])
         == [(StrKey("status"), Str("draft")), (StrKey("author"), Str("x"))]
  {
    var incoming := [(StrKey("status"), Str("published")), (StrKey("author"), Str("x"))];
    assert Keys(api.defaults) == [StrKey("status")];
    assert "status"[0] != "author"[0];
    WithoutPrefix(incoming, Keys(api.defaults), 1);
  }
}
