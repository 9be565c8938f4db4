# Custom Tables API builder — a Dafny model

`CustomTablesApi` is a fluent builder that a WordPress plugin uses to declare
a custom database table and its admin screens. The setters collect values in
the object's own arrays:

- the list-view columns;
- the metabox table, indexed by context, then metabox name, then field;
- the supports list;
- default data, search fields and filters;
- the parent menu slug and the schema.

`init()` hands this configuration to the host:

- it registers the table with a fixed engine (`InnoDB`) and a list view of 40 rows per page;
- when defaults are stored, it adds the default-data filter, whose closure merges the stored defaults with the incoming ones;
- when search fields are stored, it adds the search-fields filter, whose closure does the same for search fields;
- it hooks `render_metaboxes`.

`render_metaboxes()` then turns every metabox into a panel, and every field of
the metabox into a field configuration.

The model has six modules:

- `Options`: the `Option` type.
- `PhpArrays`: PHP arrays as insertion-ordered maps (`seq<(K, V)>`).
  - Assignment replaces a present key where it stands and appends a new one.
  - `+` is left-wins.
  - `array_unique` keeps the first occurrence of each value.
- `PhpValues`: the values a configuration array holds.
  - Also modelled: `$a[$k]` (null when the key is absent), `isset`, `??`, truthiness, and passing a value to a `string` parameter.
  - Passing null or an array to a `string` parameter is a TypeError.
- `PhpStrings`: `strtolower` and `ucwords` on ASCII.
- `CustomTables`: what each setter does to the array it writes, as a function from the old value to the new one.
  - It also holds the configuration built when the table is registered and when its metaboxes are rendered, and the properties of both.
- `Builder`: the class `CustomTablesApi`.
  - Each setter is a method that updates the field it writes (`modifies this`field`).
  - Each setter is proved to compute the corresponding `CustomTables` function.
  - `columns()` and `fields()` are `while` loops proved against a fold that stops at the first entry that raises.
  - `init()` returns the list of calls it makes into the host.
  - `render_metaboxes()` returns the list of panels it creates.

A few names differ from the source. `label` is a Dafny keyword, so a column's
or metabox's label is called `title`. `column()`'s `[$name, $asc]` sort pair
is `SortSpec`, and its null is `None`.

## Behaviour worth noting

- In `render_metabox`, the field configuration is
  `['id' => …, 'name' => …, 'desc' => …] + $field`. PHP's `+` keeps the left
  operand's keys, so the synthesized `id`, `name` and `desc` win over the
  same keys in the field's own arguments (`FieldConfigKeys`).
- The filter hooks are `ct_<table>_default_data` and
  `ct_query_<table>_search_fields`, as `init()` builds them
  (`DefaultDataHook`, `SearchFieldsHook`).
- `metabox()` on a group that already holds fields resets it to no fields
  (`WithMetabox`).

## Model

| member | source | states |
|---|---|---|
| PhpArrays.Get | includes/classes/CustomTablesApi.php:177 | a lookup finds a value exactly when the key is present, and the value is the one stored with that key |
| PhpArrays.Set | includes/classes/CustomTablesApi.php:158 | assigning to a present key keeps the key order; assigning to a new key appends it |
| PhpArrays.SetSet | includes/classes/CustomTablesApi.php:181 | assigning the same key twice is the same as assigning it once with the second value |
| PhpArrays.Union | includes/classes/CustomTablesApi.php:101 | `$l + $r` begins with all of `$l`, unchanged and in order |
| PhpArrays.UnionGet | includes/classes/CustomTablesApi.php:101 | in `$l + $r`, a key's value comes from `$l` when `$l` has the key, otherwise from `$r` |
| PhpArrays.UnionUnique | includes/classes/CustomTablesApi.php:101 | the union of two arrays has no key twice |
| PhpArrays.UnionEmptyLeft | includes/classes/CustomTablesApi.php:101 | `[] + $r` is `$r` |
| PhpArrays.ArrayUnique | includes/classes/CustomTablesApi.php:142 | `array_unique` leaves no value twice, keeps every value and adds none, and lists the values in the order of their first occurrence |
| PhpArrays.ArrayUniqueDistinct | includes/classes/CustomTablesApi.php:142 | `array_unique` leaves a list without duplicates as it was |
| PhpValues.Lookup | includes/classes/CustomTablesApi.php:231 | `$a[$k]` is the stored value, or null when the key is absent |
| PhpValues.IsSet | includes/classes/CustomTablesApi.php:232 | `isset($a[$k])` holds exactly when the key is present and its value is not null |
| PhpValues.Truthy | includes/classes/CustomTablesApi.php:160 | a value is falsy exactly when it is null, false, 0, "", "0" or the empty array |
| PhpValues.Coalesce | includes/classes/CustomTablesApi.php:150 | `$a[$k] ?? $d` is the stored value when it is set and not null, otherwise `$d` |
| PhpValues.StringParam | includes/classes/CustomTablesApi.php:156 | a value passed to a `string` parameter raises exactly when it is null or an array; a string passes unchanged |
| PhpValues.ListUnion | includes/classes/CustomTablesApi.php:107 | `+` on two lists matches positions: the result is the left list, followed by the right list's entries past the left list's length |
| PhpStrings.StrToLower | includes/classes/CustomTablesApi.php:160 | `strtolower` keeps the length and lower-cases each character |
| PhpStrings.LowerIsAsc | includes/classes/CustomTablesApi.php:160 | `strtolower($d) === 'asc'` holds exactly for the eight case variants of "asc" |
| PhpStrings.UcWords | includes/classes/CustomTablesApi.php:178 | `ucwords` upper-cases the first character and every character after a delimiter, and leaves the rest unchanged |
| CustomTables.SortDescriptor | includes/classes/CustomTablesApi.php:160 | sortable is null exactly when `$sortable` is falsy; otherwise it names the column, and its flag is true exactly when the direction reads "asc" in any case |
| CustomTables.WithColumn | includes/classes/CustomTablesApi.php:156-164 | `column()` stores the label and sort descriptor under `$name`, leaves every other column unchanged, keeps a present column in its place, appends a new one, and keeps keys unique |
| CustomTables.ColumnCallOf | includes/classes/CustomTablesApi.php:150 | an entry makes `column()` raise exactly when it is not an array, its column or label is missing, null or an array, or its direction is an array; otherwise it passes its column and label, its sortable or false, and its direction or 'asc' |
| CustomTables.FieldCallOf | includes/classes/CustomTablesApi.php:169 | an entry makes `field()` raise exactly when it is not an array or its column is missing, null or an array; otherwise the field is named by its column and its arguments are the whole entry |
| CustomTables.FoldEntries | includes/classes/CustomTablesApi.php:149-151 | a `columns()` or `fields()` loop finishes without raising exactly when no entry makes the call raise |
| CustomTables.ApplyColumns | includes/classes/CustomTablesApi.php:147-154 | `columns()` completes exactly when every entry is a valid call, never removes a column, and keeps the map free of duplicate keys |
| CustomTables.ApplyFields | includes/classes/CustomTablesApi.php:166-173 | `fields()` completes exactly when every entry is a valid call, and keeps every level of the metabox table free of duplicate keys |
| CustomTables.GroupOf | includes/classes/CustomTablesApi.php:177 | `isset($this->metaboxes[$context][$name])` holds exactly when the context is present and lists the name; the group found is the one stored under it |
| CustomTables.FoldStops | includes/classes/CustomTablesApi.php:149-151 | once an entry has raised, later entries change nothing |
| CustomTables.ColumnDefaults | includes/classes/CustomTablesApi.php:150 | a `columns()` entry with only a column and a label is `column($name, $label, false, 'asc')`, which is not sortable |
| CustomTables.EventsColumns | includes/classes/CustomTablesApi.php:147-164 | one sortable "title" column with direction "desc" gives `['title' => ['label' => 'Title', 'sortable' => ['title', false]]]` |
| CustomTables.PutGroup | includes/classes/CustomTablesApi.php:202-205 | `$m[$context][$name] = $g` changes that group only, leaves every other context, and the order of its groups, unchanged, adds the context or the name at the end when either is new, and keeps every level free of duplicate keys |
| CustomTables.PutGroupTwice | includes/classes/CustomTablesApi.php:177-181 | assigning the same group twice is the same as assigning it once with the second value |
| CustomTables.WithMetabox | includes/classes/CustomTablesApi.php:200-208 | `metabox()` resets the group to its label with no fields, leaves every other group unchanged, leaves other contexts and the order of their groups unchanged, and keeps an existing group in its place or appends a new one |
| CustomTables.WithField | includes/classes/CustomTablesApi.php:175-184 | `field()` makes the group exist; the group keeps its label, or gets `ucwords($metabox)` when it was created; the field holds `$args`, every other field and group is unchanged, other contexts keep their groups in order, a new field, group or context is appended at the end, and existing ones keep their places |
| CustomTables.FieldLastWriteWins | includes/classes/CustomTablesApi.php:181 | writing a field twice leaves the second arguments and nothing of the first |
| CustomTables.WithMeta | includes/classes/CustomTablesApi.php:139-145 | `supports_meta()` leaves 'meta' present with no duplicates and adds nothing else; on a list without duplicates it appends 'meta' only when it is missing |
| CustomTables.WithMetaIdempotent | includes/classes/CustomTablesApi.php:139-145 | enabling meta support twice is the same as enabling it once |
| CustomTables.FieldConfig | includes/classes/CustomTablesApi.php:229-233 | a field's configuration starts with its `id`, passes on every entry of the field's arguments whose key is not `id`, `name` or `desc`, and holds nothing else after the first three entries |
| CustomTables.FieldConfigKeys | includes/classes/CustomTablesApi.php:229-233 | a field's configuration has `id`, `name`, `desc` first and they win over the field's own keys; `desc` is null unless set; every other key comes from the field's arguments |
| CustomTables.PanelOf | includes/classes/CustomTablesApi.php:221-233 | a metabox's panel is for the table's own object type and the metabox's context, with one field configuration per field whose `id` is the field's key |
| CustomTables.AllPanels | includes/classes/CustomTablesApi.php:212-214 | rendering produces one panel per group over all contexts, each for the table's own object type |
| CustomTables.GroupAt | includes/classes/CustomTablesApi.php:212-214 | iterating the metabox table reaches each group under the context and name that look it up |
| CustomTables.EveryGroupRendered | includes/classes/CustomTablesApi.php:210-217 | every group of every context gets its panel |
| Builder.CustomTablesApi.constructor | includes/classes/CustomTablesApi.php:50-64 | the table, names, schema and version are stored (version defaults to 1); every array starts empty |
| Builder.CustomTablesApi.Parent | includes/classes/CustomTablesApi.php:118-123 | the parent slug is replaced |
| Builder.CustomTablesApi.Schema | includes/classes/CustomTablesApi.php:125-130 | the schema is replaced |
| Builder.CustomTablesApi.Filters | includes/classes/CustomTablesApi.php:132-137 | the filters are replaced |
| Builder.CustomTablesApi.Searchable | includes/classes/CustomTablesApi.php:186-191 | the search fields are replaced |
| Builder.CustomTablesApi.Defaults | includes/classes/CustomTablesApi.php:193-198 | the defaults are replaced |
| Builder.CustomTablesApi.SupportsMeta | includes/classes/CustomTablesApi.php:139-145 | supports becomes exactly `['meta']`, however often it is called |
| Builder.CustomTablesApi.Column | includes/classes/CustomTablesApi.php:156-164 | the columns become `WithColumn` of the old columns |
| Builder.CustomTablesApi.Columns | includes/classes/CustomTablesApi.php:147-154 | the loop leaves the column map and raise flag that the fold of `column()` over the entries gives |
| Builder.CustomTablesApi.Metabox | includes/classes/CustomTablesApi.php:200-208 | the metabox table becomes `WithMetabox` of the old one |
| Builder.CustomTablesApi.Field | includes/classes/CustomTablesApi.php:175-184 | the metabox table becomes `WithField` of the old one, including when the group had to be created first |
| Builder.CustomTablesApi.Fields | includes/classes/CustomTablesApi.php:166-173 | the loop leaves the metabox table and raise flag that the fold of `field()` over the entries gives; each entry is named by its 'column' |
| Builder.CustomTablesApi.DefaultData | includes/classes/CustomTablesApi.php:100-102 | stored defaults win over incoming ones key by key; incoming keys they lack follow them; with no stored defaults the incoming array passes through unchanged |
| Builder.CustomTablesApi.SearchFields | includes/classes/CustomTablesApi.php:106-108 | stored search fields win key by key; on two lists, the incoming entries at positions the stored list covers are dropped |
| Builder.DraftDefaults | includes/classes/CustomTablesApi.php:100-102 | defaults `['status' => 'draft']` turn `['status' => 'published', 'author' => 'x']` into `['status' => 'draft', 'author' => 'x']` |
| Builder.CustomTablesApi.Registration | includes/classes/CustomTablesApi.php:68-97 | the table is registered with the stored names, version and schema, visible in the admin, hidden from REST, on InnoDB, with an empty add view, a list view of 40 rows with the stored columns and parent slug and the plural as menu title, and the supports list wrapped in a list |
| Builder.CustomTablesApi.Init | includes/classes/CustomTablesApi.php:66-116 | registers the table first (40 rows per page, plural as menu title, the stored columns and supports), adds each filter exactly when its array is non-empty, and hooks `render_metaboxes` last |
| Builder.CustomTablesApi.RenderMetabox | includes/classes/CustomTablesApi.php:219-235 | the panel is `<table>-<context>-<name>`, titled with the translated label in the `custom-tables-api` domain, with one configuration per field in insertion order |
| Builder.CustomTablesApi.RenderMetaboxes | includes/classes/CustomTablesApi.php:210-217 | the nested loop renders every group, context by context and in insertion order |

## Left out

- `get()` and `query()` pass a call on to the registered table's database object. That is I/O outside the builder.
- The `CT_Table` handle that `ct_register_table` returns is not modelled.
- The `require_once` of the CT library is not modelled.
- `ct_register_table`, `add_filter` and `add_action` are host calls. `init()` records them as `HostCall` values and does not run them.
- The closures are the functions `DefaultData` and `SearchFields`. They read the builder when they run, as the PHP closures capture `$this`.
- `new_cmb2_box` and `add_field` are host calls. `render_metabox()` returns what it would pass to them, as a `Panel`.
- `esc_html` and `__` are WordPress functions whose definitions are not part of this model. They are parameters (`escHtml`, `translate`).
- `render_filters()` loops over the filters and does nothing with them. Its call from `init()` has no effect, so it is not modelled.
- The `$fields` property is declared and never used. It is not modelled.
- Integer-like string keys are not modelled. PHP turns a key such as "5" into the integer 5. Builder keys are strings in the model, and the conversion is one-to-one, so which entries are equal does not change. What is not captured is the key's type where a key is read back. A field named "5" comes out of the `foreach` in `render_metabox` as the integer 5, so PHP passes `'id' => 5` to `add_field`, where `FieldConfig` gives the string "5". In the same way a column named "5" is registered under the integer key 5.
- Floats and objects are not among the modelled values.
- A `columns()` or `fields()` entry that is not an array makes the call raise in the model. PHP 8, which the source's union types require, does the same: an offset read on a null, boolean or integer entry gives null, which the `string` parameter refuses, and a string entry raises on its non-numeric offset.
- The source does not catch exceptions. A raising call therefore aborts the caller, and the model reports it through `Columns`/`Fields` returning `false`, with the entries before it applied.
- Builder.CustomTablesApi.DefaultData: the `array` type declaration on the closure parameter is taken as given: the incoming value is always an array.
- Builder.CustomTablesApi.SearchFields: the `array` type declaration on the closure parameter is taken as given: the incoming value is always an array.
- `supports` is modelled as a list of values. Its keys are not modelled: `array_unique` can leave gaps in them, but `supports_meta()` only ever stores 'meta'.
- Chaining (`return $this`) is not modelled. The methods return nothing, or the raise flag.
