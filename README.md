# laktory resource layer, in Dafny

This project models the resource layer of laktory, which turns lakehouse models into Pulumi resources for Databricks. It covers:

- **Naming** (`BaseResource`):
  - the kebab-case type id derived from the class name;
  - the default resource name built from the type id and the resource key, with no stutter;
  - the user's override of that name.
- **Pulumi projection and deploy** (`PulumiResource`):
  - exclusions given as a list or as a map, merged with the base exclusions;
  - the dump without excluded and `None` fields;
  - the rename loop;
  - the deploy loop, which creates the resources of `all_resources` under a component. It records their handles and `id`/`object_id` outputs in two module-level stores, modelled by the class `PulumiResources.Registry`.
- **Per-kind expansion**:
  - the memoized `resources` list of `Warehouse` and `WorkspaceFile`, with its `Permissions` child and the `${resources.X}` reference strings;
  - the warehouse `channel_name` rewrite;
  - the workspace-file path and key derivation (`basename`, `split("/workspacefiles/")[-1]`, POSIX `splitext`, `/` to `-`).
- **Table** (`Table`):
  - the back-fill of the table's location into its columns;
  - `parent_full_name`, `full_name`, `schema_name` and `column_names`;
  - the SQL text of the `CREATE`, `INSERT` and `SELECT` statements.

The Pulumi side is a `Backend` value of uninterpreted functions: the component constructor, the resource constructor, `inject_vars` and `resolve_vars`. A resource constructor returns a `Handle` whose `id` and `object_id` attributes are optional. `value_to_statement` is a function parameter of the insert builder.

Python exceptions are values of the `Errors.Error` datatype, returned in a `Result`. A property that raises, such as `resource_name` on a `None` key, is an `Option` that is `None`. Its callers turn that into a `TypeError` with the message of `type_id in None`.

Files:
- `wrappers.dfy`: Option, Result, errors and dump values.
- `text.dfy`: Python string operations.
- `baseresource.dfy`
- `pulumiresource.dfy`
- `permissions.dfy`
- `warehouse.dfy`
- `workspacefile.dfy`
- `table.dfy`

Facts of the code that the model keeps:
- The type id of `Warehouse` is `warehouse` (`Warehouses.TypeId`). So a warehouse named `default` is named `warehouse-default`, and its child `permissions-warehouse-default` (`Warehouses.Warehouse.DefaultWarehouseExpansion`).
- The warehouse's permissions child gets no `depends_on` entry; only the workspace-file child does.
- `deploy` iterates `all_resources`, which is `[self]`. It is not the `resources` list, so deploying a warehouse never creates its permissions child.
- The code has none of the following: name-pattern validation, `.`/`@` sanitisation, provider propagation, `depends_on` de-duplication, cycle detection. The model has none of them either.

## Model

| member | source | states |
|---|---|---|
| BaseResources.ResourceName | laktory/models/resources/baseresource.py:14-18 | A truthy override is the name; an empty or missing override falls through to the default name; a `None` key gives no name; every default name contains the type id |
| BaseResources.ResourceTypeId | laktory/models/resources/baseresource.py:27-31 | The type id starts with the lower-cased first character of the class name (no `-` at index 0) |
| BaseResources.ResourceTypeIdShape | laktory/models/resources/baseresource.py:27-31 | The type id has no upper-case letter, and its length is the class name's plus the number of upper-case letters after index 0 |
| BaseResources.ResourceTypeIdDropDashes | laktory/models/resources/baseresource.py:27-31 | For a class name without `-`, removing the dashes from the type id gives the lower-cased class name: only dashes are inserted |
| BaseResources.TypeIdOfWorkspaceFile | laktory/models/resources/baseresource.py:27-31 | `WorkspaceFile` becomes `workspace-file` |
| BaseResources.TypeIdOfTwoWords | laktory/models/resources/baseresource.py:27-31 | A two-word CamelCase name becomes the lower-cased first word, `-`, and the lower-cased second word |
| BaseResources.DefaultResourceName | laktory/models/resources/baseresource.py:38-47 | The name is `type_id-key` when the key does not contain the type id, and the key verbatim otherwise; it always contains the type id and depends only on the type id and the key |
| Warehouses.Warehouse.View | laktory/models/resources/baseresource.py:33-36 | The warehouse's resource key is `name`, and the name the deploy loop uses is the warehouse's `resource_name` |
| PulumiResources.AllResources | laktory/models/resources/baseresource.py:49-53 | `all_resources` is exactly the one-element list of the resource itself |
| PulumiResources.BaseExcludeApplies | laktory/models/resources/pulumiresource.py:30-33 | The base exclusion `resource_name` applies unless a map of exclusions keeps it explicitly |
| PulumiResources.EffectiveExcludes | laktory/models/resources/pulumiresource.py:65-70 | A list is base then the subclass list, in order; a map has the base keys plus the subclass keys, and the subclass entries win; a field is excluded exactly as so merged |
| PulumiResources.Dump | laktory/models/resources/pulumiresource.py:72 | A field is in the dump if and only if it is present, not `None` and not excluded; it then keeps its value |
| PulumiResources.RenameOne | laktory/models/resources/pulumiresource.py:74 | `KeyError(k)` if and only if `k` is absent; otherwise `v` holds the old `d[k]`, `k` is gone when `k != v`, and every other key keeps its value |
| PulumiResources.RenameToItself | laktory/models/resources/pulumiresource.py:74 | Renaming a present key to itself leaves the dump unchanged |
| PulumiResources.Renamed | laktory/models/resources/pulumiresource.py:73-74 | The renames applied in order fail only with the `KeyError` of a key that is to be renamed |
| PulumiResources.RenamedSucceeds | laktory/models/resources/pulumiresource.py:73-74 | When every key to rename is present and none is renamed twice, the renames succeed, and fields neither renamed nor targeted keep their values |
| PulumiResources.PulumiProperties | laktory/models/resources/pulumiresource.py:65-76 | The loop of pops and assignments computes the dump renamed in order, stopping at the first missing key, then injected |
| PulumiResources.Properties | laktory/models/resources/pulumiresource.py:65-76 | The properties fail only with the `KeyError` of a renamed key, and cannot fail without renames |
| PulumiResources.PropertiesWithoutRenames | laktory/models/resources/pulumiresource.py:72-76 | Without renames, the properties are the injected dump, holding no excluded field and no `None` value |
| PulumiResources.ComponentType | laktory/models/resources/pulumiresource.py:85-86 | The component type starts with `laktory:databricks:`, is the class name appended to it when that name holds no `Pulumi`, and is never longer than prefix plus class name |
| PulumiResources.Reference | laktory/models/databricks/warehouse.py:140 | `${resources.X}` starts with `${resources.`, ends with `}` and holds exactly `X` between them |
| PulumiResources.HandleOutputs | laktory/models/resources/pulumiresource.py:110-115 | The outputs of a handle are `<name>.id` and `<name>.object_id`, each present if and only if the handle has that attribute, with its value |
| PulumiResources.CreateStep | laktory/models/resources/pulumiresource.py:103-115 | One iteration succeeds exactly when the resource's properties and name can be computed, then adds exactly that name to the local map; a failing one changes nothing; no output is removed |
| PulumiResources.RunAll | laktory/models/resources/pulumiresource.py:103-115 | The loop in order: once stopped it changes nothing, and it never removes a handle or an output key |
| PulumiResources.RunAllOutputs | laktory/models/resources/pulumiresource.py:103-115 | The deploy loop never removes an output, and every output it adds or changes has a key ending in `.id` or `.object_id` |
| PulumiResources.RunAllLocal | laktory/models/resources/pulumiresource.py:103-107 | When the loop completes, every resource of the list has a name, and that name is a key of the local map; earlier keys stay |
| PulumiResources.DeploySpec | laktory/models/resources/pulumiresource.py:78-122 | Without a name, deploy fails with the `TypeError` and records nothing. A failure leaves the resource store alone; a success adds exactly the returned entries to it. No output is removed |
| PulumiResources.DeployCreatesSelf | laktory/models/resources/pulumiresource.py:94-119 | A successful deploy returns the single entry `{resource_name: handle}` (the handle replaces the component), adds exactly that handle's outputs, and stores that one entry globally |
| PulumiResources.DeployRegistersOneName | laktory/models/resources/pulumiresource.py:94-119 | A successful deploy returns, and adds to the global store, exactly the resource's own name |
| PulumiResources.DeployFailureKeepsResources | laktory/models/resources/pulumiresource.py:88-119 | A failed deploy leaves the global resource store and the outputs as they were; with a backend that cannot fail, it fails only on the name or the properties |
| PulumiResources.Registry.Deploy | laktory/models/resources/pulumiresource.py:78-122 | The method's result and its new output and resource stores are those of the deploy specification applied to the old stores |
| PulumiResources.Registry.SaveResources | laktory/models/resources/pulumiresource.py:117-119 | After the copy, the global store is the old store with every created entry added, overwriting an entry of the same name |
| Warehouses.TypeId | laktory/models/resources/baseresource.py:27-31 | The type id of `Warehouse`, used to name it and its child, is `warehouse` |
| Warehouses.Warehouse.ResourceName | laktory/models/databricks/warehouse.py:138-140 | A truthy override wins; otherwise the name is `warehouse-<name>` unless `name` contains `warehouse`, and there is no name when `name` is `None` |
| Warehouses.Warehouse.Child | laktory/models/databricks/warehouse.py:137-141 | The child's own resource name is `permissions-<rn>`; it carries the warehouse's permissions, and its `warehouse_id` refers to the output `<rn>.id` |
| Warehouses.Warehouse.Expansion | laktory/models/databricks/warehouse.py:131-142 | The list is the warehouse alone when it has no permissions, and the warehouse plus a child otherwise. The child is `permissions-<rn>` with the warehouse's permissions and `warehouse_id` `${resources.<rn>.id}`. Naming the child fails if and only if there are permissions and no name |
| Warehouses.Warehouse.ExpansionWithName | laktory/models/databricks/warehouse.py:131-142 | With permissions and the name `rn`, the expansion is the warehouse followed by the child for `rn` |
| Warehouses.Warehouse.Resources | laktory/models/databricks/warehouse.py:126-144 | The first call computes and caches the expansion (after a failure the cache holds `[self]`); once cached, the list is returned unchanged, so the expansion is idempotent |
| Warehouses.Warehouse.ChildRefersToWarehouseId | laktory/models/databricks/warehouse.py:138-140 | The child is named `permissions-<rn>`, and its `warehouse_id` refers to an output that deploying the warehouse under `rn` records |
| Warehouses.Warehouse.DefaultWarehouseExpansion | laktory/models/databricks/warehouse.py:81-89 | The example of the class documentation: a warehouse named `default` with permissions expands to `warehouse-default` and `permissions-warehouse-default`, with `warehouse_id` `${resources.warehouse-default.id}` |
| Warehouses.Warehouse.ExcludesPermissions | laktory/models/databricks/warehouse.py:159-161 | The effective exclusions of a warehouse drop `permissions` and `resource_name` and keep `name` |
| Warehouses.Warehouse.PropertiesOmitPermissions | laktory/models/databricks/warehouse.py:150-161 | The properties sent for a SQL endpoint never hold `permissions` or `resource_name`, and hold `name` when it is set |
| Warehouses.Warehouse.DeployCreatesEndpointOnly | laktory/models/databricks/warehouse.py:126-161 | Deploying a named warehouse registers its own name only: the permissions child of `resources` is not deployed |
| Warehouses.Warehouse.ModelPulumiDump | laktory/models/databricks/warehouse.py:163-166 | `KeyError("channel_name")` if and only if that key is absent; otherwise `channel_name` is removed, `channel` is `{"name": old value}` and every other key is unchanged |
| WorkspaceFiles.Basename | laktory/models/databricks/workspacefile.py:34-36 | The base name is a suffix of the path with no `/`, preceded by a `/` when shorter than the path |
| WorkspaceFiles.WorkspaceFile.Filename | laktory/models/databricks/workspacefile.py:33-36 | `filename` is the `/`-free suffix of `source` that follows its last `/`, or all of `source` when it has no `/` |
| WorkspaceFiles.WorkspaceFile.DerivedPath | laktory/models/databricks/workspacefile.py:41-50 | With a truthy `dirpath` the path is `dirpath + filename`; else, with the marker in the source, `/` plus the last piece of splitting on it; else a `ValueError` |
| WorkspaceFiles.WorkspaceFile.DerivedPathFromMarker | laktory/models/databricks/workspacefile.py:44-45 | A path derived from the marker is `/` followed by the source after an occurrence of the marker, and holds no further marker |
| WorkspaceFiles.WorkspaceFile.DefaultPath | laktory/models/databricks/workspacefile.py:38-52 | An explicit `path` is kept; otherwise the derived path is assigned, or validation fails and `path` stays `None` |
| WorkspaceFiles.SplitExtRoot | laktory/models/databricks/workspacefile.py:61 | The root is a prefix of the path. It drops the extension only when the final component has a non-dot character before its last `.`, and the dropped extension contains no `/` and no further `.` |
| WorkspaceFiles.PathKey | laktory/models/databricks/workspacefile.py:61-64 | The key has no `/`. It is the splitext root with `/` turned into `-`, less its first character exactly when that character is `-` |
| WorkspaceFiles.WorkspaceFile.ResourceKey | laktory/models/databricks/workspacefile.py:58-64 | The resource key exists exactly when the path does, and is the key of the path |
| WorkspaceFiles.WorkspaceFile.ResourceName | laktory/models/databricks/workspacefile.py:58-64 | A truthy override wins; otherwise the name exists exactly when the path does and is the default name for type id `workspace-file` and the path key |
| WorkspaceFiles.WorkspaceFile.Child | laktory/models/databricks/workspacefile.py:77-82 | The child's own resource name is `permissions-<rn>`; it carries the file's permissions and path, and its only dependency refers to the resource `<rn>` |
| WorkspaceFiles.WorkspaceFile.Expansion | laktory/models/databricks/workspacefile.py:71-83 | The list is the file alone without permissions, and the file plus a child otherwise. The child is `permissions-<rn>` with the file's permissions, `workspace_file_path` the file's path and `depends_on` `["${resources.<rn>}"]`. Naming the child fails if and only if there are permissions and no name |
| WorkspaceFiles.WorkspaceFile.ExpansionWithPath | laktory/models/databricks/workspacefile.py:66-85 | Once the path is set, the expansion cannot fail |
| WorkspaceFiles.WorkspaceFile.ExpansionWithName | laktory/models/databricks/workspacefile.py:71-83 | With permissions and the name `rn`, the expansion is the file followed by the child for `rn` |
| WorkspaceFiles.WorkspaceFile.Resources | laktory/models/databricks/workspacefile.py:66-85 | The first call computes and caches the expansion; once cached, the list is returned unchanged |
| WorkspaceFiles.WorkspaceFile.PropertiesOmitDirpath | laktory/models/databricks/workspacefile.py:100-102 | The properties sent never hold `permissions`, `dirpath` or `resource_name`, and hold `source` and `path` when set |
| WorkspaceFiles.WorkspaceFile.ChildDependsOnDeployedFile | laktory/models/databricks/workspacefile.py:78-81 | The child's only dependency refers to a name under which deploying the file stores it |
| PermissionsResources.PermissionsValue | laktory/models/resources/pulumiresource.py:72 | The `permissions` field of a resource's dump lists one dict per permission entry, in order, with that entry's fields |
| Tables.Table.AssignTableToColumns | laktory/models/table.py:38-43 | Every column gets the table's name, catalog and database |
| Tables.Table.ParentFullName | laktory/models/table.py:49-62 | `""` with neither part set, the catalog alone, the database alone, or `catalog.database` |
| Tables.Table.ParentFullNameIsJoin | laktory/models/table.py:49-62 | `parent_full_name` is the truthy parts joined by `.` |
| Tables.Table.FullName | laktory/models/table.py:64-70 | The full name is the parent name, `.` and the name, so an empty parent leaves a leading `.` |
| Tables.Table.SchemaName | laktory/models/table.py:72-75 | `schema_name` is `database_name` |
| Tables.Table.ColumnNames | laktory/models/table.py:81-83 | The column names have the columns' length and order |
| Tables.Table.CreateStatement | laktory/models/table.py:125-126 | Building the create statement fails with `ValueError` if and only if there are no columns |
| Tables.CreateHeaderClauses | laktory/models/table.py:128-137 | The header holds `OR REPLACE ` exactly when `or_replace` is passed, and `IF NOT EXISTS ` exactly when `if_not_exists` is passed without it; never both |
| Tables.Table.CreateOneColumn | laktory/models/table.py:131-144 | With one column the statement is the header, `schema.name` and `(name type)`, with no trailing comma |
| Tables.Table.Create | laktory/models/table.py:118-151 | Appending `name type,` per column and dropping the last character gives the header, `schema.name` and the column definitions joined by `,` in parentheses |
| Tables.Table.InsertWithRows | laktory/models/table.py:158-164 | With rows, the insert statement is the header followed by the rows joined by `",\n"`, with no trailing separator |
| Tables.Table.InsertWithoutRows | laktory/models/table.py:158-164 | With an empty `data` the slice eats into the header, and the statement ends in ` VALUE` |
| Tables.Table.InsertStatement | laktory/models/table.py:156-164 | The insert statement fails with `TypeError` exactly when `data` is `None`, and otherwise starts with `INSERT INTO <full_name> VALUE` |
| Tables.Table.Insert | laktory/models/table.py:156-168 | The loop of appends and the final slice compute the insert statement; a `None` `data` raises `TypeError` |
| Tables.Table.Select | laktory/models/table.py:170-172 | `SELECT * from <full_name> limit ` followed by the decimal text of `limit` |
| Tables.Table.MetaTable | laktory/models/table.py:94-106 | `laktory.tables` has one `string` column per declared field of `Table`, in order, each back-filled with the table's location |

## Left out

- Pulumi itself (`pulumi_cls`, `LaktoryComponent`, `ResourceOptions` and the `opts` argument), `inject_vars` and `resolve_vars`: uninterpreted functions of `Backend`. `delete_before_replace` and the parent option are not modelled beyond passing the component handle as the parent.
- `model_dump` is modelled on the top-level fields only. A field's value is the `Value` that pydantic would dump; nested exclusion and serialisation aliases are not modelled.
- A map value of `False` in the exclusions keeps the field, and `True` excludes it. Nested exclusion filters are not modelled.
- `execute_statement_and_wait`, `exists`, `delete`, `Table.df` and `workspace_client` are I/O. `Create`, `Insert` and `Select` return or compute the statement text instead of executing it. `create`'s `insert_data` and `warehouse_id` arguments are not modelled.
- `Permissions` is a record of the fields the expansion fills in. The model takes `warehouse_id` as a field, as warehouse.py passes it. permissions.py declares `sql_endpoint_id` and no `warehouse_id`; what pydantic's configuration does with the extra field is not part of this model.
- `Table.meta_table` introspects `model_fields`; the model uses the fixed list of the 11 fields `Table` declares, in declaration order.
- `WorkspaceFiles.WorkspaceFile.DerivedPath`: the path uses Python's `split("/workspacefiles/")[-1]`, which scans left to right without overlap. For a source where the marker overlaps itself this is not the text after the last occurrence. The contract states only the split semantics and that no further marker follows.
- `WorkspaceFiles.WorkspaceFile.ResourceName`: the contract does not repeat, for this class, that the name contains `workspace-file`. `BaseResources.ResourceName` states that for every default name.
- `PulumiResources.ComponentType`: the contract does not state which characters remain after removing `Pulumi`. It states only the prefix, the length bound and the case of a class name without `Pulumi`.
- `Warehouses.Warehouse.Fields` and `WorkspaceFiles.WorkspaceFile.Fields`: the fields other than the ones the resource layer reads are an opaque map of settings (cluster size, tags and so on); their schema and validation are not modelled.
- The class names and the resource keys are plain strings. Python's `type(self).__name__` is modelled by the `ClassName` constant of each kind.
- Concurrency and Pulumi's asynchronous outputs are not modelled: an output is the string of the handle's attribute.
- `PulumiResources.DeployFailureKeepsResources`: the backend cannot fail in the model. In the source, an exception from `LaktoryComponent`, from a Pulumi constructor, from `inject_vars` or from `resolve_vars` escapes `deploy`. The two store clauses hold for those failures too, because nothing is recorded before such a raise. The clause "fails only on the name or the properties" is a statement about the model only.
- The resource's own `_pulumi_resources` attribute is not modelled as state. After a deploy that fails in its loop, the source leaves it holding `{resource_name: component}`; the model returns only the error.
- `Tables.Table.Create` and `Tables.Table.Select` take every argument explicitly. The default values `if_not_exists=True`, `or_replace=False` and `limit=10` are not modelled.
- `value_to_statement` is neither defined nor imported by table.py, so as written `insert` raises `NameError` on any row that holds a value. The model reads the call as the intended rendering function and takes it as the `render` parameter.
- Type ids are defined for ASCII class names only. `LowerChar` and `Lower` lower `A`-`Z`, whereas Python's `str.lower` also lowers non-ASCII letters.
- `WorkspaceFiles.WorkspaceFile.Expansion`: for a file without a path and without a name override, the source raises the `TypeError` of `os.path.splitext(None)`, whose message differs. The model returns the error of `type_id in None`, which has the same type. After the `default_path` validator has run, this case does not arise.
