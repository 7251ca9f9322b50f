/** `Warehouse`: a Databricks SQL warehouse, deployed as a Pulumi
    `SqlEndpoint`. Its `resources` list expands it into itself and, when it
    has permissions, a `Permissions` child; the list is cached on the
    instance. */
module Warehouses {
  import opened Wrappers
  import opened Errors
  import opened Values
  import opened Text
  import BaseResources
  import P = PermissionsResources
  import PulumiResources

  const ClassName: string := "Warehouse"

  /** `pulumi_resource_type`. */
  const PulumiResourceType: string := "databricks:SqlEndpoint"

  /** `pulumi_excludes`. */
  const PulumiExcludes: PulumiResources.Excludes := PulumiResources.ExcludeList(["permissions"])

  /** The type id of the class: `warehouse`. */
  lemma TypeId()
    ensures BaseResources.ResourceTypeId(ClassName) == "warehouse"
  {
    assert ClassName == ['W'] + "arehouse";
    assert BaseResources.NoUpper("arehouse");
    BaseResources.KebabTailOfNoUpper("arehouse");
  }

  /** An element of the `resources` list. */
  datatype WarehouseResource = WarehouseItem(warehouse: Warehouse) | PermissionsItem(permissions: P.Permissions)

  lemma DefaultNameText()
    ensures "warehouse" + "-" + "default" == "warehouse-default"
  {
  }

  lemma DefaultChildNameText()
    ensures "permissions-" + "warehouse-default" == "permissions-warehouse-default"
  {
  }

  lemma DefaultReferenceText()
    ensures PulumiResources.Reference("warehouse-default" + ".id") == "${resources.warehouse-default.id}"
  {
  }

  class Warehouse {
    /** `name`, `None` by default. */
    const name: Option<string>
    /** The `resource_name` override. */
    const nameOverride: Option<string>
    /** `permissions`. */
    const permissions: seq<P.Permission>
    /** The other fields of the model dump (`cluster_size`, `channel_name`,
        `auto_stop_mins`, ...), `None` where unset. */
    const settings: map<string, Option<Value>>
    /** `resources_`: the cached expansion, `None` until first computed. */
    var cachedResources: Option<seq<WarehouseResource>>

    constructor (name: Option<string>, nameOverride: Option<string>, permissions: seq<P.Permission>, settings: map<string, Option<Value>>)
      ensures this.name == name && this.nameOverride == nameOverride
      ensures this.permissions == permissions && this.settings == settings
      ensures cachedResources.None?
    {
      this.name := name;
      this.nameOverride := nameOverride;
      this.permissions := permissions;
      this.settings := settings;
      cachedResources := None;
    }

    /** `resource_name`, keyed by `name`: the override when truthy, else
        `warehouse-<name>` unless the name already contains `warehouse`;
        `None` when the name is `None` and the default is needed. */
    function ResourceName(): (r: Option<string>)
      ensures Truthy(nameOverride) ==> r == nameOverride
      ensures !Truthy(nameOverride) ==> (r.Some? <==> name.Some?)
      ensures !Truthy(nameOverride) && name.Some? && !Contains(name.value, "warehouse") ==>
        r == Some("warehouse" + "-" + name.value)
      ensures !Truthy(nameOverride) && name.Some? && Contains(name.value, "warehouse") ==> r == name
    {
      TypeId();
      BaseResources.ResourceName(nameOverride, BaseResources.ResourceTypeId(ClassName), name)
    }

    /** The `Permissions` child for the resource name `rn`: its own resource
        name is `permissions-<rn>`, it carries the warehouse's permissions,
        and its `warehouse_id` refers to the output `<rn>.id`. */
    function Child(rn: string): (c: P.Permissions)
      ensures BaseResources.ResourceName(c.nameOverride, BaseResources.ResourceTypeId(P.ClassName), None)
        == Some("permissions-" + rn)
      ensures c.accessControls == permissions && c.workspaceFilePath.None? && c.dependsOn == []
      ensures c.warehouseId == Some(PulumiResources.Reference(rn + ".id"))
    {
      P.Permissions(Some("permissions-" + rn), permissions, Some(PulumiResources.Reference(rn + ".id")), None, [])
    }

    /** What `resources` computes on first use: the warehouse, followed by
        the permissions child when `permissions` is not empty. Naming the
        child needs `resource_name`, which raises when `name` is `None`. */
    function Expansion(): (r: Result<seq<WarehouseResource>, Error>)
      ensures r.Failure? <==> |permissions| > 0 && ResourceName().None?
      ensures r.Failure? ==> r.error == BaseResources.NoneKeyError
      ensures r.Success? ==> |r.value| == (if |permissions| == 0 then 1 else 2) && r.value[0] == WarehouseItem(this)
      ensures r.Success? && |permissions| > 0 ==>
        r.value[1].PermissionsItem?
        && r.value[1].permissions.nameOverride == Some("permissions-" + ResourceName().value)
        && r.value[1].permissions.accessControls == permissions
        && r.value[1].permissions.warehouseId == Some(PulumiResources.Reference(ResourceName().value + ".id"))
        && r.value[1].permissions.workspaceFilePath.None?
        && r.value[1].permissions.dependsOn == []
    {
      if |permissions| == 0 then Success([WarehouseItem(this)])
      else match ResourceName()
        case None => Failure(BaseResources.NoneKeyError)
        case Some(rn) => Success([WarehouseItem(this), PermissionsItem(Child(rn))])
    }

    /** The child is named after the warehouse, and its `warehouse_id`
        refers to exactly the output `<rn>.id` that deploying the
        warehouse records. */
    lemma ChildRefersToWarehouseId(rn: string, h: PulumiResources.Handle)
      requires h.id.Some?
      ensures BaseResources.ResourceName(Child(rn).nameOverride, BaseResources.ResourceTypeId(P.ClassName), None)
        == Some("permissions-" + rn)
      ensures exists k :: k in PulumiResources.HandleOutputs(rn, h) && Child(rn).warehouseId == Some(PulumiResources.Reference(k))
    {
      assert rn + ".id" in PulumiResources.HandleOutputs(rn, h);
    }

    /** The expansion of a warehouse with permissions and the name `rn`, as
        `resources` builds it: the warehouse, then the child. */
    lemma ExpansionWithName(rn: string)
      requires |permissions| > 0 && ResourceName() == Some(rn)
      ensures Expansion() == Success([WarehouseItem(this)] + [PermissionsItem(Child(rn))])
    {
      var w, c := WarehouseItem(this), PermissionsItem(Child(rn));
      assert [w] + [c] == [w, c];
    }

    /** `resources`: computed once and cached in `resources_`. The cache is
        set to `[self]` before the child is named, so an error while naming
        it leaves `[self]` cached. Once the cache is set, `resources` returns
        it unchanged: the expansion is idempotent. */
    method Resources() returns (r: Result<seq<WarehouseResource>, Error>)
      modifies this`cachedResources
      ensures old(cachedResources).Some? ==> r == Success(old(cachedResources).value) && cachedResources == old(cachedResources)
      ensures old(cachedResources).None? ==> r == Expansion()
      ensures old(cachedResources).None? ==> cachedResources == Some(if r.Success? then r.value else [WarehouseItem(this)])
      ensures cachedResources.Some? && (r.Success? ==> r.value == cachedResources.value)
    {
      if cachedResources.None? {
        cachedResources := Some([WarehouseItem(this)]);
        if |permissions| > 0 {
          var rn := ResourceName();
          if rn.None? {
            return Failure(BaseResources.NoneKeyError);
          }
          ExpansionWithName(rn.value);
          cachedResources := Some(cachedResources.value + [PermissionsItem(Child(rn.value))]);
        }
      }
      r := Success(cachedResources.value);
    }

    /** The model dump before exclusions: `settings`, `name`,
        `permissions` and the computed `resource_name`. */
    function Fields(): (f: map<string, Option<Value>>)
      ensures "name" in f && f["name"] == PulumiResources.OptStr(name)
      ensures "permissions" in f && "resource_name" in f
    {
      settings["permissions" := Some(P.PermissionsValue(permissions))]["resource_name" := PulumiResources.OptStr(ResourceName())]["name" := PulumiResources.OptStr(name)]
    }

    /** The warehouse as the deploy loop sees it. */
    function View(): (v: PulumiResources.ResourceView)
      ensures PulumiResources.ResourceName(v) == ResourceName()
      ensures v.key == name && v.className == ClassName && v.pulumiType == PulumiResourceType
      ensures v.fields == Fields() && v.excludes == PulumiExcludes && v.renames == []
    {
      PulumiResources.ResourceView(ClassName, nameOverride, name, Fields(), PulumiExcludes, [], PulumiResourceType)
    }

    /** The effective exclusions leave out `permissions` and
        `resource_name`, and keep `name`. */
    lemma ExcludesPermissions()
      ensures var e := PulumiResources.EffectiveExcludes(PulumiExcludes);
        PulumiResources.Excluded(e, "permissions") && PulumiResources.Excluded(e, "resource_name")
        && !PulumiResources.Excluded(e, "name")
    {
      var e := PulumiResources.EffectiveExcludes(PulumiExcludes);
      assert e.names == ["resource_name", "permissions"];
    }

    /** The properties sent to Pulumi never hold `permissions` (they are
        deployed as their own resource) nor `resource_name`, and hold `name`
        when it is set. */
    lemma PropertiesOmitPermissions(inject: map<string, Value> -> map<string, Value>)
      ensures PulumiResources.Properties(View(), inject).Success?
      ensures var d := PulumiResources.Dump(View().fields, PulumiResources.EffectiveExcludes(View().excludes));
        "permissions" !in d && "resource_name" !in d
        && (name.Some? ==> "name" in d && d["name"] == Str(name.value))
        && PulumiResources.Properties(View(), inject) == Success(inject(d))
    {
      ExcludesPermissions();
      PulumiResources.PropertiesWithoutRenames(View(), inject);
    }

    /** Deploying a warehouse creates the SQL endpoint only: its permissions
        child in `resources` is not part of `all_resources`. */
    lemma DeployCreatesEndpointOnly(b: PulumiResources.Backend, outputs0: map<string, string>, resources0: map<string, PulumiResources.Handle>)
      requires ResourceName().Some?
      ensures var out := PulumiResources.DeploySpec(View(), b, outputs0, resources0);
        out.result.Success? && out.result.value.Keys == {ResourceName().value}
        && out.resources.Keys == resources0.Keys + {ResourceName().value}
    {
      var v := View();
      assert PulumiResources.Properties(v, b.inject).Success?;
      PulumiResources.DeployRegistersOneName(v, b, outputs0, resources0);
    }

    /** The example of the class documentation: a warehouse named `default`
        with permissions expands to `warehouse-default` and
        `permissions-warehouse-default`. */
    lemma DefaultWarehouseExpansion()
      requires name == Some("default") && nameOverride.None? && |permissions| > 0
      ensures ResourceName() == Some("warehouse-default")
      ensures Expansion().Success? && |Expansion().value| == 2
      ensures Expansion().value[1].permissions.nameOverride == Some("permissions-warehouse-default")
      ensures Expansion().value[1].permissions.warehouseId == Some("${resources.warehouse-default.id}")
    {
      ContainsLonger("default", "warehouse");
      DefaultNameText();
      DefaultChildNameText();
      DefaultReferenceText();
    }

    /** `model_pulumi_dump`: the dump `d` of the parent class with
        `channel_name` moved under `channel.name`; `pop` raises `KeyError`
        when `channel_name` is absent. */
    method ModelPulumiDump(d: map<string, Value>) returns (r: Result<map<string, Value>, Error>)
      ensures "channel_name" !in d <==> r == Failure(KeyError("channel_name"))
      ensures r.Success? ==>
        "channel_name" !in r.value && "channel" in r.value
        && r.value["channel"] == Dict(map["name" := d["channel_name"]])
      ensures r.Success? ==> r.value.Keys == d.Keys - {"channel_name"} + {"channel"}
      ensures r.Success? ==> forall k :: k in d && k != "channel_name" && k != "channel" ==> r.value[k] == d[k]
    {
      if "channel_name" !in d {
        return Failure(KeyError("channel_name"));
      }
      var m := d;
      var channelName := m["channel_name"];
      m := m - {"channel_name"};
      m := m["channel" := Dict(map["name" := channelName])];
      r := Success(m);
    }
  }
}
