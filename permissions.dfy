/** `Permissions`: the permission set that the expansion of a warehouse or a
    workspace file adds as a child resource. Only the fields that the
    expansion code fills in are kept. */
module PermissionsResources {
  import opened Wrappers
  import opened Values

  /** One access-control entry (`Permission`), as its field names and
      values; its schema is not part of this model. */
  datatype Permission = Permission(attributes: map<string, string>)

  /** A `Permissions` resource: its `resource_name` override, its
      `access_controls`, the id of the warehouse or the path of the
      workspace file it applies to, and its `options.depends_on`. */
  datatype Permissions = Permissions(
    nameOverride: Option<string>,
    accessControls: seq<Permission>,
    warehouseId: Option<string>,
    workspaceFilePath: Option<string>,
    dependsOn: seq<string>)

  /** Class name of the resource, from which its type id is derived. */
  const ClassName: string := "Permissions"

  /** `pulumi_resource_type`. */
  const PulumiResourceType: string := "databricks:Permissions"

  /** A permission entry as a model dump holds it. */
  function PermissionValue(p: Permission): (r: Value)
    ensures r.Dict? && r.entries.Keys == p.attributes.Keys
    ensures forall k :: k in p.attributes ==> r.entries[k] == Str(p.attributes[k])
  {
    Dict(map k | k in p.attributes :: Str(p.attributes[k]))
  }

  /** A list of permission entries as a model dump holds it. */
  function PermissionsValue(ps: seq<Permission>): (r: Value)
    ensures r.List? && |r.items| == |ps|
    ensures forall i :: 0 <= i < |ps| ==> r.items[i] == PermissionValue(ps[i])
  {
    List(seq(|ps|, i requires 0 <= i < |ps| => PermissionValue(ps[i])))
  }
}
