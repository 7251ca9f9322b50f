/** `WorkspaceFile`: a local file deployed to the Databricks workspace. Its
    workspace path is derived from the local source path when not given, its
    resource key from that path; its `resources` list adds a `Permissions`
    child that depends on the file. */
module WorkspaceFiles {
  import opened Wrappers
  import opened Errors
  import opened Values
  import opened Text
  import BaseResources
  import P = PermissionsResources
  import PulumiResources

  const ClassName: string := "WorkspaceFile"

  /** `pulumi_resource_type`. */
  const PulumiResourceType: string := "databricks:WorkspaceFile"

  /** `pulumi_excludes`. */
  const PulumiExcludes: PulumiResources.Excludes := PulumiResources.ExcludeList(["permissions", "dirpath"])

  /** The folder name that makes a source path map to a workspace path. */
  const Marker: string := "/workspacefiles/"

  const MissingDirpath: string := "A value for `dirpath` must be specified if the source is not in a `workspacefiles` folder"

  /** `os.path.basename`: the text after the last `/`. */
  function Basename(s: string): (r: string)
    ensures HasSuffix(s, r)
    ensures forall i :: 0 <= i < |r| ==> r[i] != '/'
    ensures |r| < |s| ==> s[|s| - |r| - 1] == '/'
  {
    s[LastIndexOf(s, '/') + 1..]
  }

  /** Some character of `p[lo..hi]` is not a dot. */
  predicate HasNonDot(p: string, lo: int, hi: int)
    requires 0 <= lo <= hi <= |p|
  {
    exists j :: lo <= j < hi && p[j] != '.'
  }

  /** `os.path.splitext(p)[0]` on POSIX: the path without the extension
      that starts at the last `.` of the final component, provided that
      component has something other than dots before that `.`. */
  function SplitExtRoot(p: string): (root: string)
    ensures IsPrefix(root, p)
    ensures root != p ==>
      p[|root|] == '.'
      && (forall j :: |root| < j < |p| ==> p[j] != '.' && p[j] != '/')
      && LastIndexOf(p, '/') < |root|
      && HasNonDot(p, LastIndexOf(p, '/') + 1, |root|)
    ensures root == p ==>
      LastIndexOf(p, '.') <= LastIndexOf(p, '/')
      || !HasNonDot(p, LastIndexOf(p, '/') + 1, LastIndexOf(p, '.'))
  {
    var sep := LastIndexOf(p, '/');
    var dot := LastIndexOf(p, '.');
    if dot > sep && HasNonDot(p, sep + 1, dot) then p[..dot] else p
  }

  /** The key of a workspace path: its `splitext` root with every `/`
      replaced by `-`, then one leading `-` removed when there is one. */
  function PathKey(path: string): (key: string)
    ensures forall i :: 0 <= i < |key| ==> key[i] != '/'
    ensures var k := ReplaceChar(SplitExtRoot(path), '/', '-');
      HasSuffix(k, key)
      && (|k| > 0 && k[0] == '-' ==> |key| + 1 == |k|)
      && (!(|k| > 0 && k[0] == '-') ==> key == k)
  {
    var k := ReplaceChar(SplitExtRoot(path), '/', '-');
    if |k| > 0 && k[0] == '-' then k[1..] else k
  }

  /** An element of the `resources` list. */
  datatype WorkspaceFileResource = FileItem(file: WorkspaceFile) | PermissionsItem(permissions: P.Permissions)

  class WorkspaceFile {
    /** `source`: the path of the file on the local file system. */
    const source: string
    /** `dirpath`: the workspace directory to put the file in. */
    const dirpath: Option<string>
    /** `path`: the workspace path of the file. */
    var path: Option<string>
    /** `permissions`. */
    const permissions: seq<P.Permission>
    /** The `resource_name` override. */
    const nameOverride: Option<string>
    /** `resources_`: the cached expansion, `None` until first computed. */
    var cachedResources: Option<seq<WorkspaceFileResource>>

    constructor (source: string, dirpath: Option<string>, path: Option<string>, permissions: seq<P.Permission>, nameOverride: Option<string>)
      ensures this.source == source && this.dirpath == dirpath && this.path == path
      ensures this.permissions == permissions && this.nameOverride == nameOverride
      ensures cachedResources.None?
    {
      this.source := source;
      this.dirpath := dirpath;
      this.path := path;
      this.permissions := permissions;
      this.nameOverride := nameOverride;
      cachedResources := None;
    }

    /** `filename`: the base name of the source. */
    function Filename(): (r: string)
      ensures HasSuffix(source, r)
      ensures forall i :: 0 <= i < |r| ==> r[i] != '/'
      ensures |r| < |source| ==> source[|source| - |r| - 1] == '/'
    {
      Basename(source)
    }

    /** The path the `default_path` validator assigns when none is given. */
    function DerivedPath(): (r: Result<string, Error>)
      ensures Truthy(dirpath) ==> r == Success(dirpath.value + Filename())
      ensures !Truthy(dirpath) && Contains(source, Marker) ==> r == Success("/" + LastPiece(source, Marker))
      ensures !Truthy(dirpath) && !Contains(source, Marker) ==> r == Failure(ValueError(MissingDirpath))
    {
      if Truthy(dirpath) then Success(dirpath.value + Filename())
      else if Contains(source, Marker) then Success("/" + LastPiece(source, Marker))
      else Failure(ValueError(MissingDirpath))
    }

    /** A path derived from the source is `/` followed by what comes after
        an occurrence of `/workspacefiles/` in the source, and that text
        holds no further `/workspacefiles/`. */
    lemma DerivedPathFromMarker() returns (q: nat)
      requires !Truthy(dirpath) && Contains(source, Marker)
      ensures DerivedPath().Success? && |DerivedPath().value| > 0 && DerivedPath().value[0] == '/'
      ensures |Marker| <= q <= |source| && Occurs(source, Marker, q - |Marker|)
      ensures DerivedPath().value[1..] == source[q..]
      ensures !Contains(DerivedPath().value[1..], Marker)
    {
      q := LastPieceFollowsSeparator(source, Marker);
      LastPieceHasNoSeparator(source, Marker);
    }

    /** The `default_path` validator: an explicit `path` is kept; otherwise
        the derived path is assigned, or validation fails. */
    method DefaultPath() returns (err: Option<Error>)
      modifies this`path
      ensures old(path).Some? ==> path == old(path) && err.None?
      ensures old(path).None? && DerivedPath().Success? ==> path == Some(DerivedPath().value) && err.None?
      ensures old(path).None? && DerivedPath().Failure? ==> path.None? && err == Some(DerivedPath().error)
    {
      err := None;
      if path.None? {
        if Truthy(dirpath) {
          path := Some(dirpath.value + Filename());
        } else if Contains(source, Marker) {
          path := Some("/" + LastPiece(source, Marker));
        } else {
          err := Some(ValueError(MissingDirpath));
        }
      }
    }

    /** `resource_key`; `None` for a `None` path, on which `splitext`
        raises. */
    function ResourceKey(): (r: Option<string>)
      reads this`path
      ensures r.Some? <==> path.Some?
      ensures r.Some? ==> r.value == PathKey(path.value)
    {
      if path.Some? then Some(PathKey(path.value)) else None
    }

    /** `resource_name`, keyed by the resource key. */
    function ResourceName(): (r: Option<string>)
      reads this`path
      ensures Truthy(nameOverride) ==> r == nameOverride
      ensures !Truthy(nameOverride) ==> (r.Some? <==> path.Some?)
      ensures r.Some? && !Truthy(nameOverride) ==>
        r.value == BaseResources.DefaultResourceName("workspace-file", PathKey(path.value))
    {
      BaseResources.TypeIdOfWorkspaceFile();
      BaseResources.ResourceName(nameOverride, BaseResources.ResourceTypeId(ClassName), ResourceKey())
    }

    /** The `Permissions` child for the resource name `rn`: its own resource
        name is `permissions-<rn>`, it carries the file's permissions and
        path, and its one dependency refers to the resource `rn`. */
    function Child(rn: string): (c: P.Permissions)
      reads this`path
      ensures BaseResources.ResourceName(c.nameOverride, BaseResources.ResourceTypeId(P.ClassName), None)
        == Some("permissions-" + rn)
      ensures c.accessControls == permissions && c.workspaceFilePath == path && c.warehouseId.None?
      ensures c.dependsOn == [PulumiResources.Reference(rn)]
    {
      P.Permissions(Some("permissions-" + rn), permissions, None, path, [PulumiResources.Reference(rn)])
    }

    /** What `resources` computes on first use: the file, followed by the
        permissions child when `permissions` is not empty. The child applies
        to the file's path and depends on the file. */
    function Expansion(): (r: Result<seq<WorkspaceFileResource>, Error>)
      reads this`path
      ensures r.Failure? <==> |permissions| > 0 && ResourceName().None?
      ensures r.Failure? ==> r.error == BaseResources.NoneKeyError
      ensures r.Success? ==> |r.value| == (if |permissions| == 0 then 1 else 2) && r.value[0] == FileItem(this)
      ensures r.Success? && |permissions| > 0 ==>
        r.value[1].PermissionsItem?
        && r.value[1].permissions.nameOverride == Some("permissions-" + ResourceName().value)
        && r.value[1].permissions.accessControls == permissions
        && r.value[1].permissions.workspaceFilePath == path
        && r.value[1].permissions.warehouseId.None?
        && r.value[1].permissions.dependsOn == [PulumiResources.Reference(ResourceName().value)]
    {
      if |permissions| == 0 then Success([FileItem(this)])
      else match ResourceName()
        case None => Failure(BaseResources.NoneKeyError)
        case Some(rn) => Success([FileItem(this), PermissionsItem(Child(rn))])
    }

    /** Once the path is set, the expansion cannot fail. */
    lemma ExpansionWithPath()
      requires path.Some?
      ensures Expansion().Success?
    {
    }

    /** The expansion of a file with permissions and the name `rn`, as
        `resources` builds it: the file, then the child. */
    lemma ExpansionWithName(rn: string)
      requires |permissions| > 0 && ResourceName() == Some(rn)
      ensures Expansion() == Success([FileItem(this)] + [PermissionsItem(Child(rn))])
    {
      var f, c := FileItem(this), PermissionsItem(Child(rn));
      assert [f] + [c] == [f, c];
    }

    /** `resources`: computed once and cached in `resources_`; once the cache
        is set, it is returned unchanged. */
    method Resources() returns (r: Result<seq<WorkspaceFileResource>, Error>)
      modifies this`cachedResources
      ensures old(cachedResources).Some? ==> r == Success(old(cachedResources).value) && cachedResources == old(cachedResources)
      ensures old(cachedResources).None? ==> r == Expansion()
      ensures old(cachedResources).None? ==> cachedResources == Some(if r.Success? then r.value else [FileItem(this)])
      ensures cachedResources.Some? && (r.Success? ==> r.value == cachedResources.value)
    {
      if cachedResources.None? {
        cachedResources := Some([FileItem(this)]);
        if |permissions| > 0 {
          var rn := ResourceName();
          if rn.None? {
            return Failure(BaseResources.NoneKeyError);
          }
          ExpansionWithName(rn.value);
          cachedResources := Some(cachedResources.value + [PermissionsItem(Child(rn.value))]);
        }
      }
      r := Success(cachedResources.value);
    }

    /** The model dump before exclusions: `source`, `dirpath`, `path`,
        `permissions` and the computed `resource_name`. */
    function Fields(): (f: map<string, Option<Value>>)
      reads this`path
      ensures "source" in f && f["source"] == Some(Str(source))
      ensures "path" in f && f["path"] == PulumiResources.OptStr(path)
      ensures "dirpath" in f && "permissions" in f && "resource_name" in f
    {
      map["permissions" := Some(P.PermissionsValue(permissions)), "resource_name" := PulumiResources.OptStr(ResourceName()),
        "dirpath" := PulumiResources.OptStr(dirpath)]["path" := PulumiResources.OptStr(path)]["source" := Some(Str(source))]
    }

    /** The file as the deploy loop sees it. */
    function View(): (v: PulumiResources.ResourceView)
      reads this`path
      ensures PulumiResources.ResourceName(v) == ResourceName()
      ensures v.fields == Fields() && v.excludes == PulumiExcludes && v.renames == []
    {
      PulumiResources.ResourceView(ClassName, nameOverride, ResourceKey(), Fields(), PulumiExcludes, [], PulumiResourceType)
    }

    /** The properties sent to Pulumi hold `source` and the path, and never
        `permissions`, `dirpath` or `resource_name`. */
    lemma PropertiesOmitDirpath(inject: map<string, Value> -> map<string, Value>)
      ensures PulumiResources.Properties(View(), inject).Success?
      ensures var d := PulumiResources.Dump(View().fields, PulumiResources.EffectiveExcludes(View().excludes));
        "permissions" !in d && "dirpath" !in d && "resource_name" !in d
        && "source" in d && d["source"] == Str(source)
        && (path.Some? ==> "path" in d && d["path"] == Str(path.value))
        && PulumiResources.Properties(View(), inject) == Success(inject(d))
    {
      var e := PulumiResources.EffectiveExcludes(PulumiExcludes);
      assert e.names == ["resource_name", "permissions", "dirpath"];
      PulumiResources.PropertiesWithoutRenames(View(), inject);
    }

    /** The child's only dependency refers to the name under which
        deploying the file stores it. */
    lemma ChildDependsOnDeployedFile(b: PulumiResources.Backend, outputs0: map<string, string>, resources0: map<string, PulumiResources.Handle>)
      requires |permissions| > 0 && ResourceName().Some?
      ensures Expansion().Success?
      ensures exists k ::
        k in PulumiResources.DeploySpec(View(), b, outputs0, resources0).resources
        && Expansion().value[1].permissions.dependsOn == [PulumiResources.Reference(k)]
    {
      var v := View();
      PropertiesOmitDirpath(b.inject);
      PulumiResources.DeployRegistersOneName(v, b, outputs0, resources0);
      assert ResourceName().value in PulumiResources.DeploySpec(v, b, outputs0, resources0).resources;
    }
  }
}
