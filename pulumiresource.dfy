/** `PulumiResource`: how a resource is turned into the property bag of a
    Pulumi resource (exclusions, renames, variable injection), and `deploy`,
    which creates the resources of a model and records their handles and
    outputs in two module-level stores. The Pulumi classes are a backend of
    uninterpreted functions. */
module PulumiResources {
  import opened Wrappers
  import opened Errors
  import opened Values
  import opened Text
  import BaseResources

  /** `base_pulumi_excludes`: fields of every resource that are never sent to
      Pulumi. */
  const BasePulumiExcludes: seq<string> := ["resource_name"]

  /** `pulumi_excludes` comes in two shapes: a list of field names, or a map
      from field names to a flag. */
  datatype Excludes = ExcludeList(names: seq<string>) | ExcludeMap(flags: map<string, bool>)

  /** The field `k` is left out of a dump made with these exclusions: a listed
      name, or a name mapped to `True`. */
  predicate Excluded(e: Excludes, k: string) {
    match e
    case ExcludeList(names) => k in names
    case ExcludeMap(flags) => k in flags && flags[k]
  }

  /** The exclusions actually used by `pulumi_properties`: a list is appended
      to the base list; a map is applied on top of the base names, each
      mapped to `True`, and its entries win. */
  function EffectiveExcludes(sub: Excludes): (r: Excludes)
    ensures r.ExcludeList? <==> sub.ExcludeList?
    ensures sub.ExcludeList? ==>
      |r.names| == |BasePulumiExcludes| + |sub.names|
      && r.names[..|BasePulumiExcludes|] == BasePulumiExcludes
      && r.names[|BasePulumiExcludes|..] == sub.names
    ensures sub.ExcludeMap? ==> r.flags.Keys == sub.flags.Keys + {"resource_name"}
    ensures forall k :: Excluded(r, k) <==>
      if sub.ExcludeMap? && k in sub.flags then sub.flags[k]
      else k in BasePulumiExcludes || Excluded(sub, k)
  {
    match sub
    case ExcludeList(names) => ExcludeList(BasePulumiExcludes + names)
    case ExcludeMap(flags) => ExcludeMap((map k | k in BasePulumiExcludes :: true) + flags)
  }

  /** The base exclusion applies to every resource unless the resource's own
      map explicitly keeps `resource_name`. */
  lemma BaseExcludeApplies(sub: Excludes)
    ensures Excluded(EffectiveExcludes(sub), "resource_name")
      <==> !(sub.ExcludeMap? && "resource_name" in sub.flags && !sub.flags["resource_name"])
  {
  }

  /** A field of the model dump holding an optional string. */
  function OptStr(o: Option<string>): Option<Value> {
    if o.Some? then Some(Str(o.value)) else None
  }

  /** The string `${resources.X}` that refers to the deployed resource or
      output `X`; the expansions write it into their children. */
  function Reference(x: string): (r: string)
    ensures IsPrefix("${resources.", r) && HasSuffix(r, "}")
    ensures |r| == |x| + 13 && r[12..|r| - 1] == x
  {
    "${resources." + x + "}"
  }

  /** `model_dump(exclude=excludes, exclude_none=True)` on the top-level
      fields: a field is kept when it is neither excluded nor `None`. */
  function Dump(fields: map<string, Option<Value>>, e: Excludes): (d: map<string, Value>)
    ensures forall k :: k in d <==> k in fields && fields[k].Some? && !Excluded(e, k)
    ensures forall k :: k in d ==> d[k] == fields[k].value
  {
    map k | k in fields && fields[k].Some? && !Excluded(e, k) :: fields[k].value
  }

  /** `d[v] = d.pop(k)`: the value of `k` moves to `v`. `pop` without a
      default raises `KeyError` when `k` is absent. */
  function RenameOne(d: map<string, Value>, k: string, v: string): (r: Result<map<string, Value>, Error>)
    ensures k !in d <==> r == Failure(KeyError(k))
    ensures r.Success? ==> v in r.value && r.value[v] == d[k]
    ensures r.Success? && k != v ==> k !in r.value
    ensures r.Success? ==> forall j :: j != k && j != v ==>
      (j in r.value <==> j in d) && (j in d ==> r.value[j] == d[j])
    ensures r.Success? ==> r.value.Keys == d.Keys - {k} + {v}
  {
    if k !in d then Failure(KeyError(k)) else Success((d - {k})[v := d[k]])
  }

  /** Renaming with `k == v` leaves the dump as it was. */
  lemma RenameToItself(d: map<string, Value>, k: string)
    requires k in d
    ensures RenameOne(d, k, k) == Success(d)
  {
    assert (d - {k})[k := d[k]] == d;
  }

  /** The renames applied one after another, in the order of
      `pulumi_renames`; the first missing key stops the loop. The only
      error is the `KeyError` of a key to rename. */
  function Renamed(d: map<string, Value>, renames: seq<(string, string)>): (r: Result<map<string, Value>, Error>)
    ensures r.Failure? ==> r.error.KeyError? && exists i :: 0 <= i < |renames| && r.error.key == renames[i].0
    decreases |renames|
  {
    if renames == [] then Success(d)
    else match RenameOne(d, renames[0].0, renames[0].1)
      case Failure(e) => Failure(e)
      case Success(d1) =>
        var rest := renames[1..];
        assert forall i :: 0 <= i < |rest| ==> rest[i] == renames[i + 1];
        Renamed(d1, rest)
  }

  /** The renames succeed when every key to rename is present and no key is
      renamed twice; a field that is neither renamed nor a rename target
      keeps its value. */
  lemma {:induction false} RenamedSucceeds(d: map<string, Value>, renames: seq<(string, string)>)
    requires forall i :: 0 <= i < |renames| ==> renames[i].0 in d
    requires forall i, j :: 0 <= i < j < |renames| ==> renames[i].0 != renames[j].0
    ensures Renamed(d, renames).Success?
    ensures forall f :: f in d && (forall i :: 0 <= i < |renames| ==> f != renames[i].0 && f != renames[i].1) ==>
      f in Renamed(d, renames).value && Renamed(d, renames).value[f] == d[f]
    decreases |renames|
  {
    if renames != [] {
      var k, v := renames[0].0, renames[0].1;
      var d1 := RenameOne(d, k, v).value;
      var rest := renames[1..];
      forall i | 0 <= i < |rest|
        ensures rest[i].0 in d1
      {
        assert rest[i] == renames[i + 1];
      }
      forall i, j | 0 <= i < j < |rest|
        ensures rest[i].0 != rest[j].0
      {
        assert rest[i] == renames[i + 1] && rest[j] == renames[j + 1];
      }
      RenamedSucceeds(d1, rest);
      forall f | f in d && (forall i :: 0 <= i < |renames| ==> f != renames[i].0 && f != renames[i].1)
        ensures f in Renamed(d, renames).value && Renamed(d, renames).value[f] == d[f]
      {
        assert f != k && f != v;
        forall i | 0 <= i < |rest|
          ensures f != rest[i].0 && f != rest[i].1
        {
          assert rest[i] == renames[i + 1];
        }
      }
    }
  }

  /** A `PulumiResource` instance as the resource layer sees it: the class
      name, the `resource_name` override, the resource key, the model dump
      before exclusions (field name to value, `None` as `None`), its
      exclusions and renames, and its Pulumi resource type. */
  datatype ResourceView = ResourceView(
    className: string,
    nameOverride: Option<string>,
    key: Option<string>,
    fields: map<string, Option<Value>>,
    excludes: Excludes,
    renames: seq<(string, string)>,
    pulumiType: string)

  /** `resource_name` of the resource; `None` when it raises because the key
      is `None`. */
  function ResourceName(v: ResourceView): Option<string> {
    BaseResources.ResourceName(v.nameOverride, BaseResources.ResourceTypeId(v.className), v.key)
  }

  /** `all_resources`: the resource itself. */
  function AllResources(v: ResourceView): (r: seq<ResourceView>)
    ensures |r| == 1 && r[0] == v
  {
    [v]
  }

  /** `pulumi_properties`: the dump without exclusions and `None` values,
      renamed, then with variables injected by `inject`. */
  function Properties(v: ResourceView, inject: map<string, Value> -> map<string, Value>): (r: Result<map<string, Value>, Error>)
    ensures r.Failure? ==> r.error.KeyError? && exists i :: 0 <= i < |v.renames| && r.error.key == v.renames[i].0
    ensures v.renames == [] ==> r.Success?
  {
    match Renamed(Dump(v.fields, EffectiveExcludes(v.excludes)), v.renames)
    case Failure(e) => Failure(e)
    case Success(d) => Success(inject(d))
  }

  /** `pulumi_properties` as the source computes it: the dump, then one
      `pop` and assignment per rename. */
  method PulumiProperties(v: ResourceView, inject: map<string, Value> -> map<string, Value>)
    returns (r: Result<map<string, Value>, Error>)
    ensures r == Properties(v, inject)
  {
    var excludes := EffectiveExcludes(v.excludes);
    var d := Dump(v.fields, excludes);
    var i := 0;
    while i < |v.renames|
      invariant 0 <= i <= |v.renames|
      invariant Renamed(Dump(v.fields, excludes), v.renames) == Renamed(d, v.renames[i..])
    {
      var k, name := v.renames[i].0, v.renames[i].1;
      assert v.renames[i..][1..] == v.renames[i + 1..];
      if k !in d {
        return Failure(KeyError(k));
      }
      var value := d[k];
      d := d - {k};
      d := d[name := value];
      i := i + 1;
    }
    return Success(inject(d));
  }

  /** Without renames, the properties are the injected dump, which never
      holds an excluded field or a `None` value. */
  lemma PropertiesWithoutRenames(v: ResourceView, inject: map<string, Value> -> map<string, Value>)
    requires v.renames == []
    ensures Properties(v, inject) == Success(inject(Dump(v.fields, EffectiveExcludes(v.excludes))))
    ensures forall k :: k in Dump(v.fields, EffectiveExcludes(v.excludes)) ==>
      k in v.fields && v.fields[k].Some? && !Excluded(EffectiveExcludes(v.excludes), k)
  {
  }

  /** `"laktory:{provider}:{class name without 'Pulumi'}"` with the provider
      fixed to `databricks`. */
  function ComponentType(className: string): (r: string)
    ensures IsPrefix("laktory:databricks:", r)
    ensures |r| <= |"laktory:databricks:"| + |className|
    ensures !Contains(className, "Pulumi") ==> r == "laktory:databricks:" + className
  {
    "laktory:databricks:" + RemoveAll(className, "Pulumi")
  }

  /** What a Pulumi constructor returns: a handle with an optional `id` and
      an optional `object_id` attribute. */
  datatype Handle = Handle(urn: string, id: Option<string>, objectId: Option<string>)

  /** The Pulumi side: the component constructor (type, name), the resource
      constructor of a Pulumi type (type, name, properties, parent),
      `inject_vars` and `resolve_vars`. */
  datatype Backend = Backend(
    component: (string, string) -> Handle,
    create: (string, string, map<string, Value>, Handle) -> Handle,
    inject: map<string, Value> -> map<string, Value>,
    resolve: map<string, Value> -> map<string, Value>)

  /** The outputs recorded for one created resource: `"{name}.id"` and
      `"{name}.object_id"`, each only when the handle has that attribute. */
  function HandleOutputs(name: string, h: Handle): (r: map<string, string>)
    ensures forall k :: k in r <==>
      (k == name + ".id" && h.id.Some?) || (k == name + ".object_id" && h.objectId.Some?)
    ensures name + ".id" in r ==> r[name + ".id"] == h.id.value
    ensures name + ".object_id" in r ==> r[name + ".object_id"] == h.objectId.value
  {
    assert name + ".id" != name + ".object_id" by {
      assert (name + ".id")[|name| + 1] == 'i';
      assert (name + ".object_id")[|name| + 1] == 'o';
    }
    (if h.id.Some? then map[name + ".id" := h.id.value] else map[])
    + (if h.objectId.Some? then map[name + ".object_id" := h.objectId.value] else map[])
  }

  /** The state of the loop of `deploy`: the resources created so far (the
      resource's own `_pulumi_resources`), the module-level output store, and
      the error that stopped the loop, if any. */
  datatype RunState = RunState(local: map<string, Handle>, outputs: map<string, string>, failure: Option<Error>)

  /** One iteration of the loop of `deploy`: it succeeds exactly when the
      properties and the name of the resource can be computed, and then
      stores one handle under that name; a failing iteration changes
      nothing. No output is ever removed. */
  function CreateStep(st: RunState, r: ResourceView, parent: Handle, b: Backend): (st1: RunState)
    requires st.failure.None?
    ensures st1.failure.None? <==> Properties(r, b.inject).Success? && ResourceName(r).Some?
    ensures st1.failure.Some? ==> st1.local == st.local && st1.outputs == st.outputs
    ensures st1.failure.None? ==> st1.local.Keys == st.local.Keys + {ResourceName(r).value}
    ensures st.outputs.Keys <= st1.outputs.Keys
  {
    match Properties(r, b.inject)
    case Failure(e) => st.(failure := Some(e))
    case Success(props) =>
      match ResourceName(r)
      case None => st.(failure := Some(BaseResources.NoneKeyError))
      case Some(name) =>
        var h := b.create(r.pulumiType, name, b.resolve(props), parent);
        RunState(st.local[name := h], st.outputs + HandleOutputs(name, h), None)
  }

  /** The loop of `deploy` over `rs`, in order; an error ends it. A loop
      that starts stopped changes nothing, and no handle or output key is
      ever removed. */
  function RunAll(st: RunState, rs: seq<ResourceView>, parent: Handle, b: Backend): (st1: RunState)
    ensures st.failure.Some? ==> st1 == st
    ensures st.local.Keys <= st1.local.Keys && st.outputs.Keys <= st1.outputs.Keys
    decreases |rs|
  {
    if rs == [] || st.failure.Some? then st
    else RunAll(CreateStep(st, rs[0], parent, b), rs[1..], parent, b)
  }

  /** A loop that has no resource left, or has stopped on an error, is done. */
  lemma RunAllDone(st: RunState, rs: seq<ResourceView>, parent: Handle, b: Backend)
    requires rs == [] || st.failure.Some?
    ensures RunAll(st, rs, parent, b) == st
  {
  }

  /** The loop over `all_resources` is one iteration. */
  lemma RunAllSelf(st: RunState, v: ResourceView, parent: Handle, b: Backend)
    requires st.failure.None?
    ensures RunAll(st, AllResources(v), parent, b) == CreateStep(st, v, parent, b)
  {
    assert AllResources(v)[1..] == [];
  }

  /** One successful iteration records the handle under the resource's name
      and adds its outputs. */
  lemma CreateStepSuccess(st: RunState, r: ResourceView, parent: Handle, b: Backend, props: map<string, Value>, name: string)
    requires st.failure.None?
    requires Properties(r, b.inject) == Success(props) && ResourceName(r) == Some(name)
    ensures var h := b.create(r.pulumiType, name, b.resolve(props), parent);
      CreateStep(st, r, parent, b) == RunState(st.local[name := h], st.outputs + HandleOutputs(name, h), None)
  {
  }

  /** Writing the `id` output and then the `object_id` output, each when the
      handle has it, adds exactly the handle's outputs. */
  lemma RecordOutputs(o: map<string, string>, name: string, h: Handle)
    ensures var o1 := if h.id.Some? then o[name + ".id" := h.id.value] else o;
      (if h.objectId.Some? then o1[name + ".object_id" := h.objectId.value] else o1) == o + HandleOutputs(name, h)
  {
  }

  /** The entries of `m` whose keys are in `ks`. */
  function Restrict(m: map<string, Handle>, ks: set<string>): (r: map<string, Handle>)
    ensures r.Keys == m.Keys * ks
    ensures forall k :: k in r ==> r[k] == m[k]
  {
    map k | k in m && k in ks :: m[k]
  }

  /** Copying one more entry of `m` into the store. */
  lemma CopyStep(base: map<string, Handle>, m: map<string, Handle>, done: set<string>, k: string)
    requires k in m
    ensures (base + Restrict(m, done))[k := m[k]] == base + Restrict(m, done + {k})
  {
  }

  /** The loop never removes or changes an output it did not write: every
      output key that is new or changed names an `id` or an `object_id`. */
  lemma {:induction false} RunAllOutputs(st: RunState, rs: seq<ResourceView>, parent: Handle, b: Backend)
    ensures st.outputs.Keys <= RunAll(st, rs, parent, b).outputs.Keys
    ensures forall k :: k in RunAll(st, rs, parent, b).outputs && (k !in st.outputs || RunAll(st, rs, parent, b).outputs[k] != st.outputs[k]) ==>
      HasSuffix(k, ".id") || HasSuffix(k, ".object_id")
    decreases |rs|
  {
    if rs != [] && st.failure.None? {
      var st1 := CreateStep(st, rs[0], parent, b);
      RunAllOutputs(st1, rs[1..], parent, b);
      if st1.failure.None? {
        var name := ResourceName(rs[0]).value;
        var h := b.create(rs[0].pulumiType, name, b.resolve(Properties(rs[0], b.inject).value), parent);
        assert st1.outputs == st.outputs + HandleOutputs(name, h);
        forall k | k in HandleOutputs(name, h)
          ensures HasSuffix(k, ".id") || HasSuffix(k, ".object_id")
        {
          if k == name + ".id" {
            assert k[|k| - 3..] == ".id";
          } else {
            assert k[|k| - 10..] == ".object_id";
          }
        }
      }
    }
  }

  /** Every resource that the loop created successfully has its handle under
      its resource name, and every earlier entry stays keyed. */
  lemma {:induction false} RunAllLocal(st: RunState, rs: seq<ResourceView>, parent: Handle, b: Backend)
    requires RunAll(st, rs, parent, b).failure.None?
    ensures st.failure.None?
    ensures st.local.Keys <= RunAll(st, rs, parent, b).local.Keys
    ensures forall i :: 0 <= i < |rs| ==> ResourceName(rs[i]).Some? && ResourceName(rs[i]).value in RunAll(st, rs, parent, b).local
    decreases |rs|
  {
    if rs != [] {
      var st1 := CreateStep(st, rs[0], parent, b);
      RunAllLocal(st1, rs[1..], parent, b);
      forall i | 1 <= i < |rs|
        ensures ResourceName(rs[i]).Some? && ResourceName(rs[i]).value in RunAll(st, rs, parent, b).local
      {
        assert rs[1..][i - 1] == rs[i];
      }
    }
  }

  /** What `deploy` returns and leaves in the two module-level stores. */
  datatype DeployOutcome = DeployOutcome(
    result: Result<map<string, Handle>, Error>,
    outputs: map<string, string>,
    resources: map<string, Handle>)

  /** `deploy`: the component is created under the resource's name and first
      recorded under that name; then every resource of `all_resources` is
      created with the component as parent. Only when the loop completes are
      the created resources copied to the resource store; outputs recorded
      before an error stay recorded. */
  function DeploySpec(v: ResourceView, b: Backend, outputs0: map<string, string>, resources0: map<string, Handle>): (out: DeployOutcome)
    ensures ResourceName(v).None? ==> out.result == Failure(BaseResources.NoneKeyError) && out.outputs == outputs0
    ensures out.result.Failure? ==> out.resources == resources0
    ensures out.result.Success? ==>
      out.resources.Keys == resources0.Keys + out.result.value.Keys
      && forall k :: k in out.result.value ==> out.resources[k] == out.result.value[k]
    ensures outputs0.Keys <= out.outputs.Keys
  {
    match ResourceName(v)
    case None => DeployOutcome(Failure(BaseResources.NoneKeyError), outputs0, resources0)
    case Some(rn) =>
      var parent := b.component(ComponentType(v.className), rn);
      var st := RunAll(RunState(map[rn := parent], outputs0, None), AllResources(v), parent, b);
      if st.failure.Some? then DeployOutcome(Failure(st.failure.value), st.outputs, resources0)
      else DeployOutcome(Success(st.local), st.outputs, resources0 + st.local)
  }

  /** With `all_resources == [self]`, a successful deploy creates exactly one
      resource: it replaces the component under the resource's name, records
      only that resource's outputs, and adds that one entry to the store. */
  lemma DeployCreatesSelf(v: ResourceView, b: Backend, outputs0: map<string, string>, resources0: map<string, Handle>)
    requires ResourceName(v).Some? && Properties(v, b.inject).Success?
    ensures var rn := ResourceName(v).value;
      var parent := b.component(ComponentType(v.className), rn);
      var h := b.create(v.pulumiType, rn, b.resolve(Properties(v, b.inject).value), parent);
      var out := DeploySpec(v, b, outputs0, resources0);
      out.result == Success(map[rn := h])
      && out.outputs == outputs0 + HandleOutputs(rn, h)
      && out.resources == resources0[rn := h]
  {
    var rn := ResourceName(v).value;
    var parent := b.component(ComponentType(v.className), rn);
    var st0 := RunState(map[rn := parent], outputs0, None);
    var props := Properties(v, b.inject).value;
    var h := b.create(v.pulumiType, rn, b.resolve(props), parent);
    RunAllSelf(st0, v, parent, b);
    CreateStepSuccess(st0, v, parent, b, props, rn);
    ReplaceEntry(resources0, rn, parent, h);
  }

  /** Storing `b` over `a` under `k` leaves only `b`; merging that one entry
      into a store is an update of the store. */
  lemma ReplaceEntry(m: map<string, Handle>, k: string, a: Handle, b: Handle)
    ensures map[k := a][k := b] == map[k := b]
    ensures m + map[k := b] == m[k := b]
  {
  }

  /** A successful deploy returns, and adds to the store, exactly one name:
      the resource's own. */
  lemma DeployRegistersOneName(v: ResourceView, b: Backend, outputs0: map<string, string>, resources0: map<string, Handle>)
    requires ResourceName(v).Some? && Properties(v, b.inject).Success?
    ensures var out := DeploySpec(v, b, outputs0, resources0);
      out.result.Success? && out.result.value.Keys == {ResourceName(v).value}
      && out.resources.Keys == resources0.Keys + {ResourceName(v).value}
  {
    DeployCreatesSelf(v, b, outputs0, resources0);
  }

  /** A deploy that fails leaves the resource store as it was; when it fails
      on the resource name, no output is recorded either. */
  lemma DeployFailureKeepsResources(v: ResourceView, b: Backend, outputs0: map<string, string>, resources0: map<string, Handle>)
    requires DeploySpec(v, b, outputs0, resources0).result.Failure?
    ensures DeploySpec(v, b, outputs0, resources0).resources == resources0
    ensures DeploySpec(v, b, outputs0, resources0).outputs == outputs0
    ensures ResourceName(v).None? || Properties(v, b.inject).Failure?
  {
    var rn := ResourceName(v);
    if rn.Some? {
      var parent := b.component(ComponentType(v.className), rn.value);
      var st0 := RunState(map[rn.value := parent], outputs0, None);
      assert AllResources(v)[1..] == [];
      assert RunAll(st0, AllResources(v), parent, b) == RunAll(CreateStep(st0, v, parent, b), [], parent, b);
    }
  }

  /** The module-level stores `pulumi_outputs` and `pulumi_resources`. */
  class Registry {
    var outputs: map<string, string>
    var resources: map<string, Handle>

    constructor ()
      ensures outputs == map[] && resources == map[]
    {
      outputs := map[];
      resources := map[];
    }

    /** `deploy(opts)`: the returned map is the resource's own
        `_pulumi_resources`. */
    method Deploy(v: ResourceView, b: Backend) returns (r: Result<map<string, Handle>, Error>)
      modifies this
      ensures DeployOutcome(r, outputs, resources) == DeploySpec(v, b, old(outputs), old(resources))
    {
      var name := ResourceName(v);
      if name.None? {
        return Failure(BaseResources.NoneKeyError);
      }
      var rn := name.value;
      var parent := b.component(ComponentType(v.className), rn);
      var local := map[rn := parent];
      var all := AllResources(v);
      var failure: Option<Error> := None;
      var i := 0;
      while i < |all| && failure.None?
        invariant 0 <= i <= |all|
        invariant resources == old(resources)
        invariant RunAll(RunState(map[rn := parent], old(outputs), None), all, parent, b)
          == RunAll(RunState(local, outputs, failure), all[i..], parent, b)
      {
        var res := all[i];
        ghost var st := RunState(local, outputs, failure);
        assert all[i..][1..] == all[i + 1..];
        assert RunAll(st, all[i..], parent, b) == RunAll(CreateStep(st, res, parent, b), all[i + 1..], parent, b);
        var props := PulumiProperties(res, b.inject);
        if props.Failure? {
          failure := Some(props.error);
        } else {
          var resName := ResourceName(res);
          if resName.None? {
            failure := Some(BaseResources.NoneKeyError);
          } else {
            CreateStepSuccess(st, res, parent, b, props.value, resName.value);
            var h := b.create(res.pulumiType, resName.value, b.resolve(props.value), parent);
            RecordOutputs(outputs, resName.value, h);
            local := local[resName.value := h];
            if h.id.Some? {
              outputs := outputs[resName.value + ".id" := h.id.value];
            }
            if h.objectId.Some? {
              outputs := outputs[resName.value + ".object_id" := h.objectId.value];
            }
          }
        }
        i := i + 1;
      }
      RunAllDone(RunState(local, outputs, failure), all[i..], parent, b);
      if failure.Some? {
        return Failure(failure.value);
      }
      SaveResources(local);
      r := Success(local);
    }

    /** The copy of the created resources into `pulumi_resources`, one entry
        at a time; an entry already stored under the same name is
        overwritten. */
    method SaveResources(local: map<string, Handle>)
      modifies this`resources
      ensures resources == old(resources) + local
    {
      var todo := local.Keys;
      while todo != {}
        invariant todo <= local.Keys
        invariant resources == old(resources) + Restrict(local, local.Keys - todo)
        decreases todo
      {
        var k :| k in todo;
        CopyStep(old(resources), local, local.Keys - todo, k);
        assert local.Keys - (todo - {k}) == (local.Keys - todo) + {k};
        resources := resources[k := local[k]];
        todo := todo - {k};
      }
      assert Restrict(local, local.Keys - todo) == local;
    }
  }
}
