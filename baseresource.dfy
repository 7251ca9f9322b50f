/** Resource naming of `BaseResource`: the type id derived from the class
    name, the default name built from the type id and the resource key, and
    the user's override of that name. */
module BaseResources {
  import opened Wrappers
  import opened Errors
  import opened Text

  /** Number of upper-case letters in `s`. */
  function UpperCount(s: string): nat {
    if s == [] then 0 else (if IsUpper(s[0]) then 1 else 0) + UpperCount(s[1..])
  }

  /** `s` holds no upper-case letter. */
  predicate NoUpper(s: string) {
    s == [] || (!IsUpper(s[0]) && NoUpper(s[1..]))
  }

  /** One character after the first: an upper-case letter becomes `-` and its
      lower-case form; every other character is kept. */
  function KebabChar(c: char): string {
    if IsUpper(c) then ['-', LowerChar(c)] else [c]
  }

  /** The class name after its first character, with a `-` inserted before
      every upper-case letter and every letter lower-cased. */
  function KebabTail(s: string): string {
    if s == [] then [] else KebabChar(s[0]) + KebabTail(s[1..])
  }

  /** `re.sub(r"(?<!^)(?=[A-Z])", "-", name).lower()`: CamelCase to kebab-case.
      The look-behind keeps a `-` from being inserted at index 0. */
  function ResourceTypeId(className: string): (r: string)
    ensures |className| > 0 ==> |r| > 0 && r[0] == LowerChar(className[0])
  {
    if className == [] then [] else [LowerChar(className[0])] + KebabTail(className[1..])
  }

  lemma {:induction false} KebabTailLength(s: string)
    ensures |KebabTail(s)| == |s| + UpperCount(s)
  {
    if s != [] {
      KebabTailLength(s[1..]);
    }
  }

  lemma {:induction false} KebabTailNoUpper(s: string)
    ensures forall i :: 0 <= i < |KebabTail(s)| ==> !IsUpper(KebabTail(s)[i])
  {
    if s != [] {
      KebabTailNoUpper(s[1..]);
    }
  }

  lemma KebabCharDropDash(c: char)
    requires c != '-'
    ensures RemoveChar(KebabChar(c), '-') == [LowerChar(c)]
  {
    if IsUpper(c) {
      RemoveCharConcat(['-'], [LowerChar(c)], '-');
      assert ['-'] + [LowerChar(c)] == KebabChar(c);
    }
  }

  lemma {:induction false} KebabTailDropDashes(s: string)
    requires forall i :: 0 <= i < |s| ==> s[i] != '-'
    ensures RemoveChar(KebabTail(s), '-') == Lower(s)
  {
    if s != [] {
      KebabTailDropDashes(s[1..]);
      RemoveCharConcat(KebabChar(s[0]), KebabTail(s[1..]), '-');
      KebabCharDropDash(s[0]);
    }
  }

  /** The type id is as long as the class name plus one `-` for every
      upper-case letter after the first character, and holds no upper-case
      letter. */
  lemma ResourceTypeIdShape(className: string)
    ensures |ResourceTypeId(className)| == |className| + (if className == [] then 0 else UpperCount(className[1..]))
    ensures forall i :: 0 <= i < |ResourceTypeId(className)| ==> !IsUpper(ResourceTypeId(className)[i])
  {
    if className != [] {
      KebabTailLength(className[1..]);
      KebabTailNoUpper(className[1..]);
    }
  }

  /** Taking the inserted dashes back out of the type id of a class name
      without dashes leaves the lower-cased class name. */
  lemma ResourceTypeIdDropDashes(className: string)
    requires forall i :: 0 <= i < |className| ==> className[i] != '-'
    ensures RemoveChar(ResourceTypeId(className), '-') == Lower(className)
  {
    if className != [] {
      var c := className[0];
      KebabTailDropDashes(className[1..]);
      RemoveCharConcat([LowerChar(c)], KebabTail(className[1..]), '-');
    }
  }

  lemma {:induction false} KebabTailOfNoUpper(s: string)
    requires NoUpper(s)
    ensures KebabTail(s) == s
  {
    if s != [] {
      KebabTailOfNoUpper(s[1..]);
    }
  }

  lemma {:induction false} KebabTailConcat(a: string, b: string)
    ensures KebabTail(a + b) == KebabTail(a) + KebabTail(b)
  {
    if a == [] {
      assert a + b == b;
    } else {
      assert (a + b)[1..] == a[1..] + b;
      KebabTailConcat(a[1..], b);
    }
  }

  lemma KebabTailStep(u: char, b: string)
    requires NoUpper(b)
    ensures KebabTail([u] + b) == KebabChar(u) + b
  {
    assert ([u] + b)[1..] == b;
    KebabTailOfNoUpper(b);
  }

  /** One character between two words without upper-case letters. */
  lemma KebabTailOfTwoWords(a: string, u: char, b: string)
    requires NoUpper(a) && NoUpper(b)
    ensures KebabTail(a + ([u] + b)) == a + (KebabChar(u) + b)
  {
    KebabTailOfNoUpper(a);
    KebabTailConcat(a, [u] + b);
    KebabTailStep(u, b);
  }

  /** The type id of a two-word class name. */
  lemma TypeIdOfTwoWords(first: char, a: string, u: char, b: string)
    requires NoUpper(a) && NoUpper(b)
    ensures ResourceTypeId([first] + (a + ([u] + b))) == [LowerChar(first)] + (a + (KebabChar(u) + b))
  {
    var name := [first] + (a + ([u] + b));
    assert name[1..] == a + ([u] + b);
    KebabTailOfTwoWords(a, u, b);
  }

  /** The example of the source's comment: `WorkspaceFile` becomes
      `workspace-file`. */
  lemma TypeIdOfWorkspaceFile()
    ensures ResourceTypeId("WorkspaceFile") == "workspace-file"
  {
    WorkspaceFileWords();
    TypeIdOfTwoWords('W', "orkspace", 'F', "ile");
  }

  lemma WorkspaceFileWords()
    ensures NoUpper("orkspace") && NoUpper("ile")
    ensures "WorkspaceFile" == ['W'] + ("orkspace" + (['F'] + "ile"))
    ensures "workspace-file" == ['w'] + ("orkspace" + ("-f" + "ile"))
  {
  }

  /** `default_resource_name`: `"{type_id}-{key}"`, or the key itself when it
      already holds the type id, so that the name does not stutter. */
  function DefaultResourceName(typeId: string, key: string): (r: string)
    ensures Contains(r, typeId)
    ensures Contains(key, typeId) ==> r == key
    ensures !Contains(key, typeId) ==> IsPrefix(typeId + "-", r) && HasSuffix(r, key) && |r| == |typeId| + 1 + |key|
  {
    if !Contains(key, typeId) then typeId + "-" + key else key
  }

  /** The error `type_id not in key` raises when the key is `None`. */
  const NoneKeyError: Error := TypeError("argument of type 'NoneType' is not iterable")

  /** `resource_name`: a truthy override wins; otherwise the default name,
      which needs a key. A `None` key makes `type_id not in key` raise
      (`None` here). */
  function ResourceName(nameOverride: Option<string>, typeId: string, key: Option<string>): (r: Option<string>)
    ensures Truthy(nameOverride) ==> r == nameOverride
    ensures !Truthy(nameOverride) && key.None? ==> r.None?
    ensures !Truthy(nameOverride) && key.Some? ==> r == Some(DefaultResourceName(typeId, key.value))
    ensures r.Some? && !Truthy(nameOverride) ==> Contains(r.value, typeId)
  {
    if Truthy(nameOverride) then nameOverride
    else if key.Some? then Some(DefaultResourceName(typeId, key.value))
    else None
  }
}
