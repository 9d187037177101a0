/**
 * Attribute support and target consistency of module instances: the rules
 * shared by every module-instance record of the framework's metadata model.
 *
 * A static table says, for six attributes and the six module types, whether
 * the attribute applies to instances of that type. Lookups over the table
 * come in a strict form (unknown keys are an error) and an instance form
 * that treats a missing or unrecognized module type as "not supported".
 * Two checks compare the architectures and platforms attached directly to an
 * instance with those reachable through its targets and record `extra` and
 * `missing` errors carrying a rendered set.
 */
module Instance {
  import opened Wrappers
  import opened RubyCollections
  import opened RubyString

  /** A Ruby Symbol naming an attribute. */
  type Symbol = string

  const ACTIONS: Symbol := "actions"
  const ARCHITECTURES: Symbol := "architectures"
  const DESCRIPTION: Symbol := "description"
  const LICENSE: Symbol := "license"
  const MODULE_ARCHITECTURES: Symbol := "module_architectures"
  const MODULE_AUTHORS: Symbol := "module_authors"
  const MODULE_CLASS: Symbol := "module_class"
  const MODULE_PLATFORMS: Symbol := "module_platforms"
  const MODULE_REFERENCES: Symbol := "module_references"
  const NAME: Symbol := "name"
  const PLATFORMS: Symbol := "platforms"
  const PRIVILEGED: Symbol := "privileged"
  const STANCE: Symbol := "stance"
  const TARGETS: Symbol := "targets"

  /** A module type value that is none of the six known module type names. */
  type UnknownTypeName = name: string
    | name != "auxiliary" && name != "encoder" && name != "exploit" && name != "nop" && name != "payload" && name != "post"
    witness ""

  /**
   * The module type a module class holds. The six named types are the known
   * ones; the module type is user-controlled data, so any other value is
   * possible and is represented by `Unrecognized`.
   */
  datatype ModuleType = Aux | Encoder | Exploit | Nop | Payload | Post | Unrecognized(name: UnknownTypeName)

  /** Every known module type, in the order the support table lists them. */
  const ALL_MODULE_TYPES: seq<ModuleType> := [Aux, Encoder, Exploit, Nop, Payload, Post]

  /** Where a module type stands in ALL_MODULE_TYPES; past its end for an unrecognized value. */
  function Position(moduleType: ModuleType): (p: nat)
    ensures p < |ALL_MODULE_TYPES| <==> !moduleType.Unrecognized?
    ensures p < |ALL_MODULE_TYPES| ==> ALL_MODULE_TYPES[p] == moduleType
  {
    match moduleType
    case Aux => 0
    case Encoder => 1
    case Exploit => 2
    case Nop => 3
    case Payload => 4
    case Post => 5
    case Unrecognized(_) => 6
  }

  lemma PositionOfKnownTypes()
    ensures forall k :: 0 <= k < |ALL_MODULE_TYPES| ==> Position(ALL_MODULE_TYPES[k]) == k
  {
  }

  /** Minimum number of module authors. */
  const MINIMUM_MODULE_AUTHORS_LENGTH: nat := 1

  /** A scalar attribute value as Ruby holds it: nil, a Boolean or a String. */
  datatype Value = Nil | Bool(b: bool) | Str(s: string)

  /** The values `privileged` may take. */
  const PRIVILEGES: seq<Value> := [Bool(false), Bool(true)]

  /** The values `stance` may take where the module type supports stances. */
  const STANCES: seq<Value> := [Str("active"), Str("passive")]

  /** The attributes whose support varies with the module type: the keys of the table below. */
  const SUPPORT_VARYING_ATTRIBUTES: seq<Symbol> :=
    [ACTIONS, MODULE_ARCHITECTURES, MODULE_PLATFORMS, MODULE_REFERENCES, STANCE, TARGETS]

  /**
   * Attribute to module type to whether instances of that type support the
   * attribute. Supported attributes should be present and unsupported ones
   * blank.
   */
  const SUPPORT_BY_MODULE_TYPE_BY_ATTRIBUTE: Hash<Symbol, Hash<ModuleType, bool>> := [
    (ACTIONS,
      [(Aux, true), (Encoder, false), (Exploit, false), (Nop, false), (Payload, false), (Post, false)]),
    (MODULE_ARCHITECTURES,
      [(Aux, false), (Encoder, true), (Exploit, true), (Nop, true), (Payload, true), (Post, true)]),
    (MODULE_PLATFORMS,
      [(Aux, false), (Encoder, false), (Exploit, true), (Nop, false), (Payload, true), (Post, true)]),
    (MODULE_REFERENCES,
      [(Aux, true), (Encoder, false), (Exploit, true), (Nop, false), (Payload, false), (Post, true)]),
    (STANCE,
      [(Aux, true), (Encoder, false), (Exploit, true), (Nop, false), (Payload, false), (Post, false)]),
    (TARGETS,
      [(Aux, false), (Encoder, false), (Exploit, true), (Nop, false), (Payload, false), (Post, false)])
  ]

  /**
   * The table is total and has no repeated keys: its rows are the six
   * support-varying attributes, and every row has exactly one entry per known
   * module type, in the order of ALL_MODULE_TYPES.
   */
  lemma SupportTableShape()
    ensures |SUPPORT_BY_MODULE_TYPE_BY_ATTRIBUTE| == |SUPPORT_VARYING_ATTRIBUTES|
    ensures forall i :: 0 <= i < |SUPPORT_BY_MODULE_TYPE_BY_ATTRIBUTE| ==>
      SUPPORT_BY_MODULE_TYPE_BY_ATTRIBUTE[i].0 == SUPPORT_VARYING_ATTRIBUTES[i]
    ensures UniqueKeys(SUPPORT_BY_MODULE_TYPE_BY_ATTRIBUTE)
    ensures forall i, j :: 0 <= i < |SUPPORT_BY_MODULE_TYPE_BY_ATTRIBUTE| && 0 <= j < |ALL_MODULE_TYPES| ==>
      |SUPPORT_BY_MODULE_TYPE_BY_ATTRIBUTE[i].1| == |ALL_MODULE_TYPES| &&
      SUPPORT_BY_MODULE_TYPE_BY_ATTRIBUTE[i].1[j].0 == ALL_MODULE_TYPES[j]
    ensures forall i :: 0 <= i < |SUPPORT_BY_MODULE_TYPE_BY_ATTRIBUTE| ==>
      |SUPPORT_BY_MODULE_TYPE_BY_ATTRIBUTE[i].1| == |ALL_MODULE_TYPES| &&
      UniqueKeys(SUPPORT_BY_MODULE_TYPE_BY_ATTRIBUTE[i].1)
  {
  }

  /** The table's keys are exactly the support-varying attributes, in order, each once. */
  lemma SupportTableKeys()
    ensures |SUPPORT_BY_MODULE_TYPE_BY_ATTRIBUTE| == |SUPPORT_VARYING_ATTRIBUTES|
    ensures forall i :: 0 <= i < |SUPPORT_BY_MODULE_TYPE_BY_ATTRIBUTE| ==>
      SUPPORT_BY_MODULE_TYPE_BY_ATTRIBUTE[i].0 == SUPPORT_VARYING_ATTRIBUTES[i]
    ensures forall a :: a in SUPPORT_VARYING_ATTRIBUTES <==> Fetch(SUPPORT_BY_MODULE_TYPE_BY_ATTRIBUTE, a).Some?
  {
    SupportTableShape();
  }

  /** A row fetched from the table lists the known module types, each once, in order. */
  lemma SupportRowShape(attribute: Symbol, row: Hash<ModuleType, bool>)
    requires Fetch(SUPPORT_BY_MODULE_TYPE_BY_ATTRIBUTE, attribute) == Some(row)
    ensures |row| == |ALL_MODULE_TYPES|
    ensures forall k :: 0 <= k < |row| ==> row[k].0 == ALL_MODULE_TYPES[k]
    ensures UniqueKeys(row)
  {
    SupportTableShape();
  }

  /** A row keyed by the known module types finds exactly the recognized ones. */
  lemma RowFetchesKnownTypes(row: Hash<ModuleType, bool>, moduleType: ModuleType)
    requires |row| == |ALL_MODULE_TYPES|
    requires forall k :: 0 <= k < |row| ==> row[k].0 == ALL_MODULE_TYPES[k]
    ensures Fetch(row, moduleType).None? <==> moduleType.Unrecognized?
  {
    if !moduleType.Unrecognized? {
      assert row[Position(moduleType)].0 == moduleType;
    }
  }

  /** `fetch` raises KeyError naming the key that is absent. */
  datatype KeyError = UnknownAttribute(attribute: Symbol) | UnknownModuleType(moduleType: ModuleType)

  /**
   * `module_type_supports?`: the table entry for `attribute` and
   * `moduleType`, or the KeyError of an attribute that is not support-varying
   * (checked first) or of an unrecognized module type.
   */
  function ModuleTypeSupports(moduleType: ModuleType, attribute: Symbol): (r: Result<bool, KeyError>)
    ensures attribute !in SUPPORT_VARYING_ATTRIBUTES ==> r == Failure(UnknownAttribute(attribute))
    ensures attribute in SUPPORT_VARYING_ATTRIBUTES && moduleType.Unrecognized? ==>
      r == Failure(UnknownModuleType(moduleType))
    ensures r.Success? <==> attribute in SUPPORT_VARYING_ATTRIBUTES && !moduleType.Unrecognized?
    ensures r.Success? ==> exists i, j ::
      0 <= i < |SUPPORT_BY_MODULE_TYPE_BY_ATTRIBUTE| && 0 <= j < |SUPPORT_BY_MODULE_TYPE_BY_ATTRIBUTE[i].1| &&
      SUPPORT_BY_MODULE_TYPE_BY_ATTRIBUTE[i].0 == attribute &&
      SUPPORT_BY_MODULE_TYPE_BY_ATTRIBUTE[i].1[j] == (moduleType, r.value)
  {
    SupportTableKeys();
    match Fetch(SUPPORT_BY_MODULE_TYPE_BY_ATTRIBUTE, attribute)
    case None => Failure(UnknownAttribute(attribute))
    case Some(supportByModuleType) =>
      SupportRowShape(attribute, supportByModuleType);
      RowFetchesKnownTypes(supportByModuleType, moduleType);
      match Fetch(supportByModuleType, moduleType)
      case None => Failure(UnknownModuleType(moduleType))
      case Some(supported) => Success(supported)
  }

  /** The row fetched for targets is the table's last. */
  lemma TargetsRow()
    ensures Fetch(SUPPORT_BY_MODULE_TYPE_BY_ATTRIBUTE, TARGETS) == Some(SUPPORT_BY_MODULE_TYPE_BY_ATTRIBUTE[5].1)
  {
    SupportTableShape();
    FetchEntry(SUPPORT_BY_MODULE_TYPE_BY_ATTRIBUTE, 5);
  }

  /** Targets are an exploit-only attribute. */
  lemma TargetsOnlyForExploit()
    ensures forall t :: ModuleTypeSupports(t, TARGETS).Success? <==> t in ALL_MODULE_TYPES
    ensures forall t :: ModuleTypeSupports(t, TARGETS) == Success(true) <==> t == Exploit
  {
    var row := SUPPORT_BY_MODULE_TYPE_BY_ATTRIBUTE[5].1;
    assert SUPPORT_BY_MODULE_TYPE_BY_ATTRIBUTE[5].0 == TARGETS;
    assert row == [(Aux, false), (Encoder, false), (Exploit, true), (Nop, false), (Payload, false), (Post, false)];
    TargetsRow();
    forall t ensures ModuleTypeSupports(t, TARGETS).Success? <==> t in ALL_MODULE_TYPES {
      if !t.Unrecognized? {
        assert ALL_MODULE_TYPES[Position(t)] == t;
      }
    }
    forall t ensures ModuleTypeSupports(t, TARGETS) == Success(true) <==> t == Exploit {
      SupportedInRow(TARGETS, row, t);
      if t == Exploit {
        assert row[2] == (t, true);
      }
    }
  }

  /** A module type supports an attribute exactly when the attribute's row has a true entry for it. */
  lemma SupportedInRow(attribute: Symbol, row: Hash<ModuleType, bool>, t: ModuleType)
    requires Fetch(SUPPORT_BY_MODULE_TYPE_BY_ATTRIBUTE, attribute) == Some(row)
    ensures ModuleTypeSupports(t, attribute) == Success(true) <==> exists k :: 0 <= k < |row| && row[k] == (t, true)
  {
    SupportRowShape(attribute, row);
    if k :| 0 <= k < |row| && row[k] == (t, true) {
      FetchEntry(row, k);
    }
  }

  /**
   * `module_types_that_support`: the module types whose table entry for
   * `attribute` is true, each once and in table order.
   */
  method ModuleTypesThatSupport(attribute: Symbol) returns (r: Result<seq<ModuleType>, KeyError>)
    ensures r.Failure? <==> attribute !in SUPPORT_VARYING_ATTRIBUTES
    ensures r.Failure? ==> r.error == UnknownAttribute(attribute)
    ensures r.Success? ==> forall t :: t in r.value <==> ModuleTypeSupports(t, attribute) == Success(true)
    ensures r.Success? ==> forall i, j :: 0 <= i < j < |r.value| ==> Position(r.value[i]) < Position(r.value[j])
  {
    var found := Fetch(SUPPORT_BY_MODULE_TYPE_BY_ATTRIBUTE, attribute);
    if found.None? {
      SupportTableKeys();
      return Failure(UnknownAttribute(attribute));
    }
    var supportByModuleType := found.value;
    SupportRowShape(attribute, supportByModuleType);
    PositionOfKnownTypes();
    var moduleTypes := SupportedKeys(supportByModuleType);
    forall t ensures t in moduleTypes <==> ModuleTypeSupports(t, attribute) == Success(true) {
      SupportedInRow(attribute, supportByModuleType, t);
    }
    r := Success(moduleTypes);
  }

  /**
   * The `each_with_object` loop of `module_types_that_support`: the keys
   * whose value is true, in the row's order.
   */
  method SupportedKeys(supportByModuleType: Hash<ModuleType, bool>) returns (moduleTypes: seq<ModuleType>)
    requires forall k :: 0 <= k < |supportByModuleType| ==> Position(supportByModuleType[k].0) == k
    ensures forall t :: t in moduleTypes <==> exists k :: 0 <= k < |supportByModuleType| && supportByModuleType[k] == (t, true)
    ensures forall p, q :: 0 <= p < q < |moduleTypes| ==> Position(moduleTypes[p]) < Position(moduleTypes[q])
  {
    moduleTypes := [];
    var i := 0;
    while i < |supportByModuleType|
      invariant 0 <= i <= |supportByModuleType|
      invariant forall t :: t in moduleTypes <==> exists k :: 0 <= k < i && supportByModuleType[k] == (t, true)
      invariant forall p :: 0 <= p < |moduleTypes| ==> Position(moduleTypes[p]) < i
      invariant forall p, q :: 0 <= p < q < |moduleTypes| ==> Position(moduleTypes[p]) < Position(moduleTypes[q])
    {
      var (moduleType, support) := supportByModuleType[i];
      if support {
        moduleTypes := moduleTypes + [moduleType];
      }
      i := i + 1;
    }
  }

  /** The class-level metadata an instance refers to; only its module type matters here. */
  datatype ModuleClass = ModuleClass(moduleType: ModuleType)

  /**
   * `supports?`: like the strict lookup for the attribute, but false instead
   * of an error when there is no module class or its module type is not in
   * the table. An attribute that is not support-varying is still an error.
   */
  function InstanceSupports(moduleClass: Option<ModuleClass>, attribute: Symbol): (r: Result<bool, KeyError>)
    ensures r.Failure? <==> attribute !in SUPPORT_VARYING_ATTRIBUTES
    ensures r.Failure? ==> r.error == UnknownAttribute(attribute)
    ensures r.Success? ==>
      (r.value <==> moduleClass.Some? && ModuleTypeSupports(moduleClass.value.moduleType, attribute) == Success(true))
  {
    SupportTableKeys();
    match Fetch(SUPPORT_BY_MODULE_TYPE_BY_ATTRIBUTE, attribute)
    case None => Failure(UnknownAttribute(attribute))
    case Some(supportByModuleType) =>
      if moduleClass.None? then Success(false)
      else
        match Fetch(supportByModuleType, moduleClass.value.moduleType)
        case None => Success(false)
        case Some(supported) => Success(supported)
  }

  datatype Architecture = Architecture(abbreviation: string)
  datatype Platform = Platform(fullyQualifiedName: string)
  /** A module target with the architectures and platforms it declares. */
  datatype Target = Target(name: string, targetArchitectures: seq<Architecture>, targetPlatforms: seq<Platform>)
  datatype Action = Action(name: string)
  datatype ModuleAuthor = ModuleAuthor(name: string)
  datatype ModuleReference = ModuleReference(designation: string)

  /** The error kinds the validations add; `Extra` and `Missing` carry the rendered set. */
  datatype ErrorKind =
    | Blank
    | Present
    | TooShort(count: nat)
    | Inclusion
    | Extra(extra: string)
    | Missing(missing: string)

  /** One entry of an ActiveModel error collection: the attribute and the kind of failure. */
  datatype Error = Error(attribute: Symbol, kind: ErrorKind)

  /**
   * `human_set`: the strings sorted, joined with ", " and wrapped in braces.
   * No strings render as "{}" and one string as itself in braces.
   */
  function HumanSet(strings: seq<string>): (r: string)
    ensures |r| >= 2 && r[0] == '{' && r[|r| - 1] == '}'
    ensures strings == [] ==> r == "{}"
    ensures |strings| == 1 ==> r == "{" + strings[0] + "}"
  {
    var sorted := Sort(strings);
    assert |strings| == 1 ==> strings[1..] == [] && sorted == Insert(strings[0], Sort([]));
    "{" + Join(sorted, ", ") + "}"
  }

  function Abbreviation(architecture: Architecture): string
  {
    architecture.abbreviation
  }

  function FullyQualifiedName(platform: Platform): string
  {
    platform.fullyQualifiedName
  }

  /** `human_architecture_set`: the abbreviations of the architectures, rendered by `human_set`. */
  function HumanArchitectureSet(architectures: seq<Architecture>): (r: string)
    ensures architectures == [] ==> r == "{}"
    ensures |architectures| == 1 ==> r == "{" + architectures[0].abbreviation + "}"
  {
    HumanSet(Map(architectures, Abbreviation))
  }

  /** `human_platform_set`: the fully qualified names of the platforms, rendered by `human_set`. */
  function HumanPlatformSet(platforms: seq<Platform>): (r: string)
    ensures platforms == [] ==> r == "{}"
    ensures |platforms| == 1 ==> r == "{" + platforms[0].fullyQualifiedName + "}"
  {
    HumanSet(Map(platforms, FullyQualifiedName))
  }

  /**
   * The rendering is determined by any ascending arrangement of the strings:
   * it is that arrangement joined with ", " inside braces.
   */
  lemma HumanSetOfSorted(strings: seq<string>, sorted: seq<string>)
    requires Sorted(sorted) && multiset(sorted) == multiset(strings)
    ensures HumanSet(strings) == "{" + Join(sorted, ", ") + "}"
  {
    SortedUnique(Sort(strings), sorted);
  }

  /** The rendering does not depend on the order of the strings. */
  lemma HumanSetPermutation(a: seq<string>, b: seq<string>)
    requires multiset(a) == multiset(b)
    ensures HumanSet(a) == HumanSet(b)
  {
    HumanSetOfSorted(b, Sort(a));
  }

  /** Two names render in ascending order, whichever order they come in. */
  lemma HumanSetOfPair(a: string, b: string)
    requires !LessOrEqual(a, b)
    ensures HumanSet([a, b]) == "{" + (b + ", " + a) + "}"
    ensures HumanSet([b, a]) == "{" + (b + ", " + a) + "}"
  {
    LessOrEqualTotal(a, b);
    assert Sorted([b, a]);
    assert multiset([a, b]) == multiset([b, a]);
    HumanSetOfSorted([a, b], [b, a]);
    HumanSetOfSorted([b, a], [b, a]);
    assert [b, a][1..] == [a];
    assert Join([b, a], ", ") == b + ", " + a;
  }

  /** Rendering the names "x64" and "x86" gives "{x64, x86}", whichever order they come in. */
  lemma HumanSetExample()
    ensures HumanSet(["x64", "x86"]) == "{x64, x86}"
    ensures HumanSet(["x86", "x64"]) == "{x64, x86}"
  {
    assert "{" + ("x64" + ", " + "x86") + "}" == "{x64, x86}";
    assert !LessOrEqual("x86", "x64") by {
      assert "x86"[0] == "x64"[0] && "x86"[1..] == "86" && "x64"[1..] == "64";
      assert !LessOrEqual("86", "64") by {
        assert "86"[0] != "64"[0] && "86"[0] > "64"[0];
      }
    }
    HumanSetOfPair("x86", "x64");
  }

  /**
   * A set renders the same whatever order it was built in: two
   * duplicate-free sequences with the same elements render alike.
   */
  lemma HumanNamesOrderIndependent<T>(a: seq<T>, b: seq<T>, name: T -> string)
    requires NoDuplicates(a) && NoDuplicates(b)
    requires forall y :: y in a <==> y in b
    ensures HumanSet(Map(a, name)) == HumanSet(Map(b, name))
  {
    SameElementsPermutation(a, b);
    MapPermutation(a, b, name);
    HumanSetPermutation(Map(a, name), Map(b, name));
  }

  /** `human_architecture_set` gives the same text for any two listings of the same set. */
  lemma HumanArchitectureSetOrderIndependent(a: seq<Architecture>, b: seq<Architecture>)
    requires NoDuplicates(a) && NoDuplicates(b)
    requires forall y :: y in a <==> y in b
    ensures HumanArchitectureSet(a) == HumanArchitectureSet(b)
  {
    HumanNamesOrderIndependent(a, b, Abbreviation);
  }

  /** `human_platform_set` gives the same text for any two listings of the same set. */
  lemma HumanPlatformSetOrderIndependent(a: seq<Platform>, b: seq<Platform>)
    requires NoDuplicates(a) && NoDuplicates(b)
    requires forall y :: y in a <==> y in b
    ensures HumanPlatformSet(a) == HumanPlatformSet(b)
  {
    HumanNamesOrderIndependent(a, b, FullyQualifiedName);
  }

  /** The concatenation of every target's architectures, target by target. */
  function TargetArchitectures(targets: seq<Target>): (r: seq<Architecture>)
    ensures forall a :: a in r <==> exists t :: t in targets && a in t.targetArchitectures
  {
    if targets == [] then []
    else
      var last := targets[|targets| - 1];
      assert targets == targets[..|targets| - 1] + [last];
      TargetArchitectures(targets[..|targets| - 1]) + last.targetArchitectures
  }

  /** The concatenation of every target's platforms, target by target. */
  function TargetPlatforms(targets: seq<Target>): (r: seq<Platform>)
    ensures forall p :: p in r <==> exists t :: t in targets && p in t.targetPlatforms
  {
    if targets == [] then []
    else
      var last := targets[|targets| - 1];
      assert targets == targets[..|targets| - 1] + [last];
      TargetPlatforms(targets[..|targets| - 1]) + last.targetPlatforms
  }


  /**
   * The loop over every target's architectures that collects them, in order of first
   * occurrence, into a Ruby `::Set`.
   */
  method ExpectedArchitectureSet(targets: seq<Target>) returns (expectedArchitectureSet: seq<Architecture>)
    ensures expectedArchitectureSet == SetNew(TargetArchitectures(targets))
  {
    expectedArchitectureSet := [];
    var i := 0;
    while i < |targets|
      invariant 0 <= i <= |targets|
      invariant expectedArchitectureSet == SetNew(TargetArchitectures(targets[..i]))
    {
      ghost var collected := TargetArchitectures(targets[..i]);
      expectedArchitectureSet := AddEach(expectedArchitectureSet, targets[i].targetArchitectures);
      assert targets[..i + 1][..i] == targets[..i];
      AddAllAppend([], collected, targets[i].targetArchitectures);
      i := i + 1;
    }
    assert targets[..i] == targets;
  }

  /**
   * The loop over every target's platforms that collects them, in order of first
   * occurrence, into a Ruby `::Set`.
   */
  method ExpectedPlatformSet(targets: seq<Target>) returns (expectedPlatformSet: seq<Platform>)
    ensures expectedPlatformSet == SetNew(TargetPlatforms(targets))
  {
    expectedPlatformSet := [];
    var i := 0;
    while i < |targets|
      invariant 0 <= i <= |targets|
      invariant expectedPlatformSet == SetNew(TargetPlatforms(targets[..i]))
    {
      ghost var collected := TargetPlatforms(targets[..i]);
      expectedPlatformSet := AddEach(expectedPlatformSet, targets[i].targetPlatforms);
      assert targets[..i + 1][..i] == targets[..i];
      AddAllAppend([], collected, targets[i].targetPlatforms);
      i := i + 1;
    }
    assert targets[..i] == targets;
  }

  /**
   * What one target-consistency check adds: an `extra` error rendering
   * `actual - expected` when that is not empty, then a `missing` error
   * rendering `expected - actual` when that is not empty.
   */
  function CoverageErrors<T(==,!new)>(attribute: Symbol, actual: seq<T>, expected: seq<T>, name: T -> string): (r: seq<Error>)
    ensures forall e :: e in r ==> e.attribute == attribute
  {
    var extra := Difference(actual, expected);
    var missing := Difference(expected, actual);
    (if |extra| == 0 then [] else [Error(attribute, Extra(HumanSet(Map(extra, name))))])
    + (if |missing| == 0 then [] else [Error(attribute, Missing(HumanSet(Map(missing, name))))])
  }

  /**
   * A consistency check reports under its own attribute only; it reports
   * `extra` exactly when some actual element is not expected and `missing`
   * exactly when some expected element is not actual (both may fire), and
   * nothing exactly when the two sets are equal.
   */
  lemma CoverageErrorsSpec<T(!new)>(attribute: Symbol, actual: seq<T>, expected: seq<T>, name: T -> string)
    ensures |CoverageErrors(attribute, actual, expected, name)| <= 2
    ensures (exists e :: e in CoverageErrors(attribute, actual, expected, name) && e.kind.Extra?) <==>
      (exists x :: x in actual && x !in expected)
    ensures (exists e :: e in CoverageErrors(attribute, actual, expected, name) && e.kind.Missing?) <==>
      (exists x :: x in expected && x !in actual)
    ensures CoverageErrors(attribute, actual, expected, name) == [] <==> (forall x :: x in actual <==> x in expected)
  {
    var extra := Difference(actual, expected);
    var missing := Difference(expected, actual);
    var extraErrors := if |extra| == 0 then [] else [Error(attribute, Extra(HumanSet(Map(extra, name))))];
    var missingErrors := if |missing| == 0 then [] else [Error(attribute, Missing(HumanSet(Map(missing, name))))];
    var errors := CoverageErrors(attribute, actual, expected, name);
    assert errors == extraErrors + missingErrors;
    assert forall e :: e in errors <==> e in extraErrors || e in missingErrors;
    assert (exists e :: e in errors && e.kind.Extra?) <==> extraErrors != [] by {
      if extraErrors != [] { assert extraErrors[0] in errors; }
    }
    assert (exists e :: e in errors && e.kind.Missing?) <==> missingErrors != [] by {
      if missingErrors != [] { assert missingErrors[0] in errors; }
    }
    DifferenceEmpty(actual, expected);
    DifferenceEmpty(expected, actual);
  }

  /**
   * The `extra` error renders the set difference itself: any duplicate-free
   * listing of `actual - expected` renders to the text the error carries.
   */
  lemma CoverageExtraRendersDifference<T(!new)>(
    attribute: Symbol, actual: seq<T>, expected: seq<T>, name: T -> string, extra: seq<T>)
    requires NoDuplicates(actual) && NoDuplicates(extra)
    requires extra != []
    requires forall x :: x in extra <==> x in actual && x !in expected
    ensures Error(attribute, Extra(HumanSet(Map(extra, name)))) in CoverageErrors(attribute, actual, expected, name)
  {
    var difference := Difference(actual, expected);
    assert extra[0] in difference;
    HumanNamesOrderIndependent(difference, extra, name);
  }

  /** Likewise the `missing` error renders `expected - actual`. */
  lemma CoverageMissingRendersDifference<T(!new)>(
    attribute: Symbol, actual: seq<T>, expected: seq<T>, name: T -> string, missing: seq<T>)
    requires NoDuplicates(expected) && NoDuplicates(missing)
    requires missing != []
    requires forall x :: x in missing <==> x in expected && x !in actual
    ensures Error(attribute, Missing(HumanSet(Map(missing, name)))) in CoverageErrors(attribute, actual, expected, name)
  {
    var difference := Difference(expected, actual);
    assert missing[0] in difference;
    HumanNamesOrderIndependent(difference, missing, name);
  }

  /**
   * The `support: true` validation: a supported attribute must be present
   * (a non-empty collection), an unsupported one blank (empty).
   */
  function SupportErrors(attribute: Symbol, supported: bool, size: nat): (r: seq<Error>)
    ensures r == [] <==> (supported <==> size > 0)
    ensures forall e :: e in r ==> e.attribute == attribute
  {
    if supported && size == 0 then [Error(attribute, Blank)]
    else if !supported && size > 0 then [Error(attribute, Present)]
    else []
  }

  /** The `presence: true` validation: one `blank` error exactly when the value is blank. */
  function PresenceErrors(attribute: Symbol, blank: bool): (r: seq<Error>)
    ensures r == [] <==> !blank
    ensures |r| <= 1 && forall e :: e in r ==> e == Error(attribute, Blank)
  {
    if blank then [Error(attribute, Blank)] else []
  }

  /**
   * The `length: { minimum: ... }` validation: one `too_short` error carrying
   * the minimum exactly when there are fewer elements than that.
   */
  function LengthErrors(attribute: Symbol, size: nat, minimum: nat): (r: seq<Error>)
    ensures r == [] <==> size >= minimum
    ensures |r| <= 1 && forall e :: e in r ==> e == Error(attribute, TooShort(minimum))
  {
    if size < minimum then [Error(attribute, TooShort(minimum))] else []
  }

  /**
   * The `inclusion: { in: ... }` validation: one `inclusion` error exactly
   * when the value is not one of those allowed. Nil passes only if it is
   * listed, and it is not among PRIVILEGES or STANCES.
   */
  function InclusionErrors(attribute: Symbol, value: Value, allowed: seq<Value>): (r: seq<Error>)
    ensures r == [] <==> value in allowed
    ensures |r| <= 1 && forall e :: e in r ==> e == Error(attribute, Inclusion)
  {
    if value in allowed then [] else [Error(attribute, Inclusion)]
  }

  predicate IsSpace(c: char)
  {
    c == ' ' || c == '\t' || c == '\n' || c == '\r' || c == '\U{000C}' || c == '\U{000B}'
  }

  /** A String attribute is blank when nil or made only of white space. */
  predicate BlankText(text: Option<string>)
  {
    text.None? || forall i :: 0 <= i < |text.value| ==> IsSpace(text.value[i])
  }

  /** A scalar value is blank when nil, `false` or text made only of white space. */
  predicate BlankValue(value: Value)
  {
    match value
    case Nil => true
    case Bool(b) => !b
    case Str(text) => BlankText(Some(text))
  }

  /**
   * One declared validation as ActiveModel keeps it: the two method
   * validations, each run only `if: 'supports?(:targets)'`, and the
   * `validates` options used on single attributes.
   */
  datatype Validation =
    | ArchitecturesMatchTargets
    | PlatformsMatchTargets
    | SupportValidation(attribute: Symbol)
    | PresenceValidation(attribute: Symbol)
    | LengthValidation(attribute: Symbol, minimum: nat)
    | InclusionValidation(attribute: Symbol, allowed: seq<Value>, ifSupported: bool)

  /** The attribute a validation reports its errors on. */
  function ValidationAttribute(validation: Validation): Symbol
  {
    match validation
    case ArchitecturesMatchTargets => ARCHITECTURES
    case PlatformsMatchTargets => PLATFORMS
    case _ => validation.attribute
  }

  /** The validations of a module instance, in declaration order. */
  const VALIDATIONS: seq<Validation> := [
    ArchitecturesMatchTargets,
    PlatformsMatchTargets,
    SupportValidation(ACTIONS),
    PresenceValidation(DESCRIPTION),
    PresenceValidation(LICENSE),
    SupportValidation(MODULE_ARCHITECTURES),
    LengthValidation(MODULE_AUTHORS, MINIMUM_MODULE_AUTHORS_LENGTH),
    PresenceValidation(MODULE_CLASS),
    SupportValidation(MODULE_PLATFORMS),
    SupportValidation(MODULE_REFERENCES),
    PresenceValidation(NAME),
    InclusionValidation(PRIVILEGED, PRIVILEGES, false),
    InclusionValidation(STANCE, STANCES, true),
    SupportValidation(TARGETS)
  ]

  /** The declared validations, position by position. */
  lemma ValidationsInOrder()
    ensures VALIDATIONS[0] == ArchitecturesMatchTargets
    ensures VALIDATIONS[1] == PlatformsMatchTargets
    ensures VALIDATIONS[2] == SupportValidation(ACTIONS)
    ensures VALIDATIONS[3] == PresenceValidation(DESCRIPTION)
    ensures VALIDATIONS[4] == PresenceValidation(LICENSE)
    ensures VALIDATIONS[5] == SupportValidation(MODULE_ARCHITECTURES)
    ensures VALIDATIONS[6] == LengthValidation(MODULE_AUTHORS, MINIMUM_MODULE_AUTHORS_LENGTH)
    ensures VALIDATIONS[7] == PresenceValidation(MODULE_CLASS)
    ensures VALIDATIONS[8] == SupportValidation(MODULE_PLATFORMS)
    ensures VALIDATIONS[9] == SupportValidation(MODULE_REFERENCES)
    ensures VALIDATIONS[10] == PresenceValidation(NAME)
    ensures VALIDATIONS[11] == InclusionValidation(PRIVILEGED, PRIVILEGES, false)
    ensures VALIDATIONS[12] == InclusionValidation(STANCE, STANCES, true)
    ensures VALIDATIONS[13] == SupportValidation(TARGETS)
  {
  }

  /** No two declared validations report on the same attribute. */
  lemma ValidationAttributesDistinct()
    ensures forall i, j :: 0 <= i < j < |VALIDATIONS| ==>
      ValidationAttribute(VALIDATIONS[i]) != ValidationAttribute(VALIDATIONS[j])
  {
  }

  /**
   * The attributes whose `supports?` a validation asks before or while it
   * runs: `targets` for the two method validations, the validated attribute
   * for `support: true` and for an inclusion guarded by `supports?`.
   */
  function SupportLookups(validation: Validation): seq<Symbol>
  {
    match validation
    case ArchitecturesMatchTargets => [TARGETS]
    case PlatformsMatchTargets => [TARGETS]
    case SupportValidation(attribute) => [attribute]
    case InclusionValidation(attribute, _, ifSupported) => if ifSupported then [attribute] else []
    case _ => []
  }

  /**
   * Every `supports?` the declared validations ask is about a support-varying
   * attribute, so none of them raises KeyError, whatever the module class:
   * `valid?` never meets the error path of `supports?`.
   */
  lemma DeclaredSupportLookupsSucceed(moduleClass: Option<ModuleClass>)
    ensures forall v, attribute :: v in VALIDATIONS && attribute in SupportLookups(v) ==>
      attribute in SUPPORT_VARYING_ATTRIBUTES && InstanceSupports(moduleClass, attribute).Success?
  {
    forall v, attribute | v in VALIDATIONS && attribute in SupportLookups(v)
      ensures attribute in SUPPORT_VARYING_ATTRIBUTES
    {
      var k :| 0 <= k < |VALIDATIONS| && VALIDATIONS[k] == v;
      ValidationsInOrder();
      if k <= 1 {
        assert attribute == TARGETS;
      } else if k == 2 || k == 5 || k == 8 || k == 9 || k == 12 || k == 13 {
        assert attribute == v.attribute;
      }
    }
  }

  /** ActiveModel `errors[attribute]`: the errors on `attribute`, in the order they were added. */
  function ErrorsOn(errors: seq<Error>, attribute: Symbol): (r: seq<Error>)
    ensures forall e :: e in r <==> e in errors && e.attribute == attribute
  {
    if errors == [] then []
    else
      var last := |errors| - 1;
      assert errors == errors[..last] + [errors[last]];
      ErrorsOn(errors[..last], attribute) + (if errors[last].attribute == attribute then [errors[last]] else [])
  }

  /**
   * A module instance. Its attributes and associations are loaded from
   * elsewhere and only read here; validation writes `errors`.
   */
  class ModuleInstance {
    var description: Option<string>
    var license: Option<string>
    var name: Option<string>
    var privileged: Value
    var stance: Value
    var moduleClass: Option<ModuleClass>
    var actions: seq<Action>
    /** The architectures of the instance's module_architectures join records. */
    var moduleArchitectures: seq<Architecture>
    var moduleAuthors: seq<ModuleAuthor>
    /** The platforms of the instance's module_platforms join records. */
    var modulePlatforms: seq<Platform>
    var moduleReferences: seq<ModuleReference>
    var targets: seq<Target>
    /** The ActiveModel error collection, in the order errors were added. */
    var errors: seq<Error>

    constructor (
      description: Option<string>, license: Option<string>, name: Option<string>,
      privileged: Value, stance: Value, moduleClass: Option<ModuleClass>,
      actions: seq<Action>, moduleArchitectures: seq<Architecture>, moduleAuthors: seq<ModuleAuthor>,
      modulePlatforms: seq<Platform>, moduleReferences: seq<ModuleReference>, targets: seq<Target>)
      ensures this.description == description && this.license == license && this.name == name
      ensures this.privileged == privileged && this.stance == stance && this.moduleClass == moduleClass
      ensures this.actions == actions && this.moduleArchitectures == moduleArchitectures
      ensures this.moduleAuthors == moduleAuthors && this.modulePlatforms == modulePlatforms
      ensures this.moduleReferences == moduleReferences && this.targets == targets
      ensures errors == []
    {
      this.description := description;
      this.license := license;
      this.name := name;
      this.privileged := privileged;
      this.stance := stance;
      this.moduleClass := moduleClass;
      this.actions := actions;
      this.moduleArchitectures := moduleArchitectures;
      this.moduleAuthors := moduleAuthors;
      this.modulePlatforms := modulePlatforms;
      this.moduleReferences := moduleReferences;
      this.targets := targets;
      this.errors := [];
    }

    /** `supports?`, computed as the source does: default false, overwritten by the table entry if there is one. */
    method Supports(attribute: Symbol) returns (r: Result<bool, KeyError>)
      ensures r == InstanceSupports(moduleClass, attribute)
    {
      var supported := false;
      var found := Fetch(SUPPORT_BY_MODULE_TYPE_BY_ATTRIBUTE, attribute);
      if found.None? {
        return Failure(UnknownAttribute(attribute));
      }
      var supportByModuleType := found.value;
      if moduleClass.Some? {
        var entry := Fetch(supportByModuleType, moduleClass.value.moduleType);
        if entry.Some? {
          supported := entry.value;
        }
      }
      r := Success(supported);
    }

    /** Whether the instance's module type supports `attribute`, for one of the support-varying attributes. */
    predicate SupportsAttribute(attribute: Symbol)
      reads this`moduleClass
    {
      InstanceSupports(moduleClass, attribute) == Success(true)
    }

    /** The errors `architectures_from_targets` adds. */
    function ArchitectureErrors(): seq<Error>
      reads this`moduleArchitectures, this`targets
    {
      CoverageErrors(ARCHITECTURES, SetNew(moduleArchitectures), SetNew(TargetArchitectures(targets)), Abbreviation)
    }

    /** The errors `platforms_from_targets` adds. */
    function PlatformErrors(): seq<Error>
      reads this`modulePlatforms, this`targets
    {
      CoverageErrors(PLATFORMS, SetNew(modulePlatforms), SetNew(TargetPlatforms(targets)), FullyQualifiedName)
    }

    /**
     * `architectures_from_targets`: collects the architectures of every
     * target's target architectures into a set, compares it with the set of
     * the instance's own architectures, and adds an `extra` error rendering
     * the architectures no target declares, then a `missing` error rendering
     * those the instance does not declare.
     */
    method ArchitecturesFromTargets()
      modifies this`errors
      ensures errors == old(errors) + ArchitectureErrors()
    {
      var actualArchitectureSet := SetNew(moduleArchitectures);
      var expectedArchitectureSet := ExpectedArchitectureSet(targets);

      var extraArchitectureSet := Difference(actualArchitectureSet, expectedArchitectureSet);
      if |extraArchitectureSet| != 0 {
        var humanExtraArchitectures := HumanArchitectureSet(extraArchitectureSet);
        errors := errors + [Error(ARCHITECTURES, Extra(humanExtraArchitectures))];
      }
      ghost var extraErrors := errors[|old(errors)|..];
      assert errors == old(errors) + extraErrors;

      var missingArchitectureSet := Difference(expectedArchitectureSet, actualArchitectureSet);
      if |missingArchitectureSet| != 0 {
        var humanMissingArchitectures := HumanArchitectureSet(missingArchitectureSet);
        errors := errors + [Error(ARCHITECTURES, Missing(humanMissingArchitectures))];
      }
      ghost var missingErrors := errors[|old(errors)| + |extraErrors|..];
      assert errors == (old(errors) + extraErrors) + missingErrors;
      AppendAssociative(old(errors), extraErrors, missingErrors);
    }

    /** `platforms_from_targets`: the same check over platforms. */
    method PlatformsFromTargets()
      modifies this`errors
      ensures errors == old(errors) + PlatformErrors()
    {
      var actualPlatformSet := SetNew(modulePlatforms);
      var expectedPlatformSet := ExpectedPlatformSet(targets);

      var extraPlatformSet := Difference(actualPlatformSet, expectedPlatformSet);
      if |extraPlatformSet| != 0 {
        var humanExtraPlatforms := HumanPlatformSet(extraPlatformSet);
        errors := errors + [Error(PLATFORMS, Extra(humanExtraPlatforms))];
      }
      ghost var extraErrors := errors[|old(errors)|..];
      assert errors == old(errors) + extraErrors;

      var missingPlatformSet := Difference(expectedPlatformSet, actualPlatformSet);
      if |missingPlatformSet| != 0 {
        var humanMissingPlatforms := HumanPlatformSet(missingPlatformSet);
        errors := errors + [Error(PLATFORMS, Missing(humanMissingPlatforms))];
      }
      ghost var missingErrors := errors[|old(errors)| + |extraErrors|..];
      assert errors == (old(errors) + extraErrors) + missingErrors;
      AppendAssociative(old(errors), extraErrors, missingErrors);
    }

    /**
     * The size of a collection attribute, as a validator reads it with
     * `read_attribute_for_validation`; zero for any other attribute.
     */
    function Size(attribute: Symbol): nat
      reads this`actions, this`moduleArchitectures, this`moduleAuthors, this`modulePlatforms
      reads this`moduleReferences, this`targets
    {
      if attribute == ACTIONS then |actions|
      else if attribute == MODULE_ARCHITECTURES then |moduleArchitectures|
      else if attribute == MODULE_AUTHORS then |moduleAuthors|
      else if attribute == MODULE_PLATFORMS then |modulePlatforms|
      else if attribute == MODULE_REFERENCES then |moduleReferences|
      else if attribute == TARGETS then |targets|
      else 0
    }

    /** `blank?` of an attribute's value: nil, white-space text or an empty collection. */
    predicate IsBlank(attribute: Symbol): (blank: bool)
      reads this`description, this`license, this`name, this`privileged, this`stance, this`moduleClass
      reads this`actions, this`moduleArchitectures, this`moduleAuthors, this`modulePlatforms
      reads this`moduleReferences, this`targets
      ensures attribute == MODULE_CLASS ==> (blank <==> moduleClass.None?)
      ensures attribute == DESCRIPTION ==> (blank <==> description.None? || forall c :: c in description.value ==> IsSpace(c))
      ensures attribute == LICENSE ==> (blank <==> license.None? || forall c :: c in license.value ==> IsSpace(c))
      ensures attribute == NAME ==> (blank <==> name.None? || forall c :: c in name.value ==> IsSpace(c))
      ensures attribute == PRIVILEGED || attribute == STANCE ==>
        (blank <==>
          ValueOf(attribute) in {Nil, Bool(false)} ||
          (ValueOf(attribute).Str? && forall c :: c in ValueOf(attribute).s ==> IsSpace(c)))
      ensures attribute in [ACTIONS, MODULE_ARCHITECTURES, MODULE_AUTHORS, MODULE_PLATFORMS, MODULE_REFERENCES, TARGETS] ==>
        (blank <==> Size(attribute) == 0)
    {
      if attribute == DESCRIPTION then BlankText(description)
      else if attribute == LICENSE then BlankText(license)
      else if attribute == NAME then BlankText(name)
      else if attribute == MODULE_CLASS then moduleClass.None?
      else if attribute == PRIVILEGED || attribute == STANCE then BlankValue(ValueOf(attribute))
      else Size(attribute) == 0
    }

    /** The value of a scalar attribute; nil for any other attribute. */
    function ValueOf(attribute: Symbol): Value
      reads this`privileged, this`stance
    {
      if attribute == PRIVILEGED then privileged
      else if attribute == STANCE then stance
      else Nil
    }

    /** What running one validation adds to the errors; all of it on the validation's attribute. */
    function ErrorsFrom(validation: Validation): (r: seq<Error>)
      reads this`description, this`license, this`name, this`privileged, this`stance, this`moduleClass
      reads this`actions, this`moduleArchitectures, this`moduleAuthors, this`modulePlatforms
      reads this`moduleReferences, this`targets
      ensures forall e :: e in r ==> e.attribute == ValidationAttribute(validation)
    {
      match validation
      case ArchitecturesMatchTargets =>
        if SupportsAttribute(TARGETS) then ArchitectureErrors() else []
      case PlatformsMatchTargets =>
        if SupportsAttribute(TARGETS) then PlatformErrors() else []
      case SupportValidation(attribute) =>
        SupportErrors(attribute, SupportsAttribute(attribute), Size(attribute))
      case PresenceValidation(attribute) =>
        PresenceErrors(attribute, IsBlank(attribute))
      case LengthValidation(attribute, minimum) =>
        LengthErrors(attribute, Size(attribute), minimum)
      case InclusionValidation(attribute, allowed, ifSupported) =>
        if ifSupported && !SupportsAttribute(attribute) then []
        else InclusionErrors(attribute, ValueOf(attribute), allowed)
    }

    /**
     * What running `validations` in order adds: every error is on the
     * attribute of one of them.
     */
    function ErrorsFromAll(validations: seq<Validation>): (r: seq<Error>)
      reads this`description, this`license, this`name, this`privileged, this`stance, this`moduleClass
      reads this`actions, this`moduleArchitectures, this`moduleAuthors, this`modulePlatforms
      reads this`moduleReferences, this`targets
      ensures forall e :: e in r ==>
        exists i :: 0 <= i < |validations| && e.attribute == ValidationAttribute(validations[i])
      decreases |validations|
    {
      if validations == [] then []
      else
        var last := |validations| - 1;
        var r := ErrorsFromAll(validations[..last]) + ErrorsFrom(validations[last]);
        assert forall e :: e in ErrorsFromAll(validations[..last]) ==>
          exists i :: 0 <= i < last && e.attribute == ValidationAttribute(validations[..last][i]);
        assert forall i :: 0 <= i < last ==> validations[..last][i] == validations[i];
        r
    }

    /** Every error the declared validations add, in declaration order. */
    function ValidationErrors(): seq<Error>
      reads this`description, this`license, this`name, this`privileged, this`stance, this`moduleClass
      reads this`actions, this`moduleArchitectures, this`moduleAuthors, this`modulePlatforms
      reads this`moduleReferences, this`targets
    {
      ErrorsFromAll(VALIDATIONS)
    }

    /**
     * Runs one validation: a method validation calls its check when its
     * condition holds; an attribute validation reads the attribute and adds
     * its error, if any. A `supports?` that fails is read as "not supported";
     * for the declared validations it never fails (DeclaredSupportLookupsSucceed).
     */
    method RunValidation(validation: Validation)
      modifies this`errors
      ensures errors == old(errors) + old(ErrorsFrom(validation))
    {
      match validation
      case ArchitecturesMatchTargets =>
        var targetsSupported := Supports(TARGETS);
        if targetsSupported == Success(true) {
          ArchitecturesFromTargets();
        }
      case PlatformsMatchTargets =>
        var targetsSupported := Supports(TARGETS);
        if targetsSupported == Success(true) {
          PlatformsFromTargets();
        }
      case SupportValidation(attribute) =>
        var supported := Supports(attribute);
        errors := errors + SupportErrors(attribute, supported == Success(true), Size(attribute));
      case PresenceValidation(attribute) =>
        errors := errors + PresenceErrors(attribute, IsBlank(attribute));
      case LengthValidation(attribute, minimum) =>
        errors := errors + LengthErrors(attribute, Size(attribute), minimum);
      case InclusionValidation(attribute, allowed, ifSupported) =>
        var applies := true;
        if ifSupported {
          var supported := Supports(attribute);
          applies := supported == Success(true);
        }
        if applies {
          errors := errors + InclusionErrors(attribute, ValueOf(attribute), allowed);
        }
    }

    /**
     * ActiveModel `valid?`: clears the errors, runs every validation in
     * declaration order, and answers whether none failed.
     */
    method Validate() returns (valid: bool)
      modifies this`errors
      ensures errors == ValidationErrors()
      ensures valid <==> errors == []
    {
      errors := [];
      RunValidations(VALIDATIONS);
      valid := errors == [];
    }

    /** Running one more validation adds its errors behind the earlier ones. */
    lemma ErrorsFromAllStep(validations: seq<Validation>, i: nat)
      requires i < |validations|
      ensures ErrorsFromAll(validations[..i + 1]) == ErrorsFromAll(validations[..i]) + ErrorsFrom(validations[i])
    {
      assert validations[..i + 1][..i] == validations[..i];
    }

    /** Runs `validations` one after another. */
    method RunValidations(validations: seq<Validation>)
      modifies this`errors
      ensures errors == old(errors) + ErrorsFromAll(validations)
    {
      for i := 0 to |validations|
        invariant errors == old(errors) + ErrorsFromAll(validations[..i])
      {
        ghost var done, added := ErrorsFromAll(validations[..i]), ErrorsFrom(validations[i]);
        RunValidation(validations[i]);
        assert done == ErrorsFromAll(validations[..i]) && added == ErrorsFrom(validations[i]);
        ErrorsFromAllStep(validations, i);
        AppendAssociative(old(errors), done, added);
      }
      assert validations[..|validations|] == validations;
    }
  }

  /**
   * Adding errors in two batches or in one gives the same list. A lemma of
   * its own: in the context of the instance class this step is expensive.
   */
  lemma AppendAssociative(a: seq<Error>, b: seq<Error>, c: seq<Error>)
    ensures (a + b) + c == a + (b + c)
  {
  }

  /** `errors[attribute]` of errors added one after another is theirs in turn. */
  lemma {:induction false} ErrorsOnAppend(a: seq<Error>, b: seq<Error>, attribute: Symbol)
    ensures ErrorsOn(a + b, attribute) == ErrorsOn(a, attribute) + ErrorsOn(b, attribute)
    decreases |b|
  {
    if b == [] {
      assert a + b == a;
    } else {
      assert (a + b)[..|a + b| - 1] == a + b[..|b| - 1];
      ErrorsOnAppend(a, b[..|b| - 1], attribute);
    }
  }

  /** Errors that are all on `attribute` are all of `errors[attribute]`. */
  lemma {:induction false} ErrorsOnOwnAttribute(errors: seq<Error>, attribute: Symbol)
    requires forall e :: e in errors ==> e.attribute == attribute
    ensures ErrorsOn(errors, attribute) == errors
    decreases |errors|
  {
    if errors != [] {
      var last := |errors| - 1;
      assert errors == errors[..last] + [errors[last]];
      ErrorsOnOwnAttribute(errors[..last], attribute);
    }
  }

  /** Errors none of which is on `attribute` leave `errors[attribute]` empty. */
  lemma ErrorsOnOtherAttribute(errors: seq<Error>, attribute: Symbol)
    requires forall e :: e in errors ==> e.attribute != attribute
    ensures ErrorsOn(errors, attribute) == []
  {
  }

  /** Validations none of which is on `attribute` add nothing to `errors[attribute]`. */
  lemma NoValidationOnAttribute(instance: ModuleInstance, validations: seq<Validation>, attribute: Symbol)
    requires forall i :: 0 <= i < |validations| ==> ValidationAttribute(validations[i]) != attribute
    ensures ErrorsOn(instance.ErrorsFromAll(validations), attribute) == []
  {
    ErrorsOnOtherAttribute(instance.ErrorsFromAll(validations), attribute);
  }

  /**
   * When a validation is the only one in a list that reports on its
   * attribute, `errors[attribute]` after running the list is exactly what
   * that validation added.
   */
  lemma {:induction false} ErrorsOnSoleValidation(instance: ModuleInstance, validations: seq<Validation>, k: nat)
    requires k < |validations|
    requires forall i :: 0 <= i < |validations| && i != k ==>
      ValidationAttribute(validations[i]) != ValidationAttribute(validations[k])
    ensures ErrorsOn(instance.ErrorsFromAll(validations), ValidationAttribute(validations[k])) ==
      instance.ErrorsFrom(validations[k])
    decreases |validations|
  {
    var last := |validations| - 1;
    var init := validations[..last];
    var attribute := ValidationAttribute(validations[k]);
    var earlier := instance.ErrorsFromAll(init);
    var latest := instance.ErrorsFrom(validations[last]);
    assert instance.ErrorsFromAll(validations) == earlier + latest;
    ErrorsOnAppend(earlier, latest, attribute);
    if k == last {
      assert forall i :: 0 <= i < |init| ==> ValidationAttribute(init[i]) != attribute by {
        forall i | 0 <= i < |init| ensures ValidationAttribute(init[i]) != attribute {
          assert init[i] == validations[i];
        }
      }
      NoValidationOnAttribute(instance, init, attribute);
      ErrorsOnOwnAttribute(latest, attribute);
      assert [] + latest == latest;
    } else {
      assert init[k] == validations[k];
      assert forall i :: 0 <= i < |init| && i != k ==> init[i] == validations[i];
      ErrorsOnSoleValidation(instance, init, k);
      ErrorsOnOtherAttribute(latest, attribute);
      assert ErrorsOn(earlier, attribute) + [] == ErrorsOn(earlier, attribute);
    }
  }

  /**
   * Every declared validation is the only one on its attribute, so after
   * validation `errors[attribute]` is exactly what that validation added.
   */
  lemma ValidationErrorsOn(instance: ModuleInstance, k: nat)
    requires k < |VALIDATIONS|
    ensures ErrorsOn(instance.ValidationErrors(), ValidationAttribute(VALIDATIONS[k])) ==
      instance.ErrorsFrom(VALIDATIONS[k])
  {
    ValidationAttributesDistinct();
    ErrorsOnSoleValidation(instance, VALIDATIONS, k);
  }

  /**
   * The target-consistency checks run only when the module type supports
   * targets: `errors[:architectures]` and `errors[:platforms]` are what the
   * two checks add then, and empty otherwise.
   */
  lemma TargetChecksGated(instance: ModuleInstance)
    ensures ErrorsOn(instance.ValidationErrors(), ARCHITECTURES) ==
      if instance.SupportsAttribute(TARGETS) then instance.ArchitectureErrors() else []
    ensures ErrorsOn(instance.ValidationErrors(), PLATFORMS) ==
      if instance.SupportsAttribute(TARGETS) then instance.PlatformErrors() else []
  {
    ValidationsInOrder();
    ValidationErrorsOn(instance, 0);
    ValidationErrorsOn(instance, 1);
  }

  /** Any inclusion validation in the list decides the errors on its attribute alone. */
  lemma InclusionValidationErrorsOn(instance: ModuleInstance, k: nat)
    requires k < |VALIDATIONS| && VALIDATIONS[k].InclusionValidation?
    ensures var v := VALIDATIONS[k];
      ErrorsOn(instance.ValidationErrors(), v.attribute) ==
      if v.ifSupported && !instance.SupportsAttribute(v.attribute) then []
      else InclusionErrors(v.attribute, instance.ValueOf(v.attribute), v.allowed)
  {
    var v := VALIDATIONS[k];
    assert instance.ErrorsFrom(v) ==
      if v.ifSupported && !instance.SupportsAttribute(v.attribute) then []
      else InclusionErrors(v.attribute, instance.ValueOf(v.attribute), v.allowed);
    ValidationErrorsOn(instance, k);
  }

  /** The stance must be active or passive, and that is checked only when the module type supports stances. */
  lemma StanceGated(instance: ModuleInstance)
    ensures ErrorsOn(instance.ValidationErrors(), STANCE) ==
      if instance.SupportsAttribute(STANCE) && instance.stance !in STANCES then [Error(STANCE, Inclusion)] else []
  {
    ValidationsInOrder();
    InclusionValidationErrorsOn(instance, 12);
    assert instance.ValueOf(STANCE) == instance.stance;
  }

  /** `privileged` must be false or true; nil or any other value is an `inclusion` error. */
  lemma PrivilegedInclusion(instance: ModuleInstance)
    ensures ErrorsOn(instance.ValidationErrors(), PRIVILEGED) ==
      if instance.privileged == Bool(false) || instance.privileged == Bool(true) then []
      else [Error(PRIVILEGED, Inclusion)]
  {
    ValidationsInOrder();
    InclusionValidationErrorsOn(instance, 11);
    assert instance.ValueOf(PRIVILEGED) == instance.privileged;
    assert instance.privileged in PRIVILEGES <==>
      instance.privileged == Bool(false) || instance.privileged == Bool(true);
  }

  /** Any support validation in the list decides the errors on its attribute alone. */
  lemma SupportValidationErrorsOn(instance: ModuleInstance, k: nat)
    requires k < |VALIDATIONS| && VALIDATIONS[k].SupportValidation?
    ensures var attribute := VALIDATIONS[k].attribute;
      ErrorsOn(instance.ValidationErrors(), attribute) == [] <==>
      (instance.SupportsAttribute(attribute) <==> instance.Size(attribute) > 0)
  {
    var attribute := VALIDATIONS[k].attribute;
    assert instance.ErrorsFrom(VALIDATIONS[k]) ==
      SupportErrors(attribute, instance.SupportsAttribute(attribute), instance.Size(attribute));
    ValidationErrorsOn(instance, k);
  }

  /**
   * The support validations: each attribute declared with `support: true`
   * has an error on its own name exactly when "supported" and "non-empty"
   * disagree.
   */
  lemma SupportValidated(instance: ModuleInstance, attribute: Symbol)
    requires SupportValidation(attribute) in VALIDATIONS
    ensures ErrorsOn(instance.ValidationErrors(), attribute) == [] <==>
      (instance.SupportsAttribute(attribute) <==> instance.Size(attribute) > 0)
  {
    var k :| 0 <= k < |VALIDATIONS| && VALIDATIONS[k] == SupportValidation(attribute);
    SupportValidationErrorsOn(instance, k);
  }

  /** Any presence validation in the list decides the errors on its attribute alone. */
  lemma PresenceValidationErrorsOn(instance: ModuleInstance, k: nat)
    requires k < |VALIDATIONS| && VALIDATIONS[k].PresenceValidation?
    ensures var attribute := VALIDATIONS[k].attribute;
      ErrorsOn(instance.ValidationErrors(), attribute) ==
      if instance.IsBlank(attribute) then [Error(attribute, Blank)] else []
  {
    var attribute := VALIDATIONS[k].attribute;
    assert instance.ErrorsFrom(VALIDATIONS[k]) == PresenceErrors(attribute, instance.IsBlank(attribute));
    ValidationErrorsOn(instance, k);
  }

  /** Each attribute declared with `presence: true` has a `blank` error exactly when it is blank. */
  lemma PresenceValidated(instance: ModuleInstance, attribute: Symbol)
    requires PresenceValidation(attribute) in VALIDATIONS
    ensures ErrorsOn(instance.ValidationErrors(), attribute) ==
      if instance.IsBlank(attribute) then [Error(attribute, Blank)] else []
  {
    var k :| 0 <= k < |VALIDATIONS| && VALIDATIONS[k] == PresenceValidation(attribute);
    PresenceValidationErrorsOn(instance, k);
  }

  /** There must be at least MINIMUM_MODULE_AUTHORS_LENGTH module authors. */
  lemma ModuleAuthorsLength(instance: ModuleInstance)
    ensures ErrorsOn(instance.ValidationErrors(), MODULE_AUTHORS) ==
      if |instance.moduleAuthors| < MINIMUM_MODULE_AUTHORS_LENGTH
      then [Error(MODULE_AUTHORS, TooShort(MINIMUM_MODULE_AUTHORS_LENGTH))] else []
  {
    ValidationsInOrder();
    ValidationErrorsOn(instance, 6);
  }

  /**
   * An auxiliary module does not support targets: any target is a `present`
   * error on `targets`, and no target is no error.
   */
  lemma AuxiliaryTargetsBoundary(instance: ModuleInstance)
    requires instance.moduleClass == Some(ModuleClass(Aux))
    ensures ErrorsOn(instance.ValidationErrors(), TARGETS) ==
      if instance.targets == [] then [] else [Error(TARGETS, Present)]
  {
    ValidationsInOrder();
    ValidationErrorsOn(instance, 13);
    assert instance.ErrorsFrom(VALIDATIONS[13]) ==
      SupportErrors(TARGETS, instance.SupportsAttribute(TARGETS), instance.Size(TARGETS));
    TargetsOnlyForExploit();
    SupportTableKeys();
    assert !instance.SupportsAttribute(TARGETS);
  }

  /**
   * One actual element against a different expected one: an `extra` error
   * naming the first, then a `missing` error naming the second.
   */
  lemma CoverageOfDistinctSingletons<T(!new)>(attribute: Symbol, x: T, y: T, name: T -> string)
    requires x != y
    ensures CoverageErrors(attribute, [x], [y], name) ==
      [Error(attribute, Extra("{" + name(x) + "}")), Error(attribute, Missing("{" + name(y) + "}"))]
  {
    assert Difference([x], [y]) == [x];
    assert Difference([y], [x]) == [y];
    assert Map([x], name) == [name(x)] && Map([y], name) == [name(y)];
  }

  /** A single target declaring the single architecture `x86`. */
  lemma SingleTargetArchitectures(target: Target)
    requires target.targetArchitectures == [Architecture("x86")]
    ensures SetNew(TargetArchitectures([target])) == [Architecture("x86")]
  {
    assert [target][..0] == [];
    assert TargetArchitectures([target]) == [Architecture("x86")];
    SetNewSingleton(Architecture("x86"));
  }

  /** x64 declared against targets on x86: one `extra` and one `missing` error. */
  lemma ArchitectureMismatchErrors(instance: ModuleInstance, target: Target)
    requires instance.moduleArchitectures == [Architecture("x64")]
    requires instance.targets == [target]
    requires target.targetArchitectures == [Architecture("x86")]
    ensures instance.ArchitectureErrors() ==
      [Error(ARCHITECTURES, Extra("{x64}")), Error(ARCHITECTURES, Missing("{x86}"))]
  {
    assert "{" + Abbreviation(Architecture("x64")) + "}" == "{x64}";
    assert "{" + Abbreviation(Architecture("x86")) + "}" == "{x86}";
    SingleTargetArchitectures(target);
    SetNewSingleton(Architecture("x64"));
    assert Architecture("x64") != Architecture("x86") by {
      assert "x64"[1] != "x86"[1];
    }
    CoverageOfDistinctSingletons(ARCHITECTURES, Architecture("x64"), Architecture("x86"), Abbreviation);
  }

  /** An exploit instance supports targets. */
  lemma ExploitSupportsTargets(instance: ModuleInstance)
    requires instance.moduleClass == Some(ModuleClass(Exploit))
    ensures instance.SupportsAttribute(TARGETS)
  {
    TargetsOnlyForExploit();
    SupportTableKeys();
  }

  /**
   * An exploit whose only target runs on x86 but that itself declares only
   * x64: validation reports the architectures as `extra` "{x64}" and
   * `missing` "{x86}".
   */
  lemma ArchitectureMismatchExample(instance: ModuleInstance, target: Target)
    requires instance.moduleClass == Some(ModuleClass(Exploit))
    requires instance.moduleArchitectures == [Architecture("x64")]
    requires instance.targets == [target]
    requires target.targetArchitectures == [Architecture("x86")]
    ensures ErrorsOn(instance.ValidationErrors(), ARCHITECTURES) ==
      [Error(ARCHITECTURES, Extra("{x64}")), Error(ARCHITECTURES, Missing("{x86}"))]
  {
    TargetChecksGated(instance);
    ExploitSupportsTargets(instance);
    ArchitectureMismatchErrors(instance, target);
  }
}
