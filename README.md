# Module instance support and target consistency

A model of `Metasploit::Model::Module::Instance`, the behaviour shared by every module-instance record of
the Metasploit metadata model. It covers:

- the static `SUPPORT_BY_MODULE_TYPE_BY_ATTRIBUTE` table, which says for six attributes and the six module
  types (auxiliary, encoder, exploit, nop, payload, post) whether instances of that type carry the
  attribute;
- the three lookups over that table:
  - the strict class method `module_type_supports?`, where an unknown key is a `KeyError`;
  - `module_types_that_support`;
  - the instance method `supports?`, which treats a missing module class or an unrecognized module type
    as "not supported";
- the declared ActiveModel validations, run in declaration order by `valid?`;
- the two target-consistency checks. They compare the architectures and platforms declared on an
  instance with those implied by its targets. Each adds an `extra` and/or a `missing` error, whose
  message is the set difference rendered by `human_set`.

Files:

- `wrappers.dfy`: `Option` and `Result`.
- `ruby_collections.dfy`: the Ruby core behaviour the code relies on:
  - `Hash#fetch` over an insertion-ordered association list;
  - `::Set` as a duplicate-free, insertion-ordered sequence, with `add`, `Set.new` and `-`;
  - `Array#map`.
- `ruby_string.dfy`: `String#<=>` as lexicographic order on characters, `Array#sort` (insertion sort) and
  `Array#join`.
- `instance.dfy`: the table, the lookups, the validations and the target checks.

How the Ruby is modelled:

- A `KeyError` raised by `fetch` is a `Failure` result.
- A module instance is a class. Its attribute and association fields are only read here; validation
  writes its `errors` field, a sequence of `(attribute, kind)` pairs in the order they were added.
- Methods that loop or mutate are proved against specification functions: `ModuleInstance.Validate`
  against `ValidationErrors`, `ArchitecturesFromTargets` against `ArchitectureErrors`, and so on.
- Lemmas then state what the source promises about those functions.

## Model

| member | source | states |
|---|---|---|
| Instance.SupportTableShape | lib/metasploit/model/module/instance.rb:28-77 | the table is total: its keys are the six support-varying attributes, each once, and every row has exactly one entry for each of the six module types, in the order of `Type::ALL` |
| Instance.SupportTableKeys | lib/metasploit/model/module/instance.rb:28-77 | an attribute can be fetched from the table exactly when it is one of the six support-varying attributes |
| Instance.TargetsOnlyForExploit | lib/metasploit/model/module/instance.rb:69-76 | every known module type has an entry for targets, and the entry is true for exploit and for no other type |
| Instance.ModuleTypeSupports | lib/metasploit/model/module/instance.rb:329-332 | strict lookup: an attribute that is not support-varying is a KeyError naming the attribute (checked first); an unrecognized module type is a KeyError naming the type; otherwise the result is the table's own entry for the pair |
| Instance.SupportedInRow | lib/metasploit/model/module/instance.rb:329-332 | the strict lookup answers true exactly when the attribute's row holds a true entry for the module type |
| Instance.ModuleTypesThatSupport | lib/metasploit/model/module/instance.rb:337-345 | an unknown attribute is a KeyError; otherwise the result holds exactly the module types whose strict lookup is true, each once, in table order |
| Instance.SupportedKeys | lib/metasploit/model/module/instance.rb:340-344 | the `each_with_object` loop keeps exactly the keys whose value is true, in strictly increasing table position, so none twice |
| Instance.InstanceSupports | lib/metasploit/model/module/instance.rb:361-374 | `supports?` raises only for an attribute that is not support-varying; otherwise it is true exactly when there is a module class whose type's strict lookup is true, so false for no module class and for an unrecognized type |
| Instance.ModuleInstance.Supports | lib/metasploit/model/module/instance.rb:361-374 | the step-by-step `supports?` (default false, overwritten by the table entry when one exists) computes `InstanceSupports` |
| Instance.ModuleInstance.Validate | lib/metasploit/model/module/instance.rb:146-185 | `valid?` leaves in `errors` exactly the errors of every declared validation, in declaration order, and answers true exactly when there are none |
| Instance.ModuleInstance.RunValidations | lib/metasploit/model/module/instance.rb:146-185 | running validations one after another appends each one's errors after the earlier ones |
| Instance.ModuleInstance.RunValidation | lib/metasploit/model/module/instance.rb:146-185 | running one validation appends exactly the errors it reports for the current attribute values; the two method validations run only when targets are supported |
| Instance.ModuleInstance.ErrorsFrom | lib/metasploit/model/module/instance.rb:146-185 | every error a validation reports is on that validation's own attribute |
| Instance.ModuleInstance.ErrorsFromAll | lib/metasploit/model/module/instance.rb:146-185 | every error of a list of validations is on the attribute of one of them |
| Instance.DeclaredSupportLookupsSucceed | lib/metasploit/model/module/instance.rb:146-185 | every `supports?` that a declared validation asks (`targets` for the two method validations, the attribute of each `support: true` validation and of the stance inclusion) names a support-varying attribute, so for any module class none of them raises |
| Instance.ValidationAttributesDistinct | lib/metasploit/model/module/instance.rb:146-185 | no two declared validations report on the same attribute |
| Instance.ErrorsOnSoleValidation | lib/metasploit/model/module/instance.rb:146-185 | when only one validation in a list reports on an attribute, `errors[attribute]` after the whole list is exactly what that validation reported |
| Instance.ValidationErrorsOn | lib/metasploit/model/module/instance.rb:146-185 | after validation, `errors[attribute]` for any declared validation's attribute is exactly what that validation reported |
| Instance.TargetChecksGated | lib/metasploit/model/module/instance.rb:146-149 | `errors[:architectures]` and `errors[:platforms]` are the target checks' errors when the module type supports targets, and empty otherwise |
| Instance.SupportValidated | lib/metasploit/model/module/instance.rb:155-185 | for each attribute validated with `support: true`, there is no error on it exactly when "supported" and "non-empty" agree |
| Instance.PresenceErrors | lib/metasploit/model/module/instance.rb:157-160 | `presence: true`: no error exactly when the value is not blank, otherwise a single `blank` error on the attribute |
| Instance.LengthErrors | lib/metasploit/model/module/instance.rb:163-166 | `length: { minimum: }`: no error exactly when there are at least `minimum` elements, otherwise a single `too_short` error carrying the minimum |
| Instance.InclusionErrors | lib/metasploit/model/module/instance.rb:175-183 | `inclusion: { in: }`: no error exactly when the value is one of those allowed, otherwise a single `inclusion` error; nil is not among PRIVILEGES or STANCES, so it fails both declared inclusions |
| Instance.ModuleInstance.IsBlank | lib/metasploit/model/module/instance.rb:157-174 | `blank?` as the presence validator reads it: the module class is blank exactly when nil; description, license and name exactly when nil or all white space; `privileged` and `stance` exactly when nil, `false` or white-space text; a collection exactly when empty |
| Instance.SupportErrors | lib/metasploit/model/module/instance.rb:25-27 | a supported attribute must be present and an unsupported one blank: no error exactly when support and non-emptiness agree, and any error is on the attribute itself |
| Instance.AuxiliaryTargetsBoundary | lib/metasploit/model/module/instance.rb:184-185 | an auxiliary instance has a `present` error on targets exactly when it has any target |
| Instance.PresenceValidated | lib/metasploit/model/module/instance.rb:157-174 | each attribute validated with `presence: true` has exactly one `blank` error when it is blank, and none otherwise |
| Instance.ModuleAuthorsLength | lib/metasploit/model/module/instance.rb:163-166 | fewer module authors than MINIMUM_MODULE_AUTHORS_LENGTH (1) gives exactly one `too_short` error with count 1, and otherwise there is none |
| Instance.PrivilegedInclusion | lib/metasploit/model/module/instance.rb:175-178 | `privileged` has no error exactly when it is `false` or `true`; nil or any other value gives one `inclusion` error |
| Instance.StanceGated | lib/metasploit/model/module/instance.rb:179-183 | a stance outside active/passive gives one `inclusion` error, but only when the module type supports stance; otherwise there is no error on stance |
| Instance.ModuleInstance.ArchitecturesFromTargets | lib/metasploit/model/module/instance.rb:384-409 | appends the architecture consistency errors, comparing the set of the instance's architectures with the set of its targets' architectures: an `extra` error rendering actual − expected through `human_architecture_set` when that is not empty, then a `missing` error rendering expected − actual when that is not empty, and nothing else |
| Instance.ModuleInstance.PlatformsFromTargets | lib/metasploit/model/module/instance.rb:446-471 | appends the platform consistency errors, comparing the set of the instance's platforms with the set of its targets' platforms, rendered through `human_platform_set`, with the same `extra`/`missing` rules |
| Instance.ExpectedArchitectureSet | lib/metasploit/model/module/instance.rb:386-392 | the nested loop over targets and their architectures builds the same set as `Set.new` of all target architectures: duplicate-free and holding exactly the architectures of some target |
| Instance.ExpectedPlatformSet | lib/metasploit/model/module/instance.rb:448-454 | likewise for platforms |
| Instance.TargetArchitectures | lib/metasploit/model/module/instance.rb:388-392 | an architecture is collected exactly when some target declares it |
| Instance.TargetPlatforms | lib/metasploit/model/module/instance.rb:450-454 | a platform is collected exactly when some target declares it |
| Instance.CoverageErrors | lib/metasploit/model/module/instance.rb:394-408 | every consistency error is on the checked attribute |
| Instance.CoverageErrorsSpec | lib/metasploit/model/module/instance.rb:394-408 | at most two errors; an `extra` error exactly when some actual element is not expected, a `missing` error exactly when some expected element is not actual (both may fire), and no error exactly when the two sets are equal |
| Instance.CoverageExtraRendersDifference | lib/metasploit/model/module/instance.rb:394-399 | the `extra` error carries the rendering of actual − expected, however that difference is listed |
| Instance.CoverageMissingRendersDifference | lib/metasploit/model/module/instance.rb:402-407 | the `missing` error carries the rendering of expected − actual, however that difference is listed |
| Instance.ArchitectureMismatchErrors | lib/metasploit/model/module/instance.rb:384-409 | an instance declaring only x64 whose single target declares only x86 gets exactly `extra` "{x64}" then `missing` "{x86}" |
| Instance.ArchitectureMismatchExample | lib/metasploit/model/module/instance.rb:146-147 | for an exploit declaring x64 whose only target declares x86, validation leaves exactly `extra` "{x64}" and `missing` "{x86}" on architectures |
| Instance.ExploitSupportsTargets | lib/metasploit/model/module/instance.rb:361-374 | an exploit instance supports targets |
| Instance.HumanSet | lib/metasploit/model/module/instance.rb:434-439 | the rendering is wrapped in braces; no strings render as "{}" and one string as itself in braces (order independence is HumanSetPermutation) |
| Instance.HumanArchitectureSet | lib/metasploit/model/module/instance.rb:415-419 | the abbreviations rendered by `human_set`: no architecture gives "{}", one gives its abbreviation in braces |
| Instance.HumanPlatformSet | lib/metasploit/model/module/instance.rb:425-429 | the fully qualified names rendered by `human_set`: no platform gives "{}", one gives its name in braces |
| Instance.HumanArchitectureSetOrderIndependent | lib/metasploit/model/module/instance.rb:415-419 | `human_architecture_set` gives the same text for any two listings of the same set of architectures |
| Instance.HumanPlatformSetOrderIndependent | lib/metasploit/model/module/instance.rb:425-429 | `human_platform_set` gives the same text for any two listings of the same set of platforms |
| Instance.HumanSetOfSorted | lib/metasploit/model/module/instance.rb:434-439 | `human_set` is any ascending arrangement of the strings, joined with ", " inside braces |
| Instance.HumanSetPermutation | lib/metasploit/model/module/instance.rb:434-439 | the rendering does not depend on the order of the strings |
| Instance.HumanSetOfPair | lib/metasploit/model/module/instance.rb:434-439 | two strings render in ascending order, whichever order they come in |
| Instance.HumanSetExample | lib/metasploit/model/module/instance.rb:434-439 | "x64" and "x86" render as "{x64, x86}" in either order |
| Instance.ErrorsOn | lib/metasploit/model/module/instance.rb:146-185 | `errors[attribute]` holds exactly the errors on that attribute |
| Instance.Position | lib/metasploit/model/module/instance.rb:28-77 | a module type has a place in the table's row order exactly when it is one of the six known types |
| RubyCollections.Fetch | lib/metasploit/model/module/instance.rb:330-331 | `Hash#fetch` finds nothing exactly when no entry has the key, and otherwise finds a value stored under it |
| RubyCollections.FetchEntry | lib/metasploit/model/module/instance.rb:330-331 | in a hash without repeated keys, `fetch` of an entry's key finds that entry's value |
| RubyCollections.AddEach | lib/metasploit/model/module/instance.rb:389-391 | the inner `each` loop that calls `Set#add` on every element builds the same set as adding those elements in turn |
| RubyCollections.Add | lib/metasploit/model/module/instance.rb:390 | `Set#add` (here and at line 452): a duplicate-free set stays duplicate-free, its elements afterwards are the old ones and `x`, and the old set is kept as a prefix |
| RubyCollections.Map | lib/metasploit/model/module/instance.rb:385 | `Array#map` (here and at lines 416, 426 and 447): the result is as long as the input and holds `f` of each element at the same position |
| RubyCollections.SetNew | lib/metasploit/model/module/instance.rb:385 | `Set.new` keeps each element once and holds exactly the elements given |
| RubyCollections.AddAllAppend | lib/metasploit/model/module/instance.rb:388-392 | adding two batches one after the other builds the same set as adding their concatenation |
| RubyCollections.Difference | lib/metasploit/model/module/instance.rb:394 | `Set#-` holds exactly the elements of the first set that are not in the second, each once |
| RubyCollections.DifferenceEmpty | lib/metasploit/model/module/instance.rb:396 | a set difference is empty exactly when the first set is contained in the second |
| RubyCollections.MapPermutation | lib/metasploit/model/module/instance.rb:416 | mapping two arrangements of the same elements gives two arrangements of the same names |
| RubyString.LessOrEqual | lib/metasploit/model/module/instance.rb:435 | `String#<=>` as `sort` uses it: `a` sorts at or before `b` exactly when `a` is a prefix of `b` or, at the first position where they differ, `a` has the smaller character |
| RubyString.Join | lib/metasploit/model/module/instance.rb:436 | `Array#join`: no parts give "", one part gives that part, otherwise the text starts with the first part, puts the separator right after it when there are more parts, and is as long as all parts plus one separator between each two |
| RubyString.JoinAppend | lib/metasploit/model/module/instance.rb:436 | joining one more part appends the separator and that part, so with the empty and single-part cases every part sits in order with one separator between neighbours |
| RubyString.Sort | lib/metasploit/model/module/instance.rb:435 | `Array#sort` gives an ascending permutation of its input |
| RubyString.SortedUnique | lib/metasploit/model/module/instance.rb:435 | there is only one ascending permutation of a list of strings, so the sort result is determined |

## Left out

- The ActiveSupport concern and naming machinery, the translation mixin, the association and attribute
  declarations and the search declarations are not modelled. They declare things; they compute nothing.
- The `support` validator is not part of this model. It is modelled as: a supported attribute must be
  present (a non-empty collection, `blank` error otherwise), and an unsupported one must be blank
  (`present` error otherwise). This follows the comment above the table and ActiveModel's
  presence/absence validators.
- The `Module::Type` and `Module::Stance` constant files are not part of this model. Their values are
  written out: the six module types in `Type::ALL` order, and the stances "active" and "passive".
- A module type outside the six known ones is `Unrecognized(name)`, whose name is none of the six module
  type names. The Ruby value may be any object; only its being unknown matters here.
- Error messages are not rendered through the locale files. An error is its attribute and its kind
  (`blank`, `present`, `too_short` with the count, `inclusion`, `extra`/`missing` with the rendered set).
  Kinds follow the ActiveModel validators the code uses.
- `blank?` on text is modelled for nil and for ASCII white space. Unicode white space is not modelled.
- Join records are flattened: `module_architectures`, `module_platforms` and a target's architectures and
  platforms are held as the architectures and platforms they point to. Identity is by abbreviation and
  fully qualified name, which stands in for Active Record identity.
- `String#<=>` is modelled as lexicographic order on characters (Unicode scalar values). Ruby compares
  bytes; for UTF-8 text byte order is the same as scalar order, so the model agrees for UTF-8 names only,
  not for strings in other encodings.
- An architecture or platform that is nil is not modelled. In Ruby a join record or target record whose
  `architecture` or `platform` is nil puts nil into the compared sets. If that nil ends up in a
  difference, `map(&:abbreviation)` or `map(&:fully_qualified_name)` raises `NoMethodError` out of
  `valid?`. The model's architectures and platforms are always present values.
- RunValidation and ErrorsFrom: a `supports?` lookup that fails with KeyError is read as "not supported",
  where Ruby lets the KeyError escape `valid?`. The declared validations never make such a lookup
  (DeclaredSupportLookupsSucceed), so `valid?` behaves the same; only a validation list outside the
  declared one would differ.
- Persistence, database-backed associations, I/O and ActiveModel callbacks are outside the model.
