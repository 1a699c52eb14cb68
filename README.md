# ISA-95 class composition and containment, in Dafny

This project models the core of the node-opcua ISA-95 extension: the routines that
compose ISA-95 objects out of class types and containment links, and the
physical-asset builders built on them. It follows the type tables of the OPC UA
companion specification for ISA-95 (OPC 10030), sections 7.6.2 (ISA95ClassType)
and 7.6.3 (ISA95ObjectType), Table 69 (PhysicalAssetType).

- **Class membership.** A node is "defined by" an ordered list of class types.
  - The list argument is coerced: a class name is looked up, and a single class becomes a one-element list.
  - Classes whose modelling rule is OptionalPlaceholder are skipped.
  - Every other class must be a subtype of the base class type. It gets one forward DefinedBy... reference and one entry at the end of the node's `definedBy...Class` array, without deduplication.
  - The first refused class stops the loop. The classes before it stay committed.
- **Class properties (`addDefinedByFooClass`).** This routine is separate from the membership loop above and does less.
  - It looks up no class names, skips no placeholders, checks no subtype and keeps no `definedBy...Class` array.
  - The class list is read from the options: absent means none, and a single class becomes a one-element list.
  - For each class it adds one forward DefinedBy... reference, then copies every HasISA95ClassProperty of the class onto the node as a new HasISA95Property variable.
  - It fails only when the list is non-empty and the capitalised reference name is not in the catalogue.
- **Attribute transfer.** Each HasISA95Attribute of a class is cloned onto an instance, as a fresh node linked by a reference of the same type.
- **Containment.**
  - A child stores an inverse MadeUpOf... reference to its parent.
  - The child also stores a parent field, `containedBy...`, where the last write wins. The field's name is the reference type's inverse name with its first letter lower-cased.
- **Physical-asset builders.**
  - `addPhysicalAssetClassType` creates a subtype of PhysicalAssetClassType, with optional Manufacturer and ModelNumber attributes.
  - `addPhysicalAssetType` creates a subtype of PhysicalAssetType.
  - `addPhysicalAsset` builds an asset in order:
    - it checks the type definition and instantiates the asset;
    - it installs the asset's class membership (default PhysicalAssetClassType);
    - it adds the containment in a parent asset;
    - it adds the VendorId and FixedAssetId attributes;
    - it adds the ImplementedBy link to an equipment.
  - `madeUpOfPhysicalAssets()` lists the assets a node is made up of.

The address space is modelled as a graph. Node ids are natural numbers that index
the node sequence. References `(source, referenceType, target, isForward)` are kept
in insertion order, and browsing a node reads them in that order from both ends,
as node-opcua does. `IsA` is the reflexive-transitive subtype relation, which is
what node-opcua's `a.isSupertypeOf(b)` actually computes. The ISA95 namespace is a
fixed catalogue at the first node ids.

Files:
- `graph.dfy` (module `Graph`): the values, `IsA`, browsing (`FindReferences`, `FindObjects`) and the letter-case helpers.
- `catalog.dfy` (module `Catalog`): the ISA95 namespace and the name lookups.
- `address_space.dfy` (module `Substrate`): the snapshot `Space`, and the mutable class `AddressSpace` with the graph primitives the core calls.
- `isa95_utils.dfy` (module `ISA95Utils`): the shared routines.
- `physical_asset.dfy` (module `PhysicalAsset`): the builders.

Each state-changing routine has three parts:
- a pure function from one `Space` to the next (`...Effect`, `New...`), returning the new space together with the outcome or the created node;
- a method on `AddressSpace` that performs the same steps in place, loops included, and whose postcondition says the new state is exactly that function of the old state;
- lemmas that state what the function means.

A thrown error or a failed `assert` in the source is an `Outcome` of `Fail(error)`, or a `Result` of `Failure(error)`. The space returned with it holds what was done before the throw.

## Model

| member | source | states |
|---|---|---|
| ISA95Utils.CoerceISA95ReferenceType | lib/isa95_address_space_extension_utils.js:12-16 | a node argument comes back unchanged; a name resolves exactly when it names an ISA95 reference type, to that type, and otherwise fails naming it |
| ISA95Utils.CoerceISA95ObjectType | lib/isa95_address_space_extension_utils.js:17-21 | the same for ISA95 object types |
| ISA95Utils.CoerceClasses | lib/isa95_address_space_extension_utils.js:151-160 | a class name resolves to a one-element list exactly when it names an ISA95 object type, and otherwise fails naming it; a single class node becomes a one-element list; an array is kept as given |
| ISA95Utils.AddDefinedByFooClassReference | lib/isa95_address_space_extension_utils.js:39-70 | succeeds exactly when the reference type name resolves and the class derives from the base class type; a refusal changes nothing; a success appends exactly one forward reference to the class and appends the class at the end of the lower-cased field, with nodes and node-valued fields unchanged |
| ISA95Utils.PushAll | lib/isa95_address_space_extension_utils.js:64-67 | the field named by the key reads back as its old contents (empty when absent) followed by the new items; every other field is unchanged |
| ISA95Utils.PushAllAppend | lib/isa95_address_space_extension_utils.js:64-67 | pushing `a` then `b` onto a field is pushing `a + b`: entries accumulate in order, without deduplication |
| ISA95Utils.InstallPlan | lib/isa95_address_space_extension_utils.js:165-177 | the classes the loop commits are among the inputs, none of them a placeholder, and each one passed every check |
| ISA95Utils.InstallPlanCompletes | lib/isa95_address_space_extension_utils.js:165-177 | the loop completes exactly when every non-placeholder class passes, and then it commits exactly the non-placeholder classes, in input order |
| ISA95Utils.InstallPlanStops | lib/isa95_address_space_extension_utils.js:165-177 | once a class is refused, the later classes change nothing |
| ISA95Utils.InstallPlanCommitted | lib/isa95_address_space_extension_utils.js:165-177 | what the loop commits for a prefix of the list is a prefix of what it commits for the whole list |
| ISA95Utils.InstallPlanFirstRefusal | lib/isa95_address_space_extension_utils.js:165-177 | when the first refused class is at position k, the loop commits the non-placeholder classes before k and fails with that class's error |
| ISA95Utils.MembershipReadsBack | lib/isa95_address_space_extension_utils.js:56-59 | the membership references a node gains browse back as exactly the committed classes, in order |
| ISA95Utils.MembershipUnseen | lib/isa95_address_space_extension_utils.js:56-59 | membership references are invisible to a browse through any other reference type |
| ISA95Utils.WithMembershipAppend | lib/isa95_address_space_extension_utils.js:165-177 | committing `a` and then `b` is committing `a + b`, both in the references and in the membership array |
| ISA95Utils.InstallPasses | lib/isa95_address_space_extension_utils.js:131-178 | with a resolvable class list, installation succeeds exactly when every non-placeholder class passes; on success the node's array and its DefinedBy... browse each gain exactly the non-placeholder classes, in input order; nodes and node-valued fields are unchanged |
| ISA95Utils.InstallFails | lib/isa95_address_space_extension_utils.js:165-177 | when the class at position k is the first refused, installation fails with that class's error and the array keeps the non-placeholder classes before k |
| ISA95Utils.InstallWellFormed | lib/isa95_address_space_extension_utils.js:131-178 | installation only appends references, creates no node, sets no node-valued field and changes no browse through another reference type |
| ISA95Utils.InstallOne | lib/isa95_address_space_extension_utils.js:165-176 | one turn of the loop on the address space: it skips a placeholder, refuses with the plan's error, or commits the class |
| ISA95Utils.InstallClasses | lib/isa95_address_space_extension_utils.js:165-177 | the loop leaves exactly the plan's committed classes in the address space, and fails exactly when the plan does, with its error |
| ISA95Utils.InstallDefinedByFooClassReferences | lib/isa95_address_space_extension_utils.js:131-178 | the method leaves the address space and returns the outcome that the installation function gives for the old state |
| ISA95Utils.CopyPropertiesShape | lib/isa95_address_space_extension_utils.js:98-110 | copying properties appends one copy per property, in order, each keeping the source's browse name, data type and value with the given type definition, plus one forward HasISA95Property reference from the node to each copy |
| ISA95Utils.CopyPropertiesBrowse | lib/isa95_address_space_extension_utils.js:98-110 | the node's HasISA95Property browse gains exactly the new copies, in order |
| ISA95Utils.CopyClassProperties | lib/isa95_address_space_extension_utils.js:110 | the inner loop leaves exactly the state of the property-copy function |
| ISA95Utils.DefineEffect | lib/isa95_address_space_extension_utils.js:73-116 | `addDefinedByFooClass` fails exactly when the class list is non-empty and the capitalised reference type name does not resolve, and then it changes nothing; it sets no field |
| ISA95Utils.DefineByClassShape | lib/isa95_address_space_extension_utils.js:87-113 | one class adds one forward reference from the node to the class, then one copy and one HasISA95Property reference per forward HasISA95ClassProperty of the class |
| ISA95Utils.DefineByClassLinks | lib/isa95_address_space_extension_utils.js:89-91 | after one class, the node's browse through the DefinedBy... type gains that class last |
| ISA95Utils.DefineByClassProperties | lib/isa95_address_space_extension_utils.js:96-110 | after one class, the node's HasISA95Property browse gains exactly the nodes just created, in order |
| ISA95Utils.DefineByClassesLinks | lib/isa95_address_space_extension_utils.js:114 | over a class list, the node's browse through the DefinedBy... type gains exactly the list, in order, duplicates included |
| ISA95Utils.DefineByClassesProperties | lib/isa95_address_space_extension_utils.js:114 | over a class list, the node's HasISA95Property browse gains exactly the nodes created, in order |
| ISA95Utils.AddDefinedByFooClassLinks | lib/isa95_address_space_extension_utils.js:73-116 | with a resolvable reference type, `addDefinedByFooClass` succeeds; the node's browse through that type gains the class list; its HasISA95Property browse gains every node the call creates |
| ISA95Utils.AddClassDefinition | lib/isa95_address_space_extension_utils.js:87-113 | one pass of the class loop leaves exactly the state of the one-class function |
| ISA95Utils.AddDefinedByFooClass | lib/isa95_address_space_extension_utils.js:73-116 | the method leaves the address space and returns the outcome that `DefineEffect` gives for the old state |
| ISA95Utils.CloneAttributesShape | lib/isa95_address_space_extension_utils.js:192-203 | the j-th HasISA95Attribute link of the class yields a fresh node equal to the attribute node it clones, which is never the original, and a reference of the link's type from the instance to that clone |
| ISA95Utils.TransferCases | lib/isa95_address_space_extension_utils.js:180-205 | a placeholder class changes nothing; a class that is not an object type fails and changes nothing; otherwise exactly one clone and one reference of the same reference type per attribute link, in order |
| ISA95Utils.TransferISA95Attributes | lib/isa95_address_space_extension_utils.js:180-205 | the method leaves the address space and returns the outcome that `TransferEffect` gives for the old state |
| ISA95Utils.ContainedByFieldNames | lib/isa95_address_space_extension_utils.js:230-233 | the parent fields set through MadeUpOfEquipment and MadeUpOfPhysicalAsset are `containedByEquipment` and `containedByPhysicalAsset` |
| ISA95Utils.ContainEffect | lib/isa95_address_space_extension_utils.js:207-234 | containment fails exactly when the reference type name does not resolve, and then it changes nothing |
| ISA95Utils.ContainmentBothEnds | lib/isa95_address_space_extension_utils.js:224-233 | the parent's forward MadeUpOf... browse gains the child last; the child's inverse browse gains the parent last; the child's parent field is overwritten with the parent; no node or array changes |
| ISA95Utils.ContainmentElsewhere | lib/isa95_address_space_extension_utils.js:224-228 | no browse through another reference type changes, and no node other than the parent gains a forward MadeUpOf... target |
| ISA95Utils.AddContainedByFooReference | lib/isa95_address_space_extension_utils.js:207-234 | the method leaves the address space and returns the outcome that `ContainEffect` gives for the old state |
| PhysicalAsset.NewClassType | lib/isa95_address_space_extension_physical_asset.js:27-69 | without a browse name nothing happens; a created class type is the next node id; no field is set |
| PhysicalAsset.NewClassTypeDerives | lib/isa95_address_space_extension_physical_asset.js:29-66 | the new node is an object type with that browse name, directly below PhysicalAssetClassType, so an ISA95ClassType too; the call succeeds exactly when the model number is unset or a string, and otherwise fails as not a string |
| PhysicalAsset.NewClassTypeAttributes | lib/isa95_address_space_extension_physical_asset.js:38-66 | the type is followed by the Manufacturer attribute exactly when a manufacturer is set, then the ModelNumber attribute exactly when a model number is set; the type's HasISA95Attribute browse is exactly these, in order |
| PhysicalAsset.ClassTypeWithManufacturerShape | lib/isa95_address_space_extension_physical_asset.js:38-51 | the new type is followed by the Manufacturer attribute (type definition CompanyType, value the literal "manufacturer", whatever the argument) exactly when a manufacturer is set, and that attribute is the type's only HasISA95Attribute target so far |
| PhysicalAsset.AddPhysicalAssetClassType | lib/isa95_address_space_extension_physical_asset.js:27-69 | the method leaves the address space and returns the result that `NewClassType` gives for the old state |
| PhysicalAsset.NewAssetType | lib/isa95_address_space_extension_physical_asset.js:71-83 | without a browse name nothing happens; otherwise no reference or field changes |
| PhysicalAsset.NewAssetTypeDerives | lib/isa95_address_space_extension_physical_asset.js:73-82 | the new node is the next id, has the browse name, derives from PhysicalAssetType and so from ISA95ObjectType, and is not a PhysicalAssetClassType |
| PhysicalAsset.AddPhysicalAssetType | lib/isa95_address_space_extension_physical_asset.js:71-83 | the method leaves the address space and returns the result that `NewAssetType` gives for the old state |
| PhysicalAsset.MadeUpOfPhysicalAssets | lib/isa95_address_space_extension_physical_asset.js:87-92 | the assets a node is made up of are existing nodes, read from its forward MadeUpOfPhysicalAsset references |
| PhysicalAsset.VendorIdCases | lib/isa95_address_space_extension_physical_asset.js:206-235 | the VendorId is accepted exactly when its type definition (CompanyType by default) derives from CompanyType; a refusal changes nothing; an acceptance adds one VendorId variable and exactly one HasISA95Attribute target, that variable |
| PhysicalAsset.SetVendorId | lib/isa95_address_space_extension_physical_asset.js:206-231 | the method leaves the address space and returns the outcome that `VendorIdEffect` gives for the old state |
| PhysicalAsset.FixedAssetIdCases | lib/isa95_address_space_extension_physical_asset.js:238-256 | an unset FixedAssetId changes nothing; a set one that is not a string fails and changes nothing; a string adds one FixedAssetId variable of data type CDTIdentifier, holding that string, as the asset's one new attribute |
| PhysicalAsset.SetFixedAssetId | lib/isa95_address_space_extension_physical_asset.js:238-256 | the method leaves the address space and returns the outcome that `FixedAssetIdEffect` gives for the old state |
| PhysicalAsset.ImplementationBothEnds | lib/isa95_address_space_extension_physical_asset.js:257-273 | the asset's inverse ImplementedBy browse gains the equipment; the equipment's forward browse gains the asset; the asset's `implementationOf` field is the equipment |
| PhysicalAsset.SetImplementationOf | lib/isa95_address_space_extension_physical_asset.js:263-272 | the method leaves exactly the state of `ImplementationEffect` |
| PhysicalAsset.AddPhysicalAssetGate | lib/isa95_address_space_extension_physical_asset.js:139-142 | `addPhysicalAsset` refuses, changing nothing, exactly when the type definition does not derive from PhysicalAssetType; the default type definition always passes |
| PhysicalAsset.AddPhysicalAssetInstance | lib/isa95_address_space_extension_physical_asset.js:153-158 | past the gate, the asset is the next node id: an object whose type definition derives from PhysicalAssetType |
| PhysicalAsset.AddPhysicalAssetSteps | lib/isa95_address_space_extension_physical_asset.js:153-181 | past the gate, a failed class installation ends the call with the asset in place; otherwise the remaining options apply to the new asset |
| PhysicalAsset.AddPhysicalAssetDefaultClass | lib/isa95_address_space_extension_physical_asset.js:161-170 | with no class given, installation succeeds; the asset's `definedByPhysicalAssetClass` array gains PhysicalAssetClassType, and so does its DefinedByPhysicalAssetClass browse |
| PhysicalAsset.AddPhysicalAssetRefused | lib/isa95_address_space_extension_physical_asset.js:164-170 | when a non-placeholder class is refused, `addPhysicalAsset` fails |
| PhysicalAsset.AddPhysicalAssetMembership | lib/isa95_address_space_extension_physical_asset.js:164-170 | when every class passes, the asset's array and its DefinedByPhysicalAssetClass browse are the non-placeholder classes, in order |
| PhysicalAsset.AddPhysicalAssetContainment | lib/isa95_address_space_extension_physical_asset.js:174-182 | after `addPhysicalAsset`, every node's `madeUpOfPhysicalAssets()` is unchanged except the parent's, which gains the new asset last; the asset's `containedByPhysicalAsset` field is the parent |
| PhysicalAsset.AddPhysicalAssetAttributes | lib/isa95_address_space_extension_physical_asset.js:206-256 | a successful call creates the asset plus one node per VendorId and string FixedAssetId given, and those nodes are exactly the asset's HasISA95Attribute targets, in order |
| PhysicalAsset.AddPhysicalAssetVendorIdNode | lib/isa95_address_space_extension_physical_asset.js:218-223 | the first attribute node is the VendorId variable, with its type definition, data type and value |
| PhysicalAsset.AddPhysicalAssetFixedAssetIdNode | lib/isa95_address_space_extension_physical_asset.js:245-250 | the last node created is the FixedAssetId variable holding the given string |
| PhysicalAsset.AddPhysicalAssetImplementation | lib/isa95_address_space_extension_physical_asset.js:257-273 | the asset's inverse ImplementedBy browse is exactly the equipment; the equipment's forward browse gains the asset; the `implementationOf` field is the equipment |
| PhysicalAsset.AddChildPhysicalAsset | lib/isa95_address_space_extension_physical_asset.js:174-182 | adding a child asset under a parent appends it to the parent's `madeUpOfPhysicalAssets()`; the child is made up of nothing |
| PhysicalAsset.AddChildElsewhere | lib/isa95_address_space_extension_physical_asset.js:174-182 | adding a child leaves every other node's `madeUpOfPhysicalAssets()` unchanged |
| PhysicalAsset.AddTwoPhysicalAssets | lib/isa95_address_space_extension_physical_asset.js:87-92 | two children added under a childless parent: the parent is made up of exactly those two, in order, and each child of none |
| PhysicalAsset.AddPhysicalAsset | lib/isa95_address_space_extension_physical_asset.js:130-275 | the method leaves the address space and returns the result that `AddPhysicalAssetEffect` gives for the old state |
| Substrate.AddressSpace.AddISA95Property | lib/isa95_address_space_extension_utils.js:102-108 | one fresh variable with the given browse name, data type, value and type definition, and one forward HasISA95Property reference to it |
| Substrate.AddressSpace.Clone | lib/isa95_address_space_extension_utils.js:195-196 | one fresh node equal to the original; nothing else changes |

## Left out

- Node-opcua internals are not part of this model. That covers `addObjectType`, `instantiate`, `addVariable`, `addISA95Property`, `addISA95Attribute`, `clone`, `findReferencesEx*` and the inverse-name lookup. Each is a primitive of `Substrate.AddressSpace` that states only the node it creates and the references it adds.
- `instantiate` creates no child nodes (components or properties of the type), and `clone` copies no references; their internals are not visible here.
- Reference-type matching in browses is exact, not subtype-inclusive. This assumes the catalogue's reference types have no subtype relations among themselves. Otherwise a browse through a supertype would miss its subtypes. For example, if HasISA95ClassProperty or HasISA95Property were a subtype of HasISA95Attribute, attribute transfer would clone class properties too.
- The inverse name of MadeUpOfPhysicalAsset is taken as "ContainedByPhysicalAsset", following MadeUpOfEquipment's "ContainedByEquipment". The ISA95 nodeset that defines it is not part of this model.
- The catalogue holds only the ISA95 types and reference types the core names. Loading the nodeset from XML is I/O and is left out.
- The Equipment builders, which also call the shared routines, live in files that are not part of this model.
- `params` and `options` are not written back: the defaults for `typeDefinition`, `definedByPhysicalAssetClass` and `vendorId.typeDefinition`, and the coerced class list, are computed as values instead.
- Attaching `madeUpOfPhysicalAssets` to the asset (physical_asset.js line 182) is modelled as the query function `PhysicalAsset.MadeUpOfPhysicalAssets`.
- Attaching the builders to `AddressSpace.prototype` is modelled as free methods taking the address space.
- `description`, `organizedBy` and `modellingRule` are only passed through to `instantiate`, and are left out.
- The dead `if (false)` block (physical_asset.js lines 144-151) is left out.
- The commented-out type checks (utils.js lines 219-222, physical_asset.js line 208) are left out.
- Lookups whose results are never used are left out:
  - the `fooType` lookup in `_addContainedByFooReference`;
  - the `hasISA95Property` lookup, which fetches HasISA95ClassProperty (utils.js line 95);
  - the discarded EquipmentType check on `implementationOf` (physical_asset.js line 261), so no node with a type definition is refused;
  - the extra `vendorIdType` argument to `setVendorId`.
- The `forward: true` key on the VendorId and FixedAssetId references is read as a forward reference, which is node-opcua's default.
- Variable values are opaque `Variant`s. Only their truthiness and whether they are strings matter here. Values are never converted.
- A missing browse name is the empty string, and is refused like any falsy name.
- Letter case is changed for ASCII letters only. Full Unicode case mapping is not modelled.
- A JavaScript `TypeError` on an undefined lookup result, and a failed `assert`, are both error outcomes; the message text is not modelled.
- The Manufacturer attribute's value is the literal "manufacturer" rather than the `manufacturer` argument, exactly as the source writes it.
- The failure branch of containment cannot happen inside `addPhysicalAsset`, because "MadeUpOfPhysicalAsset" always resolves. It is modelled, but only `ISA95Utils.ContainEffect` states it.
- ISA95Utils.DefineByClassesLinks: stated only when the DefinedBy... reference type is neither HasISA95Property nor HasISA95ClassProperty. With either of those, the class links would mix with the property links in one browse.
- ISA95Utils.AddDefinedByFooClassLinks: stated under the same exclusion. The created nodes are stated as a range of fresh ids; their contents are given per class by `ISA95Utils.DefineByClassShape`.
- Some inputs that make the source throw cannot be written in the argument types, so those failure paths are not modelled:
  - `ISA95Utils.ClassArg` has no array of class names. The source looks up only a bare string (utils.js lines 153-159), so `["SomeClass"]` reaches `isSupertypeOf` on a string and throws a TypeError.
  - `ISA95Utils.ClassesOption` has no class given by name. The source would throw at `findReferencesExAsObject` (utils.js line 96), after the DefinedBy... reference was already added.
  - `PhysicalAsset.VendorIdOptions` has no truthy vendorId that is not an object. The source refuses one with `assert(typeof vendorId === "object")` (physical_asset.js line 207).
  - `PhysicalAsset.ImplementationEffect` never fails: it accepts any node as the equipment. The source reads `implementationOf.typeDefinitionObj` (physical_asset.js line 261), which throws a TypeError for a node without a type definition, such as a type node. The model does not capture that refusal.
- Concurrency and events are not modelled: every routine is synchronous and runs alone.
