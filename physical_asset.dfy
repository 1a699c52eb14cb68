/**
  The physical-asset builders of the ISA-95 extension: new PhysicalAssetClassType
  and PhysicalAssetType subtypes, and PhysicalAsset instances with their class
  membership, their containment in a parent asset, and their VendorId,
  FixedAssetId and ImplementationOf links.

  Each builder is a pure function from one address space to the next
  (`...Effect`, `New...`) paired with a method on the mutable address space that
  is proved to produce exactly that state; the lemmas state what the functions
  mean.
*/
module PhysicalAsset {
  import opened Graph
  import opened Catalog
  import opened Substrate
  import opened ISA95Utils

  /** What a builder returns: the new address space, and the created node or the error it threw. */
  datatype Built = Built(space: Space, result: Result<NodeId>)

  /** The nodes `node` links to by forward HasISA95Attribute references, in insertion order. */
  function Attributes(refs: seq<Reference>, node: NodeId): seq<NodeId> {
    FindObjects(refs, node, HasISA95AttributeId, true)
  }

  // ---------------------------------------------------------------------------
  // addPhysicalAssetClassType

  /** The Manufacturer attribute: its value is the literal "manufacturer", whatever the option held. */
  function ManufacturerAttribute(): NodeInfo {
    VariableNode("Manufacturer", Some(CompanyTypeId), Some(StringDataTypeId), Str("manufacturer"), Mandatory)
  }

  function ModelNumberAttribute(modelNumber: string): NodeInfo {
    VariableNode("ModelNumber", None, Some(StringDataTypeId), Str(modelNumber), Mandatory)
  }

  /** The Manufacturer variable a class type is given when the option is set. */
  function ManufacturerPart(manufacturer: Variant): seq<NodeInfo> {
    if Truthy(manufacturer) then [ManufacturerAttribute()] else []
  }

  /** The ModelNumber variable a class type is given when the option is a non-empty string. */
  function ModelNumberPart(modelNumber: Variant): seq<NodeInfo> {
    if Truthy(modelNumber) && modelNumber.Str? then [ModelNumberAttribute(modelNumber.s)] else []
  }

  /** The new type node and, when asked for, its Manufacturer attribute. */
  function ClassTypeWithManufacturer(s: Space, browseName: string, manufacturer: Variant): (r: Space)
    requires WellFormed(s)
    ensures WellFormed(r) && Extends(s, r) && |s.nodes| < |r.nodes|
    ensures r.classLists == s.classLists && r.links == s.links
  {
    var s1 := WithNode(s, TypeNode(ObjectType, browseName, Some(PhysicalAssetClassTypeId)));
    if Truthy(manufacturer) then
      var s2 := WithAttribute(s1, |s.nodes|, ManufacturerAttribute());
      ExtendsTransitive(s, s1, s2);
      s2
    else s1
  }

  /**
    `addPhysicalAssetClassType({browseName, manufacturer, modelNumber})` on `s`. A model number
    that is set but not a string throws after the type (and its Manufacturer) were created.
  */
  function NewClassType(s: Space, browseName: string, manufacturer: Variant, modelNumber: Variant): (b: Built)
    requires WellFormed(s)
    ensures WellFormed(b.space) && Extends(s, b.space)
    ensures b.space.classLists == s.classLists && b.space.links == s.links
    ensures browseName == "" ==> b == Built(s, Failure(MissingBrowseName))
    ensures b.result.Success? ==> b.result.value == |s.nodes|
  {
    if browseName == "" then Built(s, Failure(MissingBrowseName))
    else
      var t := |s.nodes|;
      var s2 := ClassTypeWithManufacturer(s, browseName, manufacturer);
      if !Truthy(modelNumber) then Built(s2, Success(t))
      else if !modelNumber.Str? then Built(s2, Failure(NotAString))
      else
        var s3 := WithAttribute(s2, t, ModelNumberAttribute(modelNumber.s));
        ExtendsTransitive(s, s2, s3);
        Built(s3, Success(t))
  }

  /**
    A new physical asset class type is a fresh node, a PhysicalAssetClassType and so an
    ISA95ClassType; only a model number that is set but not a string makes the call fail.
  */
  lemma NewClassTypeDerives(s: Space, browseName: string, manufacturer: Variant, modelNumber: Variant)
    requires WellFormed(s) && browseName != ""
    ensures var b := NewClassType(s, browseName, manufacturer, modelNumber);
            var t := |s.nodes|;
            && t < |b.space.nodes|
            && b.space.nodes[t] == TypeNode(ObjectType, browseName, Some(PhysicalAssetClassTypeId))
            && IsA(b.space.nodes, t, PhysicalAssetClassTypeId) && IsA(b.space.nodes, t, ISA95ClassTypeId)
            && (b.result.Success? <==> !Truthy(modelNumber) || modelNumber.Str?)
            && (b.result.Failure? ==> b.result.error == NotAString)
  {
    var b := NewClassType(s, browseName, manufacturer, modelNumber);
    var t := |s.nodes|;
    var s1 := WithNode(s, TypeNode(ObjectType, browseName, Some(PhysicalAssetClassTypeId)));
    assert Extends(s1, ClassTypeWithManufacturer(s, browseName, manufacturer));
    assert Extends(s1, b.space);
    assert b.space.nodes[t] == b.space.nodes[..|s1.nodes|][t];
    CatalogAt(b.space.nodes, PhysicalAssetClassTypeId);
  }

  /** The type node is followed by its Manufacturer, when asked for, which is then its only attribute. */
  lemma ClassTypeWithManufacturerShape(s: Space, browseName: string, manufacturer: Variant)
    requires WellFormed(s)
    ensures var r := ClassTypeWithManufacturer(s, browseName, manufacturer);
            && r.nodes == s.nodes + [TypeNode(ObjectType, browseName, Some(PhysicalAssetClassTypeId))] + ManufacturerPart(manufacturer)
            && Attributes(r.refs, |s.nodes|) == Fresh(|s.nodes| + 1, |ManufacturerPart(manufacturer)|)
  {
    var t := |s.nodes|;
    var s1 := WithNode(s, TypeNode(ObjectType, browseName, Some(PhysicalAssetClassTypeId)));
    FindReferencesFresh(s.refs, |s.nodes|, t, HasISA95AttributeId, true);
    assert Attributes(s1.refs, t) == Fresh(t + 1, 0);
    if Truthy(manufacturer) {
      AttributeReadsBack(s1, t, ManufacturerAttribute());
      FreshSnoc([], t + 1, 0);
      assert ClassTypeWithManufacturer(s, browseName, manufacturer) == WithAttribute(s1, t, ManufacturerAttribute());
      assert ManufacturerPart(manufacturer) == [ManufacturerAttribute()];
    } else {
      assert ClassTypeWithManufacturer(s, browseName, manufacturer) == s1;
      assert s1.nodes + ManufacturerPart(manufacturer) == s1.nodes;
    }
  }

  /**
    A named call creates exactly the class type followed by its attribute variables, Manufacturer
    first, and the type's attributes are those fresh variables in order; a model number that is
    not a string leaves the type and its Manufacturer in place.
  */
  lemma NewClassTypeAttributes(s: Space, browseName: string, manufacturer: Variant, modelNumber: Variant)
    requires WellFormed(s) && browseName != ""
    ensures var b := NewClassType(s, browseName, manufacturer, modelNumber);
            var attrs := ManufacturerPart(manufacturer) + ModelNumberPart(modelNumber);
            && b.space.nodes == s.nodes + [TypeNode(ObjectType, browseName, Some(PhysicalAssetClassTypeId))] + attrs
            && Attributes(b.space.refs, |s.nodes|) == Fresh(|s.nodes| + 1, |attrs|)
  {
    var t := |s.nodes|;
    var s2 := ClassTypeWithManufacturer(s, browseName, manufacturer);
    ClassTypeWithManufacturerShape(s, browseName, manufacturer);
    var first, last := ManufacturerPart(manufacturer), ModelNumberPart(modelNumber);
    AppendAssociative(s.nodes + [TypeNode(ObjectType, browseName, Some(PhysicalAssetClassTypeId))], first, last);
    if Truthy(modelNumber) && modelNumber.Str? {
      AttributeReadsBack(s2, t, ModelNumberAttribute(modelNumber.s));
      FreshSnoc([], t + 1, |first|);
    } else {
      assert s2.nodes + last == s2.nodes && first + last == first;
    }
  }

  /** `addPhysicalAssetClassType(options)` on the address space. */
  method AddPhysicalAssetClassType(g: AddressSpace, browseName: string, manufacturer: Variant, modelNumber: Variant)
    returns (r: Result<NodeId>)
    requires g.Valid()
    modifies g
    ensures g.Valid()
    ensures Built(g.Snapshot(), r) == NewClassType(old(g.Snapshot()), browseName, manufacturer, modelNumber)
  {
    if browseName == "" {
      return Failure(MissingBrowseName);
    }
    var physicalAssetClassType := FindISA95ObjectType("PhysicalAssetClassType");
    var t := g.AddObjectType(browseName, physicalAssetClassType.value);
    if Truthy(manufacturer) {
      var _ := g.AddISA95Attribute(t, "Manufacturer", Some(StringDataTypeId), Str("manufacturer"),
                                   Some(CompanyTypeId), Mandatory);
    }
    if Truthy(modelNumber) {
      if !modelNumber.Str? {
        return Failure(NotAString);
      }
      var _ := g.AddISA95Attribute(t, "ModelNumber", Some(StringDataTypeId), modelNumber, None, Mandatory);
    }
    r := Success(t);
  }

  // ---------------------------------------------------------------------------
  // addPhysicalAssetType

  /** `addPhysicalAssetType({browseName})` on `s`. */
  function NewAssetType(s: Space, browseName: string): (b: Built)
    requires WellFormed(s)
    ensures WellFormed(b.space) && Extends(s, b.space)
    ensures b.space.refs == s.refs && b.space.classLists == s.classLists && b.space.links == s.links
    ensures browseName == "" ==> b == Built(s, Failure(MissingBrowseName))
  {
    if browseName == "" then Built(s, Failure(MissingBrowseName))
    else Built(WithNode(s, TypeNode(ObjectType, browseName, Some(PhysicalAssetTypeId))), Success(|s.nodes|))
  }

  /** A new physical asset type is one fresh node, a PhysicalAssetType and so an ISA95ObjectType. */
  lemma NewAssetTypeDerives(s: Space, browseName: string)
    requires WellFormed(s) && browseName != ""
    ensures var b := NewAssetType(s, browseName);
            && b.result == Success(|s.nodes|) && |b.space.nodes| == |s.nodes| + 1
            && b.space.nodes[|s.nodes|].browseName == browseName
            && IsA(b.space.nodes, |s.nodes|, PhysicalAssetTypeId) && IsA(b.space.nodes, |s.nodes|, ISA95ObjectTypeId)
            && !IsA(b.space.nodes, |s.nodes|, PhysicalAssetClassTypeId)
  {
    var nodes := NewAssetType(s, browseName).space.nodes;
    CatalogAt(nodes, PhysicalAssetTypeId);
    CatalogAt(nodes, ISA95ObjectTypeId);
  }

  /** `addPhysicalAssetType(options)` on the address space. */
  method AddPhysicalAssetType(g: AddressSpace, browseName: string) returns (r: Result<NodeId>)
    requires g.Valid()
    modifies g
    ensures g.Valid()
    ensures Built(g.Snapshot(), r) == NewAssetType(old(g.Snapshot()), browseName)
  {
    if browseName == "" {
      return Failure(MissingBrowseName);
    }
    var physicalAssetType := FindISA95ObjectType("PhysicalAssetType");
    var t := g.AddObjectType(browseName, physicalAssetType.value);
    r := Success(t);
  }

  // ---------------------------------------------------------------------------
  // Browsing an address space

  /** Browses through reference type `t` read the same in `a` and in `b`, from every node and in both directions. */
  ghost predicate Kept(a: Space, b: Space, t: NodeId) {
    forall n, forward :: FindObjects(b.refs, n, t, forward) == FindObjects(a.refs, n, t, forward)
  }

  /** The `implementationOf` field of an asset. */
  function ImplementationField(asset: NodeId): (NodeId, string) {
    (asset, "implementationOf")
  }

  /** The `containedByPhysicalAsset` parent field of an asset. */
  function ContainerField(asset: NodeId): (NodeId, string) {
    (asset, "containedByPhysicalAsset")
  }

  /** `physicalAsset.madeUpOfPhysicalAssets()`: the assets `node` is made up of, in the order they were added. */
  function MadeUpOfPhysicalAssets(s: Space, node: NodeId): (children: seq<NodeId>)
    requires WellFormed(s)
    ensures AllBelow(children, |s.nodes|)
  {
    FindObjectsWithin(s.refs, |s.nodes|, node, MadeUpOfPhysicalAssetId, true);
    FindObjects(s.refs, node, MadeUpOfPhysicalAssetId, true)
  }

  // ---------------------------------------------------------------------------
  // setVendorId

  /** The `vendorId` option: the variable's type definition, data type and value. */
  datatype VendorIdOptions = VendorIdOptions(typeDefinition: Option<NodeId>, dataType: Option<NodeId>, value: Variant)

  /** `vendorId.typeDefinition || CompanyType`. */
  function VendorIdType(vendorId: VendorIdOptions): NodeId {
    if vendorId.typeDefinition.Some? then vendorId.typeDefinition.value else CompanyTypeId
  }

  function VendorIdAttribute(typeDefinition: NodeId, vendorId: VendorIdOptions): NodeInfo {
    VariableNode("VendorId", Some(typeDefinition), vendorId.dataType, vendorId.value, NoRule)
  }

  /** `setVendorId(asset, vendorId)` on `s`: the type definition must be CompanyType or a subtype of it. */
  function VendorIdEffect(s: Space, asset: NodeId, vendorId: VendorIdOptions): (st: Step)
    requires WellFormed(s) && asset < |s.nodes|
    ensures WellFormed(st.space) && Extends(s, st.space)
    ensures st.space.classLists == s.classLists && st.space.links == s.links
    ensures Kept(s, st.space, DefinedByPhysicalAssetClassId) && Kept(s, st.space, MadeUpOfPhysicalAssetId)
    ensures Kept(s, st.space, ImplementedById)
  {
    var td := VendorIdType(vendorId);
    if !IsA(s.nodes, td, CompanyTypeId) then Step(s, Fail(NotASubtype(td, CompanyTypeId)))
    else
      AttributeUnseen(s, asset, VendorIdAttribute(td, vendorId));
      Step(WithAttribute(s, asset, VendorIdAttribute(td, vendorId)), Pass)
  }

  /**
    A VendorId is accepted exactly when its type definition (CompanyType by default) is a
    CompanyType; an accepted one is a single new attribute of the asset, a refused one changes nothing.
  */
  lemma VendorIdCases(s: Space, asset: NodeId, vendorId: VendorIdOptions)
    requires WellFormed(s) && asset < |s.nodes|
    ensures var st := VendorIdEffect(s, asset, vendorId);
            var td := VendorIdType(vendorId);
            && (st.outcome.Pass? <==> IsA(s.nodes, td, CompanyTypeId))
            && (vendorId.typeDefinition.None? ==> st.outcome.Pass?)
            && (st.outcome.Fail? ==> st == Step(s, Fail(NotASubtype(td, CompanyTypeId))))
            && (st.outcome.Pass? ==>
                  && st.space.nodes == s.nodes + [VendorIdAttribute(td, vendorId)]
                  && Attributes(st.space.refs, asset) == Attributes(s.refs, asset) + [|s.nodes|])
  {
    var td := VendorIdType(vendorId);
    if IsA(s.nodes, td, CompanyTypeId) {
      AttributeReadsBack(s, asset, VendorIdAttribute(td, vendorId));
    }
  }

  /** `setVendorId(instance, vendorId)`: a fresh VendorId variable, then the HasISA95Attribute reference to it. */
  method SetVendorId(g: AddressSpace, instance: NodeId, vendorId: VendorIdOptions) returns (o: Outcome)
    requires g.Valid() && instance < |g.nodes|
    modifies g
    ensures g.Valid()
    ensures var st := VendorIdEffect(old(g.Snapshot()), instance, vendorId);
            g.Snapshot() == st.space && o == st.outcome
  {
    var hasISA95Attribute := FindISA95ReferenceType("HasISA95Attribute");
    var typeDefinition := if vendorId.typeDefinition.Some? then vendorId.typeDefinition.value else CompanyTypeId;
    if !IsA(g.nodes, typeDefinition, CompanyTypeId) {
      return Fail(NotASubtype(typeDefinition, CompanyTypeId));
    }
    var vendorIdNode := g.AddVariable("VendorId", typeDefinition, vendorId.dataType, vendorId.value);
    g.AddReference(instance, hasISA95Attribute.value, vendorIdNode, true);
    o := Pass;
  }

  // ---------------------------------------------------------------------------
  // fixedAssetId

  function FixedAssetIdAttribute(fixedAssetId: string): NodeInfo {
    VariableNode("FixedAssetId", Some(BaseDataVariableTypeId), Some(CDTIdentifierId), Str(fixedAssetId), NoRule)
  }

  /** The `fixedAssetId` step of `addPhysicalAsset` on `s`: a set value must be a string. */
  function FixedAssetIdEffect(s: Space, asset: NodeId, fixedAssetId: Variant): (st: Step)
    requires WellFormed(s) && asset < |s.nodes|
    ensures WellFormed(st.space) && Extends(s, st.space)
    ensures st.space.classLists == s.classLists && st.space.links == s.links
    ensures Kept(s, st.space, DefinedByPhysicalAssetClassId) && Kept(s, st.space, MadeUpOfPhysicalAssetId)
    ensures Kept(s, st.space, ImplementedById)
  {
    if !Truthy(fixedAssetId) then Step(s, Pass)
    else if !fixedAssetId.Str? then Step(s, Fail(NotAString))
    else
      AttributeUnseen(s, asset, FixedAssetIdAttribute(fixedAssetId.s));
      Step(WithAttribute(s, asset, FixedAssetIdAttribute(fixedAssetId.s)), Pass)
  }

  /**
    An unset FixedAssetId changes nothing, one that is set but not a string throws and changes
    nothing, and a string becomes a single new attribute of the asset holding that string.
  */
  lemma FixedAssetIdCases(s: Space, asset: NodeId, fixedAssetId: Variant)
    requires WellFormed(s) && asset < |s.nodes|
    ensures var st := FixedAssetIdEffect(s, asset, fixedAssetId);
            && (!Truthy(fixedAssetId) ==> st == Step(s, Pass))
            && (Truthy(fixedAssetId) && !fixedAssetId.Str? ==> st == Step(s, Fail(NotAString)))
            && (Truthy(fixedAssetId) && fixedAssetId.Str? ==>
                  && st.outcome == Pass
                  && st.space.nodes == s.nodes + [FixedAssetIdAttribute(fixedAssetId.s)]
                  && st.space.nodes[|s.nodes|].value == fixedAssetId
                  && Attributes(st.space.refs, asset) == Attributes(s.refs, asset) + [|s.nodes|])
  {
    if Truthy(fixedAssetId) && fixedAssetId.Str? {
      AttributeReadsBack(s, asset, FixedAssetIdAttribute(fixedAssetId.s));
    }
  }

  /** The `fixedAssetId` step of `addPhysicalAsset`: a fresh FixedAssetId variable, then the reference to it. */
  method SetFixedAssetId(g: AddressSpace, asset: NodeId, fixedAssetId: Variant) returns (o: Outcome)
    requires g.Valid() && asset < |g.nodes|
    modifies g
    ensures g.Valid()
    ensures var st := FixedAssetIdEffect(old(g.Snapshot()), asset, fixedAssetId);
            g.Snapshot() == st.space && o == st.outcome
  {
    if !Truthy(fixedAssetId) {
      return Pass;
    }
    if !fixedAssetId.Str? {
      return Fail(NotAString);
    }
    var hasISA95Attribute := FindISA95ReferenceType("HasISA95Attribute");
    var fixedAssetIdNode := g.AddVariable("FixedAssetId", BaseDataVariableTypeId, Some(CDTIdentifierId),
                                          Str(fixedAssetId.s));
    g.AddReference(asset, hasISA95Attribute.value, fixedAssetIdNode, true);
    o := Pass;
  }

  // ---------------------------------------------------------------------------
  // implementationOf

  /** The `implementationOf` step of `addPhysicalAsset` on `s`: an inverse ImplementedBy reference and the field. */
  function ImplementationEffect(s: Space, asset: NodeId, equipment: NodeId): (r: Space)
    requires WellFormed(s) && asset < |s.nodes| && equipment < |s.nodes|
    ensures WellFormed(r) && Extends(s, r)
    ensures r.nodes == s.nodes && r.classLists == s.classLists
    ensures Kept(s, r, DefinedByPhysicalAssetClassId) && Kept(s, r, MadeUpOfPhysicalAssetId)
    ensures Kept(s, r, HasISA95AttributeId)
  {
    var link := Reference(asset, ImplementedById, equipment, false);
    WellFormedLink(s, link);
    assert (s.refs + [link])[..|s.refs|] == s.refs;
    ImplementationUnseen(s.refs, link);
    s.(refs := s.refs + [link], links := s.links[ImplementationField(asset) := equipment])
  }

  lemma ImplementationUnseen(refs: seq<Reference>, link: Reference)
    requires link.referenceType == ImplementedById
    ensures forall n, t, forward | t != ImplementedById ::
              FindObjects(refs + [link], n, t, forward) == FindObjects(refs, n, t, forward)
  {
    forall n, t, forward | t != ImplementedById
      ensures FindObjects(refs + [link], n, t, forward) == FindObjects(refs, n, t, forward)
    {
      FindObjectsSnocUnseen(refs, link, n, t, forward);
    }
  }

  /**
    The implementation link reads from both ends: the asset's inverse ImplementedBy browse gains
    the equipment, the equipment's forward browse gains the asset, and the asset's
    `implementationOf` field is the equipment.
  */
  lemma ImplementationBothEnds(s: Space, asset: NodeId, equipment: NodeId)
    requires WellFormed(s) && asset < |s.nodes| && equipment < |s.nodes|
    ensures var r := ImplementationEffect(s, asset, equipment);
            && FindObjects(r.refs, asset, ImplementedById, false) == FindObjects(s.refs, asset, ImplementedById, false) + [equipment]
            && FindObjects(r.refs, equipment, ImplementedById, true) == FindObjects(s.refs, equipment, ImplementedById, true) + [asset]
            && r.links == s.links[ImplementationField(asset) := equipment]
  {
    FindObjectsSnocOwn(s.refs, asset, ImplementedById, equipment, false);
    FindObjectsSnocOther(s.refs, asset, ImplementedById, equipment, false);
  }

  /** The `implementationOf` step of `addPhysicalAsset`. */
  method SetImplementationOf(g: AddressSpace, asset: NodeId, equipment: NodeId)
    requires g.Valid() && asset < |g.nodes| && equipment < |g.nodes|
    modifies g
    ensures g.Valid()
    ensures g.Snapshot() == ImplementationEffect(old(g.Snapshot()), asset, equipment)
  {
    var implementedBy := FindISA95ReferenceType("ImplementedBy");
    g.AddReference(asset, implementedBy.value, equipment, false);
    g.links := g.links[ImplementationField(asset) := equipment];
  }

  // ---------------------------------------------------------------------------
  // addPhysicalAsset

  /** The options of `addPhysicalAsset` the core reads; an unset option is `None`, `Null` or the empty string. */
  datatype AssetOptions = AssetOptions(
    browseName: string,
    typeDefinition: Option<NodeId>,
    definedByPhysicalAssetClass: Option<ClassArg>,
    containedByPhysicalAsset: Option<NodeId>,
    vendorId: Option<VendorIdOptions>,
    fixedAssetId: Variant,
    implementationOf: Option<NodeId>)

  /** `options.typeDefinition || PhysicalAssetType`. */
  function AssetTypeDefinition(options: AssetOptions): NodeId {
    if options.typeDefinition.Some? then options.typeDefinition.value else PhysicalAssetTypeId
  }

  /** `options.definedByPhysicalAssetClass || "PhysicalAssetClassType"`: an empty name is falsy too. */
  function AssetClass(options: AssetOptions): ClassArg {
    match options.definedByPhysicalAssetClass
    case None => ClassName("PhysicalAssetClassType")
    case Some(arg) => if arg == ClassName("") then ClassName("PhysicalAssetClassType") else arg
  }

  /** The asset node `instantiate` creates. */
  function AssetNode(options: AssetOptions): NodeInfo {
    ObjectNode(options.browseName, AssetTypeDefinition(options))
  }

  /** The nodes the options point at exist in an address space of `bound` nodes. */
  predicate OptionsWithin(options: AssetOptions, bound: nat) {
    && ClassArgWithin(AssetClass(options), bound)
    && (options.containedByPhysicalAsset.Some? ==> options.containedByPhysicalAsset.value < bound)
    && (options.implementationOf.Some? ==> options.implementationOf.value < bound)
  }

  lemma OptionsWithinGrows(options: AssetOptions, bound: nat, larger: nat)
    requires OptionsWithin(options, bound) && bound <= larger
    ensures OptionsWithin(options, larger)
  {
  }

  /** The asset instantiated on `s` and its classes installed. */
  function Installed(s: Space, options: AssetOptions): (st: Step)
    requires WellFormed(s) && OptionsWithin(options, |s.nodes|)
    ensures WellFormed(st.space) && Extends(s, st.space)
    ensures st.space.nodes == s.nodes + [AssetNode(options)] && st.space.links == s.links
    ensures forall n, t, forward | t != DefinedByPhysicalAssetClassId ::
              FindObjects(st.space.refs, n, t, forward) == FindObjects(s.refs, n, t, forward)
  {
    var s1 := WithNode(s, AssetNode(options));
    OptionsWithinGrows(options, |s.nodes|, |s1.nodes|);
    InstallWellFormed(s1, |s.nodes|, AssetClass(options), Node(PhysicalAssetClassTypeId), "DefinedByPhysicalAssetClass");
    var st := InstallEffect(s1, |s.nodes|, AssetClass(options), Node(PhysicalAssetClassTypeId), "DefinedByPhysicalAssetClass");
    ExtendsTransitive(s, s1, st.space);
    st
  }

  /** The containment step: an inverse MadeUpOfPhysicalAsset reference to the parent, when one is given. */
  function Contained(s: Space, asset: NodeId, options: AssetOptions): (r: Space)
    requires WellFormed(s) && asset < |s.nodes| && OptionsWithin(options, |s.nodes|)
    ensures WellFormed(r) && Extends(s, r) && r.nodes == s.nodes && r.classLists == s.classLists
  {
    if options.containedByPhysicalAsset.None? then
      assert s.nodes[..|s.nodes|] == s.nodes && s.refs[..|s.refs|] == s.refs;
      s
    else
      ContainmentBothEnds(s, asset, options.containedByPhysicalAsset.value, "MadeUpOfPhysicalAsset");
      ContainEffect(s, asset, options.containedByPhysicalAsset.value, "MadeUpOfPhysicalAsset").space
  }

  /** The VendorId step, when a vendor is given. */
  function Vendor(s: Space, asset: NodeId, options: AssetOptions): (st: Step)
    requires WellFormed(s) && asset < |s.nodes|
    ensures WellFormed(st.space) && Extends(s, st.space)
    ensures st.space.classLists == s.classLists && st.space.links == s.links
    ensures Kept(s, st.space, DefinedByPhysicalAssetClassId) && Kept(s, st.space, MadeUpOfPhysicalAssetId)
    ensures Kept(s, st.space, ImplementedById)
  {
    if options.vendorId.None? then
      assert s.nodes[..|s.nodes|] == s.nodes && s.refs[..|s.refs|] == s.refs;
      Step(s, Pass)
    else VendorIdEffect(s, asset, options.vendorId.value)
  }

  /**
    What `addPhysicalAsset` does once the asset exists and its classes are installed:
    containment, VendorId, FixedAssetId and ImplementationOf, in that order; a step that throws
    ends the call with what the earlier steps did.
  */
  function Completed(s: Space, asset: NodeId, options: AssetOptions): (b: Built)
    requires WellFormed(s) && asset < |s.nodes| && OptionsWithin(options, |s.nodes|)
    ensures WellFormed(b.space) && Extends(s, b.space)
    ensures b.space.classLists == s.classLists
    ensures b.result.Success? ==> b.result.value == asset
  {
    var contained := Contained(s, asset, options);
    var vendor := Vendor(contained, asset, options);
    ExtendsTransitive(s, contained, vendor.space);
    if vendor.outcome.Fail? then Built(vendor.space, Failure(vendor.outcome.error))
    else
      var fixed := FixedAssetIdEffect(vendor.space, asset, options.fixedAssetId);
      ExtendsTransitive(s, vendor.space, fixed.space);
      if fixed.outcome.Fail? then Built(fixed.space, Failure(fixed.outcome.error))
      else if options.implementationOf.None? then Built(fixed.space, Success(asset))
      else
        var r := ImplementationEffect(fixed.space, asset, options.implementationOf.value);
        ExtendsTransitive(s, fixed.space, r);
        Built(r, Success(asset))
  }

  /**
    `addPhysicalAsset(options)` on `s`: the type definition must be a PhysicalAssetType, then the
    asset is instantiated, its classes installed and the remaining options applied. A step that
    throws after the instantiation leaves the asset and what was done to it in place.
  */
  function AddPhysicalAssetEffect(s: Space, options: AssetOptions): (b: Built)
    requires WellFormed(s) && OptionsWithin(options, |s.nodes|)
    ensures WellFormed(b.space) && Extends(s, b.space)
    ensures b.result.Success? ==> b.result.value == |s.nodes|
  {
    var td := AssetTypeDefinition(options);
    if !IsA(s.nodes, td, PhysicalAssetTypeId) then Built(s, Failure(NotASubtype(td, PhysicalAssetTypeId)))
    else
      var installed := Installed(s, options);
      if installed.outcome.Fail? then Built(installed.space, Failure(installed.outcome.error))
      else
        OptionsWithinGrows(options, |s.nodes|, |installed.space.nodes|);
        var b := Completed(installed.space, |s.nodes|, options);
        ExtendsTransitive(s, installed.space, b.space);
        b
  }

  /** The steps of `addPhysicalAsset` after the class installation. */
  method Complete(g: AddressSpace, asset: NodeId, options: AssetOptions) returns (r: Result<NodeId>)
    requires g.Valid() && asset < |g.nodes| && OptionsWithin(options, |g.nodes|)
    modifies g
    ensures g.Valid()
    ensures Built(g.Snapshot(), r) == Completed(old(g.Snapshot()), asset, options)
  {
    if options.containedByPhysicalAsset.Some? {
      var _ := AddContainedByFooReference(g, asset, options.containedByPhysicalAsset.value, "MadeUpOfPhysicalAsset");
    }
    if options.vendorId.Some? {
      var o := SetVendorId(g, asset, options.vendorId.value);
      if o.Fail? {
        return Failure(o.error);
      }
    }
    var o := SetFixedAssetId(g, asset, options.fixedAssetId);
    if o.Fail? {
      return Failure(o.error);
    }
    if options.implementationOf.Some? {
      SetImplementationOf(g, asset, options.implementationOf.value);
    }
    r := Success(asset);
  }

  /** `addPhysicalAsset(options)` on the address space. */
  method AddPhysicalAsset(g: AddressSpace, options: AssetOptions) returns (r: Result<NodeId>)
    requires g.Valid() && OptionsWithin(options, |g.nodes|)
    modifies g
    ensures g.Valid()
    ensures Built(g.Snapshot(), r) == AddPhysicalAssetEffect(old(g.Snapshot()), options)
  {
    var physicalAssetClassType := FindISA95ObjectType("PhysicalAssetClassType");
    var physicalAssetType := FindISA95ObjectType("PhysicalAssetType");
    var typeDefinition := if options.typeDefinition.Some? then options.typeDefinition.value else physicalAssetType.value;
    if !IsA(g.nodes, typeDefinition, physicalAssetType.value) {
      return Failure(NotASubtype(typeDefinition, PhysicalAssetTypeId));
    }
    var asset := g.Instantiate(typeDefinition, options.browseName);
    var o := InstallDefinedByFooClassReferences(g, asset, AssetClass(options), Node(physicalAssetClassType.value),
                                                "DefinedByPhysicalAssetClass");
    if o.Fail? {
      return Failure(o.error);
    }
    OptionsWithinGrows(options, asset, |g.nodes|);
    r := Complete(g, asset, options);
  }

  /**
    Past the type-definition gate a fresh object exists, whatever happens next: it is the node
    after the old ones, and its type definition is a PhysicalAssetType.
  */
  lemma AddPhysicalAssetInstance(s: Space, options: AssetOptions)
    requires WellFormed(s) && OptionsWithin(options, |s.nodes|)
    requires IsA(s.nodes, AssetTypeDefinition(options), PhysicalAssetTypeId)
    ensures var b := AddPhysicalAssetEffect(s, options).space;
            && |s.nodes| < |b.nodes| && b.nodes[|s.nodes|] == AssetNode(options)
            && b.nodes[|s.nodes|].nodeClass == Object
            && IsA(b.nodes, b.nodes[|s.nodes|].typeDefinition.value, PhysicalAssetTypeId)
  {
    var b := AddPhysicalAssetEffect(s, options).space;
    var s1 := Installed(s, options).space;
    AddPhysicalAssetSteps(s, options);
    assert Extends(s1, b);
    assert b.nodes[|s.nodes|] == b.nodes[..|s1.nodes|][|s.nodes|];
    IsAGrows(s, b, AssetTypeDefinition(options), PhysicalAssetTypeId);
  }

  /**
    The type-definition gate: the call throws before changing anything exactly when the type
    definition is not a PhysicalAssetType, and the default one always passes.
  */
  lemma AddPhysicalAssetGate(s: Space, options: AssetOptions)
    requires WellFormed(s) && OptionsWithin(options, |s.nodes|)
    ensures var b := AddPhysicalAssetEffect(s, options);
            var td := AssetTypeDefinition(options);
            && (!IsA(s.nodes, td, PhysicalAssetTypeId) <==> b == Built(s, Failure(NotASubtype(td, PhysicalAssetTypeId))))
            && (options.typeDefinition.None? ==> IsA(s.nodes, td, PhysicalAssetTypeId))
  {
    if IsA(s.nodes, AssetTypeDefinition(options), PhysicalAssetTypeId) {
      AddPhysicalAssetInstance(s, options);
    }
  }

  /** What one parent's forward MadeUpOfPhysicalAsset browse gains from containing `asset` under `parent`. */
  function Gained(parent: Option<NodeId>, n: NodeId, asset: NodeId): seq<NodeId> {
    if parent == Some(n) then [asset] else []
  }

  /**
    The containment step on its own: the parent's forward MadeUpOfPhysicalAsset browse gains the
    asset, the parent field is set, and the other browses stay as they were.
  */
  lemma ContainedStage(s: Space, asset: NodeId, options: AssetOptions)
    requires WellFormed(s) && asset < |s.nodes| && OptionsWithin(options, |s.nodes|)
    ensures var c := Contained(s, asset, options);
            && Kept(s, c, DefinedByPhysicalAssetClassId) && Kept(s, c, HasISA95AttributeId) && Kept(s, c, ImplementedById)
            && (forall n :: FindObjects(c.refs, n, MadeUpOfPhysicalAssetId, true)
                            == FindObjects(s.refs, n, MadeUpOfPhysicalAssetId, true)
                               + Gained(options.containedByPhysicalAsset, n, asset))
            && (options.containedByPhysicalAsset.Some? ==>
                  c.links == s.links[ContainerField(asset) := options.containedByPhysicalAsset.value])
  {
    var c := Contained(s, asset, options);
    var parent := options.containedByPhysicalAsset;
    if parent.Some? {
      ContainmentBothEnds(s, asset, parent.value, "MadeUpOfPhysicalAsset");
      ContainmentElsewhere(s, asset, parent.value, "MadeUpOfPhysicalAsset");
      ContainedByFieldNames(s.nodes);
    }
    forall n: NodeId
      ensures FindObjects(c.refs, n, MadeUpOfPhysicalAssetId, true)
              == FindObjects(s.refs, n, MadeUpOfPhysicalAssetId, true) + Gained(parent, n, asset)
    {
      if parent != Some(n) {
        assert FindObjects(s.refs, n, MadeUpOfPhysicalAssetId, true) + [] == FindObjects(s.refs, n, MadeUpOfPhysicalAssetId, true);
      }
    }
  }

  /** The VendorId, FixedAssetId and ImplementationOf steps leave the containment and the class membership alone. */
  lemma CompletedAfterContainment(s: Space, asset: NodeId, options: AssetOptions)
    requires WellFormed(s) && asset < |s.nodes| && OptionsWithin(options, |s.nodes|)
    ensures var c := Contained(s, asset, options);
            var b := Completed(s, asset, options);
            && Kept(c, b.space, DefinedByPhysicalAssetClassId) && Kept(c, b.space, MadeUpOfPhysicalAssetId)
            && (ContainerField(asset) in c.links ==>
                  ContainerField(asset) in b.space.links && b.space.links[ContainerField(asset)] == c.links[ContainerField(asset)])
  {
    var c := Contained(s, asset, options);
    var v := Vendor(c, asset, options);
    if v.outcome.Pass? {
      var f := FixedAssetIdEffect(v.space, asset, options.fixedAssetId);
      if f.outcome.Pass? && options.implementationOf.Some? {
        var r := ImplementationEffect(f.space, asset, options.implementationOf.value);
        assert r.links == f.space.links[ImplementationField(asset) := options.implementationOf.value];
        assert Completed(s, asset, options).space == r;
      }
    }
  }

  /**
    After the class installation, only the containment step touches the MadeUpOfPhysicalAsset
    browses and the parent field, and nothing touches the class-membership browses.
  */
  lemma CompletedContainment(s: Space, asset: NodeId, options: AssetOptions)
    requires WellFormed(s) && asset < |s.nodes| && OptionsWithin(options, |s.nodes|)
    ensures var b := Completed(s, asset, options);
            && Kept(s, b.space, DefinedByPhysicalAssetClassId)
            && (forall n :: FindObjects(b.space.refs, n, MadeUpOfPhysicalAssetId, true)
                            == FindObjects(s.refs, n, MadeUpOfPhysicalAssetId, true)
                               + Gained(options.containedByPhysicalAsset, n, asset))
            && (options.containedByPhysicalAsset.Some? ==>
                  && ContainerField(asset) in b.space.links
                  && b.space.links[ContainerField(asset)] == options.containedByPhysicalAsset.value)
  {
    ContainedStage(s, asset, options);
    CompletedAfterContainment(s, asset, options);
  }

  /** How many attributes the options ask for: a VendorId when one is given, a FixedAssetId when it is a non-empty string. */
  function AttributeCount(options: AssetOptions): nat {
    (if options.vendorId.Some? then 1 else 0)
    + (if Truthy(options.fixedAssetId) && options.fixedAssetId.Str? then 1 else 0)
  }

  /** The containment and VendorId steps add the VendorId, when one is given, as the only new node and attribute. */
  lemma VendorStageAttributes(s: Space, asset: NodeId, options: AssetOptions)
    requires WellFormed(s) && asset < |s.nodes| && OptionsWithin(options, |s.nodes|)
    requires Vendor(Contained(s, asset, options), asset, options).outcome.Pass?
    ensures var v := Vendor(Contained(s, asset, options), asset, options).space;
            var m := if options.vendorId.Some? then 1 else 0;
            && |v.nodes| == |s.nodes| + m
            && Attributes(v.refs, asset) == Attributes(s.refs, asset) + Fresh(|s.nodes|, m)
            && (options.vendorId.Some? ==>
                  v.nodes[|s.nodes|] == VendorIdAttribute(VendorIdType(options.vendorId.value), options.vendorId.value))
  {
    var c := Contained(s, asset, options);
    ContainedStage(s, asset, options);
    assert Attributes(c.refs, asset) == Attributes(s.refs, asset) + Fresh(|s.nodes|, 0);
    if options.vendorId.Some? {
      VendorIdCases(c, asset, options.vendorId.value);
      FreshSnoc(Attributes(s.refs, asset), |s.nodes|, 0);
    }
  }

  /** A successful completion passed the VendorId and FixedAssetId steps, and its last step adds no node and no attribute. */
  lemma CompletedTail(s: Space, asset: NodeId, options: AssetOptions)
    requires WellFormed(s) && asset < |s.nodes| && OptionsWithin(options, |s.nodes|)
    requires Completed(s, asset, options).result.Success?
    ensures var v := Vendor(Contained(s, asset, options), asset, options);
            && v.outcome.Pass?
            && var f := FixedAssetIdEffect(v.space, asset, options.fixedAssetId);
            && f.outcome.Pass?
            && Completed(s, asset, options).space.nodes == f.space.nodes
            && Attributes(Completed(s, asset, options).space.refs, asset) == Attributes(f.space.refs, asset)
  {
    var v := Vendor(Contained(s, asset, options), asset, options);
    var f := FixedAssetIdEffect(v.space, asset, options.fixedAssetId);
    if options.implementationOf.Some? {
      assert Completed(s, asset, options).space == ImplementationEffect(f.space, asset, options.implementationOf.value);
    } else {
      assert Completed(s, asset, options).space == f.space;
    }
  }

  /** A passing FixedAssetId step extends a run of fresh attributes by one when the id is a non-empty string. */
  lemma FixedStageAttributes(v: Space, asset: NodeId, fixedAssetId: Variant, before: seq<NodeId>, lo: nat, m: nat)
    requires WellFormed(v) && asset < |v.nodes| && |v.nodes| == lo + m && Attributes(v.refs, asset) == before + Fresh(lo, m)
    requires FixedAssetIdEffect(v, asset, fixedAssetId).outcome.Pass?
    ensures var f := FixedAssetIdEffect(v, asset, fixedAssetId).space;
            var k := if Truthy(fixedAssetId) && fixedAssetId.Str? then 1 else 0;
            && f.nodes[..|v.nodes|] == v.nodes
            && |f.nodes| == lo + m + k
            && Attributes(f.refs, asset) == before + Fresh(lo, m + k)
            && (k == 1 ==> f.nodes[lo + m] == FixedAssetIdAttribute(fixedAssetId.s))
  {
    FixedAssetIdCases(v, asset, fixedAssetId);
    if Truthy(fixedAssetId) && fixedAssetId.Str? {
      FreshSnoc(before, lo, m);
    } else {
      assert v.nodes[..|v.nodes|] == v.nodes;
    }
  }

  /**
    A completed asset gains its attributes as the fresh nodes after everything that was there,
    one for each attribute the options ask for.
  */
  lemma CompletedAttributes(s: Space, asset: NodeId, options: AssetOptions)
    requires WellFormed(s) && asset < |s.nodes| && OptionsWithin(options, |s.nodes|)
    requires Completed(s, asset, options).result.Success?
    ensures var b := Completed(s, asset, options).space;
            && |b.nodes| == |s.nodes| + AttributeCount(options)
            && Attributes(b.refs, asset) == Attributes(s.refs, asset) + Fresh(|s.nodes|, AttributeCount(options))
  {
    var v := Vendor(Contained(s, asset, options), asset, options).space;
    CompletedTail(s, asset, options);
    VendorStageAttributes(s, asset, options);
    var m := if options.vendorId.Some? then 1 else 0;
    FixedStageAttributes(v, asset, options.fixedAssetId, Attributes(s.refs, asset), |s.nodes|, m);
  }

  /** Of a completed asset's attributes, the VendorId comes first ... */
  lemma CompletedVendorNode(s: Space, asset: NodeId, options: AssetOptions)
    requires WellFormed(s) && asset < |s.nodes| && OptionsWithin(options, |s.nodes|)
    requires Completed(s, asset, options).result.Success? && options.vendorId.Some?
    ensures var b := Completed(s, asset, options).space;
            && |s.nodes| < |b.nodes|
            && b.nodes[|s.nodes|] == VendorIdAttribute(VendorIdType(options.vendorId.value), options.vendorId.value)
  {
    var v := Vendor(Contained(s, asset, options), asset, options).space;
    CompletedTail(s, asset, options);
    VendorStageAttributes(s, asset, options);
    FixedStageAttributes(v, asset, options.fixedAssetId, Attributes(s.refs, asset), |s.nodes|, 1);
    var f := FixedAssetIdEffect(v, asset, options.fixedAssetId).space;
    assert f.nodes[|s.nodes|] == v.nodes[|s.nodes|];
  }

  /** ... and the FixedAssetId last. */
  lemma CompletedFixedAssetIdNode(s: Space, asset: NodeId, options: AssetOptions)
    requires WellFormed(s) && asset < |s.nodes| && OptionsWithin(options, |s.nodes|)
    requires Completed(s, asset, options).result.Success?
    requires Truthy(options.fixedAssetId) && options.fixedAssetId.Str?
    ensures var b := Completed(s, asset, options).space;
            && |b.nodes| == |s.nodes| + AttributeCount(options)
            && b.nodes[|s.nodes| + AttributeCount(options) - 1] == FixedAssetIdAttribute(options.fixedAssetId.s)
  {
    var v := Vendor(Contained(s, asset, options), asset, options).space;
    CompletedTail(s, asset, options);
    VendorStageAttributes(s, asset, options);
    var m := if options.vendorId.Some? then 1 else 0;
    FixedStageAttributes(v, asset, options.fixedAssetId, Attributes(s.refs, asset), |s.nodes|, m);
  }

  /**
    A completed asset with an ImplementationOf option reads its equipment through an inverse
    ImplementedBy reference, the equipment reads the asset back, and the field is the equipment.
  */
  lemma CompletedImplementation(s: Space, asset: NodeId, options: AssetOptions)
    requires WellFormed(s) && asset < |s.nodes| && OptionsWithin(options, |s.nodes|)
    requires Completed(s, asset, options).result.Success? && options.implementationOf.Some?
    ensures var b := Completed(s, asset, options);
            var equipment := options.implementationOf.value;
            && FindObjects(b.space.refs, asset, ImplementedById, false)
               == FindObjects(s.refs, asset, ImplementedById, false) + [equipment]
            && FindObjects(b.space.refs, equipment, ImplementedById, true)
               == FindObjects(s.refs, equipment, ImplementedById, true) + [asset]
            && ImplementationField(asset) in b.space.links && b.space.links[ImplementationField(asset)] == equipment
  {
    var c := Contained(s, asset, options);
    ContainedStage(s, asset, options);
    var v := Vendor(c, asset, options);
    var f := FixedAssetIdEffect(v.space, asset, options.fixedAssetId);
    ImplementationBothEnds(f.space, asset, options.implementationOf.value);
  }

  /** The array field the installation of a physical asset's classes appends to. */
  lemma MembershipFieldName(asset: NodeId)
    ensures MembershipField(asset, "DefinedByPhysicalAssetClass") == (asset, "definedByPhysicalAssetClass")
  {
    assert LowerChar('D') == 'd';
    assert [LowerChar('D')] + "DefinedByPhysicalAssetClass"[1..] == "definedByPhysicalAssetClass";
  }

  /** Past the type-definition gate, the call is the installation followed, if that passes, by the remaining steps. */
  lemma AddPhysicalAssetSteps(s: Space, options: AssetOptions)
    requires WellFormed(s) && OptionsWithin(options, |s.nodes|)
    requires IsA(s.nodes, AssetTypeDefinition(options), PhysicalAssetTypeId)
    ensures var installed := Installed(s, options);
            var b := AddPhysicalAssetEffect(s, options);
            && (installed.outcome.Fail? ==> b == Built(installed.space, Failure(installed.outcome.error)))
            && (installed.outcome.Pass? ==>
                  && OptionsWithin(options, |installed.space.nodes|)
                  && b == Completed(installed.space, |s.nodes|, options))
  {
    OptionsWithinGrows(options, |s.nodes|, |Installed(s, options).space.nodes|);
  }

  /** The installation of the asset's classes passes exactly when every class is a placeholder or passes every check. */
  lemma InstalledOutcome(s: Space, options: AssetOptions)
    requires WellFormed(s) && OptionsWithin(options, |s.nodes|)
    requires CoerceClasses(AssetClass(options)).Success?
    ensures Descending(s.nodes + [AssetNode(options)])
    ensures Installed(s, options).outcome.Pass?
            <==> AllPass(s.nodes + [AssetNode(options)], CoerceClasses(AssetClass(options)).value,
                         Success(PhysicalAssetClassTypeId), Success(DefinedByPhysicalAssetClassId))
  {
    var s1 := WithNode(s, AssetNode(options));
    InstallPasses(s1, |s.nodes|, AssetClass(options), Node(PhysicalAssetClassTypeId), "DefinedByPhysicalAssetClass");
  }

  /**
    An installation that passes records the non-placeholder classes on the fresh asset, in order:
    in its `definedByPhysicalAssetClass` array and as its whole forward DefinedByPhysicalAssetClass browse.
  */
  lemma InstalledMembership(s: Space, options: AssetOptions)
    requires WellFormed(s) && OptionsWithin(options, |s.nodes|)
    requires CoerceClasses(AssetClass(options)).Success? && Installed(s, options).outcome.Pass?
    ensures var installed := Installed(s, options).space;
            var asset := |s.nodes|;
            var nodes := s.nodes + [AssetNode(options)];
            var classes := CoerceClasses(AssetClass(options)).value;
            && ListField(installed.classLists, MembershipField(asset, "DefinedByPhysicalAssetClass"))
               == ListField(s.classLists, MembershipField(asset, "DefinedByPhysicalAssetClass")) + NonPlaceholders(nodes, classes)
            && FindObjects(installed.refs, asset, DefinedByPhysicalAssetClassId, true) == NonPlaceholders(nodes, classes)
  {
    var s1 := WithNode(s, AssetNode(options));
    InstallPasses(s1, |s.nodes|, AssetClass(options), Node(PhysicalAssetClassTypeId), "DefinedByPhysicalAssetClass");
    MembershipFieldName(|s.nodes|);
    FindReferencesFresh(s.refs, |s.nodes|, |s.nodes|, DefinedByPhysicalAssetClassId, true);
  }

  /** The steps after the installation leave the class memberships as they were. */
  lemma CompletedKeepsClasses(s: Space, asset: NodeId, options: AssetOptions, n: NodeId)
    requires WellFormed(s) && asset < |s.nodes| && OptionsWithin(options, |s.nodes|)
    ensures var b := Completed(s, asset, options).space;
            && b.classLists == s.classLists
            && FindObjects(b.refs, n, DefinedByPhysicalAssetClassId, true) == FindObjects(s.refs, n, DefinedByPhysicalAssetClassId, true)
  {
    CompletedContainment(s, asset, options);
  }

  /** A class the installation refuses makes `addPhysicalAsset` throw. */
  lemma AddPhysicalAssetRefused(s: Space, options: AssetOptions)
    requires WellFormed(s) && OptionsWithin(options, |s.nodes|)
    requires IsA(s.nodes, AssetTypeDefinition(options), PhysicalAssetTypeId)
    requires CoerceClasses(AssetClass(options)).Success?
    ensures Descending(s.nodes + [AssetNode(options)])
    ensures !AllPass(s.nodes + [AssetNode(options)], CoerceClasses(AssetClass(options)).value,
                     Success(PhysicalAssetClassTypeId), Success(DefinedByPhysicalAssetClassId))
            ==> AddPhysicalAssetEffect(s, options).result.Failure?
  {
    AddPhysicalAssetSteps(s, options);
    InstalledOutcome(s, options);
  }

  /**
    The asset's classes: when every class passes, the asset's `definedByPhysicalAssetClass` array
    gains the non-placeholder classes in order and its forward DefinedByPhysicalAssetClass browse
    reads exactly them, whatever the later steps do.
  */
  lemma AddPhysicalAssetMembership(s: Space, options: AssetOptions)
    requires WellFormed(s) && OptionsWithin(options, |s.nodes|)
    requires IsA(s.nodes, AssetTypeDefinition(options), PhysicalAssetTypeId)
    requires CoerceClasses(AssetClass(options)).Success?
    requires Descending(s.nodes + [AssetNode(options)])
    requires AllPass(s.nodes + [AssetNode(options)], CoerceClasses(AssetClass(options)).value,
                     Success(PhysicalAssetClassTypeId), Success(DefinedByPhysicalAssetClassId))
    ensures var b := AddPhysicalAssetEffect(s, options).space;
            var asset := |s.nodes|;
            var nodes := s.nodes + [AssetNode(options)];
            var classes := CoerceClasses(AssetClass(options)).value;
            && ListField(b.classLists, MembershipField(asset, "DefinedByPhysicalAssetClass"))
               == ListField(s.classLists, MembershipField(asset, "DefinedByPhysicalAssetClass")) + NonPlaceholders(nodes, classes)
            && FindObjects(b.refs, asset, DefinedByPhysicalAssetClassId, true) == NonPlaceholders(nodes, classes)
  {
    var installed := Installed(s, options);
    AddPhysicalAssetSteps(s, options);
    InstalledOutcome(s, options);
    InstalledMembership(s, options);
    CompletedKeepsClasses(installed.space, |s.nodes|, options, |s.nodes|);
  }

  /** PhysicalAssetClassType itself passes every check of the membership loop and is not a placeholder. */
  lemma DefaultClassPasses(nodes: seq<NodeInfo>)
    requires Descending(nodes) && HasCatalog(nodes)
    ensures AllPass(nodes, [PhysicalAssetClassTypeId], Success(PhysicalAssetClassTypeId), Success(DefinedByPhysicalAssetClassId))
    ensures NonPlaceholders(nodes, [PhysicalAssetClassTypeId]) == [PhysicalAssetClassTypeId]
  {
    CatalogAt(nodes, PhysicalAssetClassTypeId);
    assert !IsPlaceholder(nodes, PhysicalAssetClassTypeId);
    assert [PhysicalAssetClassTypeId][..0] == [];
  }

  /** With the default class the installation always passes. */
  lemma DefaultClassInstalls(s: Space, options: AssetOptions)
    requires WellFormed(s) && OptionsWithin(options, |s.nodes|)
    requires options.definedByPhysicalAssetClass.None? || options.definedByPhysicalAssetClass == Some(ClassName(""))
    ensures Installed(s, options).outcome == Pass
  {
    assert CoerceClasses(AssetClass(options)) == Success([PhysicalAssetClassTypeId]);
    InstalledOutcome(s, options);
    HasCatalogAppend(s.nodes, [AssetNode(options)]);
    DefaultClassPasses(s.nodes + [AssetNode(options)]);
  }

  /**
    Without a class option (or with an empty name) the asset is a member of PhysicalAssetClassType
    alone: installation passes and both the array field and the browse read that one class.
  */
  lemma AddPhysicalAssetDefaultClass(s: Space, options: AssetOptions)
    requires WellFormed(s) && OptionsWithin(options, |s.nodes|)
    requires IsA(s.nodes, AssetTypeDefinition(options), PhysicalAssetTypeId)
    requires options.definedByPhysicalAssetClass.None? || options.definedByPhysicalAssetClass == Some(ClassName(""))
    ensures var b := AddPhysicalAssetEffect(s, options);
            var asset := |s.nodes|;
            && Installed(s, options).outcome == Pass
            && ListField(b.space.classLists, MembershipField(asset, "DefinedByPhysicalAssetClass"))
               == ListField(s.classLists, MembershipField(asset, "DefinedByPhysicalAssetClass")) + [PhysicalAssetClassTypeId]
            && FindObjects(b.space.refs, asset, DefinedByPhysicalAssetClassId, true) == [PhysicalAssetClassTypeId]
  {
    var s1 := WithNode(s, AssetNode(options));
    assert AssetClass(options) == ClassName("PhysicalAssetClassType");
    assert CoerceClasses(AssetClass(options)) == Success([PhysicalAssetClassTypeId]);
    DefaultClassPasses(s1.nodes);
    AddPhysicalAssetMembership(s, options);
    InstallPasses(s1, |s.nodes|, AssetClass(options), Node(PhysicalAssetClassTypeId), "DefinedByPhysicalAssetClass");
  }

  /**
    Containment: once the classes are installed, the parent's `madeUpOfPhysicalAssets()` gains the
    new asset last, every other node's is unchanged, and the asset's `containedByPhysicalAsset`
    field is the parent.
  */
  lemma AddPhysicalAssetContainment(s: Space, options: AssetOptions)
    requires WellFormed(s) && OptionsWithin(options, |s.nodes|)
    requires IsA(s.nodes, AssetTypeDefinition(options), PhysicalAssetTypeId) && Installed(s, options).outcome.Pass?
    ensures var b := AddPhysicalAssetEffect(s, options).space;
            && (forall n :: MadeUpOfPhysicalAssets(b, n)
                            == MadeUpOfPhysicalAssets(s, n) + Gained(options.containedByPhysicalAsset, n, |s.nodes|))
            && (options.containedByPhysicalAsset.Some? ==>
                  && ContainerField(|s.nodes|) in b.links
                  && b.links[ContainerField(|s.nodes|)] == options.containedByPhysicalAsset.value)
  {
    var installed := Installed(s, options);
    AddPhysicalAssetSteps(s, options);
    CompletedContainment(installed.space, |s.nodes|, options);
  }

  /**
    The attributes of a new asset are the fresh nodes created after it: its VendorId first when
    one is given, its FixedAssetId last when one is given, and nothing else.
  */
  lemma AddPhysicalAssetAttributes(s: Space, options: AssetOptions)
    requires WellFormed(s) && OptionsWithin(options, |s.nodes|)
    requires AddPhysicalAssetEffect(s, options).result.Success?
    ensures var b := AddPhysicalAssetEffect(s, options).space;
            && |b.nodes| == |s.nodes| + 1 + AttributeCount(options)
            && Attributes(b.refs, |s.nodes|) == Fresh(|s.nodes| + 1, AttributeCount(options))
  {
    var asset := |s.nodes|;
    var installed := Installed(s, options);
    AddPhysicalAssetSteps(s, options);
    FindReferencesFresh(s.refs, |s.nodes|, asset, HasISA95AttributeId, true);
    assert Attributes(installed.space.refs, asset) == [];
    CompletedAttributes(installed.space, asset, options);
  }

  /** The VendorId of a new asset is the node created right after the asset ... */
  lemma AddPhysicalAssetVendorIdNode(s: Space, options: AssetOptions)
    requires WellFormed(s) && OptionsWithin(options, |s.nodes|)
    requires AddPhysicalAssetEffect(s, options).result.Success? && options.vendorId.Some?
    ensures var b := AddPhysicalAssetEffect(s, options).space;
            && |s.nodes| + 1 < |b.nodes|
            && b.nodes[|s.nodes| + 1] == VendorIdAttribute(VendorIdType(options.vendorId.value), options.vendorId.value)
  {
    AddPhysicalAssetSteps(s, options);
    CompletedVendorNode(Installed(s, options).space, |s.nodes|, options);
  }

  /** ... and its FixedAssetId is the last node created. */
  lemma AddPhysicalAssetFixedAssetIdNode(s: Space, options: AssetOptions)
    requires WellFormed(s) && OptionsWithin(options, |s.nodes|)
    requires AddPhysicalAssetEffect(s, options).result.Success?
    requires Truthy(options.fixedAssetId) && options.fixedAssetId.Str?
    ensures var b := AddPhysicalAssetEffect(s, options).space;
            && |b.nodes| == |s.nodes| + 1 + AttributeCount(options)
            && b.nodes[|s.nodes| + AttributeCount(options)] == FixedAssetIdAttribute(options.fixedAssetId.s)
  {
    AddPhysicalAssetSteps(s, options);
    CompletedFixedAssetIdNode(Installed(s, options).space, |s.nodes|, options);
  }

  /**
    A new asset with an ImplementationOf option reads exactly that equipment through its inverse
    ImplementedBy browse, the equipment reads the asset back last, and the field is the equipment.
  */
  lemma AddPhysicalAssetImplementation(s: Space, options: AssetOptions)
    requires WellFormed(s) && OptionsWithin(options, |s.nodes|)
    requires AddPhysicalAssetEffect(s, options).result.Success? && options.implementationOf.Some?
    ensures var b := AddPhysicalAssetEffect(s, options).space;
            var asset := |s.nodes|;
            var equipment := options.implementationOf.value;
            && FindObjects(b.refs, asset, ImplementedById, false) == [equipment]
            && FindObjects(b.refs, equipment, ImplementedById, true) == FindObjects(s.refs, equipment, ImplementedById, true) + [asset]
            && ImplementationField(asset) in b.links && b.links[ImplementationField(asset)] == equipment
  {
    var asset := |s.nodes|;
    var installed := Installed(s, options);
    AddPhysicalAssetSteps(s, options);
    FindReferencesFresh(s.refs, |s.nodes|, asset, ImplementedById, false);
    CompletedImplementation(installed.space, asset, options);
  }

  /**
    One asset created under a parent with the default type and class: the parent's parts gain the
    asset last, and the asset starts with no parts.
  */
  lemma AddChildPhysicalAsset(s: Space, parent: NodeId, options: AssetOptions)
    requires WellFormed(s) && parent < |s.nodes| && options.containedByPhysicalAsset == Some(parent)
    requires options.typeDefinition.None? && options.definedByPhysicalAssetClass.None?
    requires OptionsWithin(options, |s.nodes|)
    ensures var b := AddPhysicalAssetEffect(s, options).space;
            && MadeUpOfPhysicalAssets(b, parent) == MadeUpOfPhysicalAssets(s, parent) + [|s.nodes|]
            && MadeUpOfPhysicalAssets(b, |s.nodes|) == []
  {
    DefaultClassInstalls(s, options);
    AddPhysicalAssetContainment(s, options);
    assert Gained(Some(parent), parent, |s.nodes|) == [|s.nodes|];
    assert Gained(Some(parent), |s.nodes|, |s.nodes|) == [];
    FindReferencesFresh(s.refs, |s.nodes|, |s.nodes|, MadeUpOfPhysicalAssetId, true);
  }

  /** Creating an asset under `parent` leaves the parts of every other node as they were. */
  lemma AddChildElsewhere(s: Space, parent: NodeId, options: AssetOptions, n: NodeId)
    requires WellFormed(s) && parent < |s.nodes| && options.containedByPhysicalAsset == Some(parent)
    requires options.typeDefinition.None? && options.definedByPhysicalAssetClass.None?
    requires OptionsWithin(options, |s.nodes|) && n != parent
    ensures MadeUpOfPhysicalAssets(AddPhysicalAssetEffect(s, options).space, n) == MadeUpOfPhysicalAssets(s, n)
  {
    DefaultClassInstalls(s, options);
    AddPhysicalAssetContainment(s, options);
    assert Gained(Some(parent), n, |s.nodes|) == [];
    assert MadeUpOfPhysicalAssets(s, n) + [] == MadeUpOfPhysicalAssets(s, n);
  }

  /**
    Two assets created one after the other with the same parent, the default type and the default
    class: the parent, which had no parts, is made up of exactly the two of them in creation order,
    and the first, created before the second, still has no parts.
  */
  lemma AddTwoPhysicalAssets(s: Space, parent: NodeId, first: AssetOptions, second: AssetOptions)
    requires WellFormed(s) && parent < |s.nodes| && MadeUpOfPhysicalAssets(s, parent) == []
    requires first.containedByPhysicalAsset == Some(parent) && second.containedByPhysicalAsset == Some(parent)
    requires first.typeDefinition.None? && first.definedByPhysicalAssetClass.None?
    requires second.typeDefinition.None? && second.definedByPhysicalAssetClass.None?
    requires OptionsWithin(first, |s.nodes|) && OptionsWithin(second, |s.nodes|)
    ensures var b1 := AddPhysicalAssetEffect(s, first).space;
            var b2 := AddPhysicalAssetEffect(b1, second).space;
            && MadeUpOfPhysicalAssets(b2, parent) == [|s.nodes|, |b1.nodes|]
            && MadeUpOfPhysicalAssets(b2, |s.nodes|) == []
            && MadeUpOfPhysicalAssets(b2, |b1.nodes|) == []
  {
    var b1 := AddPhysicalAssetEffect(s, first).space;
    AddChildPhysicalAsset(s, parent, first);
    assert MadeUpOfPhysicalAssets(b1, parent) == [|s.nodes|];
    assert MadeUpOfPhysicalAssets(b1, |s.nodes|) == [];
    OptionsWithinGrows(second, |s.nodes|, |b1.nodes|);
    AddChildPhysicalAsset(b1, parent, second);
    AddChildElsewhere(b1, parent, second, |s.nodes|);
  }
}
