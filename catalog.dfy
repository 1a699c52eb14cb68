/**
  The ISA95 namespace as it stands once the companion nodeset is loaded: the
  object types, variable types, data types and reference types the core looks
  up by name. They occupy the first node ids of every address space.
*/
module Catalog {
  import opened Graph

  // Object types (OPC 10030, 7.6.2 ISA95ClassType and 7.6.3 ISA95ObjectType and their subtypes)
  const ISA95ClassTypeId: NodeId := 0
  const ISA95ObjectTypeId: NodeId := 1
  const EquipmentClassTypeId: NodeId := 2
  const EquipmentTypeId: NodeId := 3
  const PhysicalAssetClassTypeId: NodeId := 4
  const PhysicalAssetTypeId: NodeId := 5
  // Variable types
  const BaseDataVariableTypeId: NodeId := 6
  const CompanyTypeId: NodeId := 7
  // Data types
  const StringDataTypeId: NodeId := 8
  const CDTIdentifierId: NodeId := 9
  // Reference types
  const HasISA95ClassPropertyId: NodeId := 10
  const HasISA95PropertyId: NodeId := 11
  const HasISA95AttributeId: NodeId := 12
  const DefinedByEquipmentClassId: NodeId := 13
  const DefinedByPhysicalAssetClassId: NodeId := 14
  const MadeUpOfEquipmentId: NodeId := 15
  const MadeUpOfPhysicalAssetId: NodeId := 16
  const ImplementedById: NodeId := 17

  const CatalogSize: nat := 18

  function TypeNode(nodeClass: NodeClass, name: string, subtypeOf: Option<NodeId>): NodeInfo {
    NodeInfo(nodeClass, name, subtypeOf, None, None, Null, NoRule, "")
  }

  function ReferenceTypeNode(name: string, inverseName: string): NodeInfo {
    NodeInfo(ReferenceType, name, None, None, None, Null, NoRule, inverseName)
  }

  /** The nodes of the loaded namespace, at ids 0 .. CatalogSize - 1. */
  function CatalogNodes(): (ns: seq<NodeInfo>)
    ensures |ns| == CatalogSize
  {
    [ TypeNode(ObjectType, "ISA95ClassType", None),
      TypeNode(ObjectType, "ISA95ObjectType", None),
      TypeNode(ObjectType, "EquipmentClassType", Some(ISA95ClassTypeId)),
      TypeNode(ObjectType, "EquipmentType", Some(ISA95ObjectTypeId)),
      TypeNode(ObjectType, "PhysicalAssetClassType", Some(ISA95ClassTypeId)),
      TypeNode(ObjectType, "PhysicalAssetType", Some(ISA95ObjectTypeId)),
      TypeNode(VariableType, "BaseDataVariableType", None),
      TypeNode(VariableType, "CompanyType", Some(BaseDataVariableTypeId)),
      TypeNode(DataType, "String", None),
      TypeNode(DataType, "CDTIdentifier", None),
      ReferenceTypeNode("HasISA95ClassProperty", "ISA95ClassPropertyOf"),
      ReferenceTypeNode("HasISA95Property", "ISA95PropertyOf"),
      ReferenceTypeNode("HasISA95Attribute", "ISA95AttributeOf"),
      ReferenceTypeNode("DefinedByEquipmentClass", "Defines"),
      ReferenceTypeNode("DefinedByPhysicalAssetClass", "Defines"),
      ReferenceTypeNode("MadeUpOfEquipment", "ContainedByEquipment"),
      ReferenceTypeNode("MadeUpOfPhysicalAsset", "ContainedByPhysicalAsset"),
      ReferenceTypeNode("ImplementedBy", "ImplementationOf") ]
  }

  lemma CatalogDescending()
    ensures Descending(CatalogNodes())
  {
    var ns := CatalogNodes();
    forall i | 0 <= i < |ns| && ns[i].subtypeOf.Some? ensures ns[i].subtypeOf.value < i {
      assert i in {2, 3, 4, 5, 7};
    }
  }

  /** The first CatalogSize nodes of `nodes` are the loaded namespace. */
  ghost predicate HasCatalog(nodes: seq<NodeInfo>) {
    CatalogSize <= |nodes| && nodes[..CatalogSize] == CatalogNodes()
  }

  lemma HasCatalogAppend(nodes: seq<NodeInfo>, more: seq<NodeInfo>)
    requires HasCatalog(nodes)
    ensures HasCatalog(nodes + more)
  {
    assert (nodes + more)[..CatalogSize] == nodes[..CatalogSize];
  }

  lemma CatalogAt(nodes: seq<NodeInfo>, k: nat)
    requires HasCatalog(nodes) && k < CatalogSize
    ensures nodes[k] == CatalogNodes()[k]
  {
    assert nodes[..CatalogSize][k] == nodes[k];
  }

  // ---------------------------------------------------------------------------
  // Lookups by name

  const ObjectTypes: map<string, NodeId> := map[
    "ISA95ClassType" := ISA95ClassTypeId,
    "ISA95ObjectType" := ISA95ObjectTypeId,
    "EquipmentClassType" := EquipmentClassTypeId,
    "EquipmentType" := EquipmentTypeId,
    "PhysicalAssetClassType" := PhysicalAssetClassTypeId,
    "PhysicalAssetType" := PhysicalAssetTypeId]

  const ReferenceTypes: map<string, NodeId> := map[
    "HasISA95ClassProperty" := HasISA95ClassPropertyId,
    "HasISA95Property" := HasISA95PropertyId,
    "HasISA95Attribute" := HasISA95AttributeId,
    "DefinedByEquipmentClass" := DefinedByEquipmentClassId,
    "DefinedByPhysicalAssetClass" := DefinedByPhysicalAssetClassId,
    "MadeUpOfEquipment" := MadeUpOfEquipmentId,
    "MadeUpOfPhysicalAsset" := MadeUpOfPhysicalAssetId,
    "ImplementedBy" := ImplementedById]

  /** `addressSpace.findISA95ObjectType(name)`: the node, or null. */
  function FindISA95ObjectType(name: string): (r: Option<NodeId>)
    ensures r.Some? <==> name in ObjectTypes
    ensures r.Some? ==> r.value == ObjectTypes[name] && r.value < CatalogSize
  {
    if name in ObjectTypes then Some(ObjectTypes[name]) else None
  }

  /** `addressSpace.findISA95ReferenceType(name)`: the node, or null. */
  function FindISA95ReferenceType(name: string): (r: Option<NodeId>)
    ensures r.Some? <==> name in ReferenceTypes
    ensures r.Some? ==> r.value == ReferenceTypes[name] && r.value < CatalogSize
    ensures r.Some? ==> CatalogNodes()[r.value].nodeClass == ReferenceType
  {
    if name in ReferenceTypes then Some(ReferenceTypes[name]) else None
  }
}
