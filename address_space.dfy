/**
  The node-opcua address space as the ISA-95 core sees it: a mutable graph
  with the primitive operations the core calls (add a reference, create an
  object type, instantiate a type, add a variable, add an ISA95 property or
  attribute, clone a node). Their node-opcua internals are not part of this
  model; each primitive states only the node it creates and the references it
  adds.
*/
module Substrate {
  import opened Graph
  import opened Catalog

  /**
    A snapshot of the address space: its nodes and references in insertion order, and the
    fields the core sets on nodes. `classLists` holds the array-valued ones
    (`definedByEquipmentClass`, ...), `links` the node-valued ones (`containedByEquipment`,
    `implementationOf`, ...), both keyed by node and field name.
  */
  datatype Space = Space(
    nodes: seq<NodeInfo>,
    refs: seq<Reference>,
    classLists: map<(NodeId, string), seq<NodeId>>,
    links: map<(NodeId, string), NodeId>)

  /** Types descend, the ISA95 namespace is loaded, and every reference joins existing nodes. */
  ghost predicate WellFormed(s: Space) {
    Descending(s.nodes) && HasCatalog(s.nodes) && RefsWithin(s.refs, |s.nodes|)
  }

  /** `s` grows into `r`: no node or reference is changed or removed, they are only appended. */
  ghost predicate Extends(s: Space, r: Space) {
    |s.nodes| <= |r.nodes| && r.nodes[..|s.nodes|] == s.nodes
    && |s.refs| <= |r.refs| && r.refs[..|s.refs|] == s.refs
  }

  lemma ExtendsTransitive(a: Space, b: Space, c: Space)
    requires Extends(a, b) && Extends(b, c)
    ensures Extends(a, c)
  {
    assert c.nodes[..|a.nodes|] == c.nodes[..|b.nodes|][..|a.nodes|];
    assert c.refs[..|a.refs|] == c.refs[..|b.refs|][..|a.refs|];
  }

  /** A store that grows keeps every derivation between its old types. */
  lemma IsAGrows(s: Space, r: Space, a: NodeId, b: NodeId)
    requires WellFormed(s) && WellFormed(r) && Extends(s, r) && a < |s.nodes|
    ensures IsA(r.nodes, a, b) == IsA(s.nodes, a, b)
  {
    var more := r.nodes[|s.nodes|..];
    assert s.nodes + more == r.nodes;
    IsAExtend(s.nodes, more, a, b);
  }

  /** Appending a node with an existing supertype and references within the new bound keeps a store well formed. */
  lemma WellFormedAppend(s: Space, info: NodeInfo, extra: seq<Reference>)
    requires WellFormed(s)
    requires info.subtypeOf.Some? ==> info.subtypeOf.value < |s.nodes|
    requires RefsWithin(extra, |s.nodes| + 1)
    ensures WellFormed(s.(nodes := s.nodes + [info], refs := s.refs + extra))
  {
    DescendingAppend(s.nodes, info);
    HasCatalogAppend(s.nodes, [info]);
    var refs := s.refs + extra;
    forall i | 0 <= i < |refs|
      ensures refs[i].source <= |s.nodes| && refs[i].referenceType <= |s.nodes| && refs[i].target <= |s.nodes|
    {
      if i < |s.refs| { assert refs[i] == s.refs[i]; } else { assert refs[i] == extra[i - |s.refs|]; }
    }
  }

  /** Adding a reference between existing nodes keeps a store well formed. */
  lemma WellFormedLink(s: Space, r: Reference)
    requires WellFormed(s)
    requires r.source < |s.nodes| && r.referenceType < |s.nodes| && r.target < |s.nodes|
    ensures WellFormed(s.(refs := s.refs + [r]))
  {
    var refs := s.refs + [r];
    forall i | 0 <= i < |refs|
      ensures refs[i].source < |s.nodes| && refs[i].referenceType < |s.nodes| && refs[i].target < |s.nodes|
    {
      if i < |s.refs| { assert refs[i] == s.refs[i]; }
    }
  }

  /** A fresh variable `info` linked from `of` by a forward HasISA95Attribute reference. */
  function WithAttribute(s: Space, of: NodeId, info: NodeInfo): (r: Space)
    requires WellFormed(s) && of < |s.nodes| && info.subtypeOf.None?
    ensures WellFormed(r) && Extends(s, r)
    ensures r.classLists == s.classLists && r.links == s.links
  {
    WellFormedAppend(s, info, [Reference(of, HasISA95AttributeId, |s.nodes|, true)]);
    s.(nodes := s.nodes + [info], refs := s.refs + [Reference(of, HasISA95AttributeId, |s.nodes|, true)])
  }

  /** The attribute is the new last node, and browsing `of` by HasISA95Attribute reaches it last. */
  lemma AttributeReadsBack(s: Space, of: NodeId, info: NodeInfo)
    requires WellFormed(s) && of < |s.nodes| && info.subtypeOf.None?
    ensures var r := WithAttribute(s, of, info);
            && r.nodes == s.nodes + [info]
            && FindObjects(r.refs, of, HasISA95AttributeId, true)
               == FindObjects(s.refs, of, HasISA95AttributeId, true) + [|s.nodes|]
  {
    FindObjectsSnocOwn(s.refs, of, HasISA95AttributeId, |s.nodes|, true);
  }

  /** Browses through any reference type other than HasISA95Attribute do not see a new attribute. */
  lemma AttributeUnseen(s: Space, of: NodeId, info: NodeInfo)
    requires WellFormed(s) && of < |s.nodes| && info.subtypeOf.None?
    ensures forall n, t, forward | t != HasISA95AttributeId ::
              FindObjects(WithAttribute(s, of, info).refs, n, t, forward) == FindObjects(s.refs, n, t, forward)
  {
    forall n, t, forward | t != HasISA95AttributeId
      ensures FindObjects(WithAttribute(s, of, info).refs, n, t, forward) == FindObjects(s.refs, n, t, forward)
    {
      FindObjectsSnocUnseen(s.refs, Reference(of, HasISA95AttributeId, |s.nodes|, true), n, t, forward);
    }
  }

  /** A fresh node `info` whose supertype, if any, exists, with no reference to it. */
  function WithNode(s: Space, info: NodeInfo): (r: Space)
    requires WellFormed(s) && (info.subtypeOf.Some? ==> info.subtypeOf.value < |s.nodes|)
    ensures WellFormed(r) && Extends(s, r)
    ensures r.refs == s.refs && r.classLists == s.classLists && r.links == s.links
  {
    WellFormedAppend(s, info, []);
    assert s.refs + [] == s.refs;
    s.(nodes := s.nodes + [info])
  }

  function ObjectNode(browseName: string, typeDefinition: NodeId): NodeInfo {
    NodeInfo(Object, browseName, None, Some(typeDefinition), None, Null, NoRule, "")
  }

  function VariableNode(browseName: string, typeDefinition: Option<NodeId>, dataType: Option<NodeId>,
                        value: Variant, modellingRule: ModellingRule): NodeInfo
  {
    NodeInfo(Variable, browseName, None, typeDefinition, dataType, value, modellingRule, "")
  }

  class AddressSpace {
    var nodes: seq<NodeInfo>
    var references: seq<Reference>
    var classLists: map<(NodeId, string), seq<NodeId>>
    var links: map<(NodeId, string), NodeId>

    ghost function Snapshot(): Space
      reads this
    {
      Space(nodes, references, classLists, links)
    }

    ghost predicate Valid()
      reads this
    {
      WellFormed(Snapshot())
    }

    /** An address space holding the loaded ISA95 namespace and nothing else. */
    constructor ()
      ensures Valid()
      ensures nodes == CatalogNodes() && references == [] && classLists == map[] && links == map[]
    {
      nodes := CatalogNodes();
      references := [];
      classLists := map[];
      links := map[];
      CatalogDescending();
      assert CatalogNodes()[..CatalogSize] == CatalogNodes();
    }

    /** `source.addReference({referenceType, nodeId: target, isForward})`; duplicates are kept. */
    method AddReference(source: NodeId, referenceType: NodeId, target: NodeId, isForward: bool)
      requires Valid()
      requires source < |nodes| && referenceType < |nodes| && target < |nodes|
      modifies this
      ensures Valid()
      ensures references == old(references) + [Reference(source, referenceType, target, isForward)]
      ensures nodes == old(nodes) && classLists == old(classLists) && links == old(links)
    {
      WellFormedLink(Snapshot(), Reference(source, referenceType, target, isForward));
      references := references + [Reference(source, referenceType, target, isForward)];
    }

    /** `addObjectType({browseName, subtypeOf})`: a fresh object type whose direct supertype is `subtypeOf`. */
    method AddObjectType(browseName: string, subtypeOf: NodeId) returns (t: NodeId)
      requires Valid() && subtypeOf < |nodes|
      modifies this
      ensures Valid()
      ensures t == |old(nodes)|
      ensures nodes == old(nodes) + [TypeNode(ObjectType, browseName, Some(subtypeOf))]
      ensures references == old(references) && classLists == old(classLists) && links == old(links)
    {
      t := |nodes|;
      WellFormedAppend(Snapshot(), TypeNode(ObjectType, browseName, Some(subtypeOf)), []);
      nodes := nodes + [TypeNode(ObjectType, browseName, Some(subtypeOf))];
    }

    /** `typeDefinition.instantiate({browseName})`: a fresh object of that type. Child nodes are not modelled. */
    method Instantiate(typeDefinition: NodeId, browseName: string) returns (n: NodeId)
      requires Valid() && typeDefinition < |nodes|
      modifies this
      ensures Valid()
      ensures n == |old(nodes)|
      ensures nodes == old(nodes) + [ObjectNode(browseName, typeDefinition)]
      ensures references == old(references) && classLists == old(classLists) && links == old(links)
    {
      n := |nodes|;
      WellFormedAppend(Snapshot(), ObjectNode(browseName, typeDefinition), []);
      nodes := nodes + [ObjectNode(browseName, typeDefinition)];
    }

    /** `addVariable({typeDefinition, browseName, dataType, value})`: a fresh variable, linked to nothing. */
    method AddVariable(browseName: string, typeDefinition: NodeId, dataType: Option<NodeId>, value: Variant)
      returns (v: NodeId)
      requires Valid()
      modifies this
      ensures Valid()
      ensures v == |old(nodes)|
      ensures nodes == old(nodes) + [VariableNode(browseName, Some(typeDefinition), dataType, value, NoRule)]
      ensures references == old(references) && classLists == old(classLists) && links == old(links)
    {
      var info := VariableNode(browseName, Some(typeDefinition), dataType, value, NoRule);
      v := |nodes|;
      WellFormedAppend(Snapshot(), info, []);
      nodes := nodes + [info];
    }

    /** `addISA95Property({ISA95PropertyOf: of, ...})`: a fresh variable linked from `of` by HasISA95Property. */
    method AddISA95Property(of: NodeId, browseName: string, dataType: Option<NodeId>, value: Variant,
                            typeDefinition: Option<NodeId>) returns (p: NodeId)
      requires Valid() && of < |nodes|
      modifies this
      ensures Valid()
      ensures p == |old(nodes)|
      ensures nodes == old(nodes) + [VariableNode(browseName, typeDefinition, dataType, value, NoRule)]
      ensures references == old(references) + [Reference(of, HasISA95PropertyId, p, true)]
      ensures classLists == old(classLists) && links == old(links)
    {
      var info := VariableNode(browseName, typeDefinition, dataType, value, NoRule);
      p := |nodes|;
      WellFormedAppend(Snapshot(), info, [Reference(of, HasISA95PropertyId, p, true)]);
      nodes := nodes + [info];
      references := references + [Reference(of, HasISA95PropertyId, p, true)];
    }

    /** `addISA95Attribute({ISA95AttributeOf: of, ...})`: a fresh variable linked from `of` by HasISA95Attribute. */
    method AddISA95Attribute(of: NodeId, browseName: string, dataType: Option<NodeId>, value: Variant,
                             typeDefinition: Option<NodeId>, modellingRule: ModellingRule) returns (a: NodeId)
      requires Valid() && of < |nodes|
      modifies this
      ensures Valid()
      ensures a == |old(nodes)|
      ensures nodes == old(nodes) + [VariableNode(browseName, typeDefinition, dataType, value, modellingRule)]
      ensures references == old(references) + [Reference(of, HasISA95AttributeId, a, true)]
      ensures classLists == old(classLists) && links == old(links)
    {
      var info := VariableNode(browseName, typeDefinition, dataType, value, modellingRule);
      a := |nodes|;
      WellFormedAppend(Snapshot(), info, [Reference(of, HasISA95AttributeId, a, true)]);
      nodes := nodes + [info];
      references := references + [Reference(of, HasISA95AttributeId, a, true)];
    }

    /** `node.clone()`: a fresh node holding a copy of what `n` stores. */
    method Clone(n: NodeId) returns (c: NodeId)
      requires Valid() && n < |nodes|
      modifies this
      ensures Valid()
      ensures c == |old(nodes)|
      ensures nodes == old(nodes) + [old(nodes[n])]
      ensures references == old(references) && classLists == old(classLists) && links == old(links)
    {
      var info := nodes[n];
      c := |nodes|;
      WellFormedAppend(Snapshot(), info, []);
      nodes := nodes + [info];
    }
  }
}
