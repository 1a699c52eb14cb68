/**
  The ISA-95 class-composition and containment routines shared by the
  Equipment and PhysicalAsset builders:
  - class membership: a node is "defined by" an ordered list of class types,
    each checked against a base class type, recorded as one DefinedBy...
    reference and one entry of the node's `definedBy...Class` array;
  - propagation: the class properties and attributes of a class are copied
    onto the node as fresh nodes;
  - containment: a child points at its parent with an inverse MadeUpOf...
    reference and a `containedBy...` parent field.
*/
module ISA95Utils {
  import opened Graph
  import opened Catalog
  import opened Substrate

  /** An argument given either as a symbolic name or as an already-resolved node. */
  datatype NameOrNode = Name(name: string) | Node(id: NodeId)

  /** The `definedByFooClass` argument: a class type name, one class node, or an array of class nodes. */
  datatype ClassArg = ClassName(name: string) | ClassNode(id: NodeId) | ClassArray(ids: seq<NodeId>)

  // ---------------------------------------------------------------------------
  // Coercion

  /** `_coerceISA95ReferenceType`: a node is returned unchanged, a name is looked up and must exist. */
  function CoerceISA95ReferenceType(obj: NameOrNode): (r: Result<NodeId>)
    ensures obj.Node? ==> r == Success(obj.id)
    ensures obj.Name? ==> (r.Success? <==> obj.name in ReferenceTypes)
    ensures obj.Name? && r.Success? ==> r.value == ReferenceTypes[obj.name]
    ensures obj.Name? && r.Failure? ==> r.error == UnknownType(obj.name)
  {
    match obj
    case Node(id) => Success(id)
    case Name(name) =>
      var found := FindISA95ReferenceType(name);
      if found.Some? then Success(found.value) else Failure(UnknownType(name))
  }

  /** `_coerceISA95ObjectType`: a node is returned unchanged, a name is looked up and must exist. */
  function CoerceISA95ObjectType(obj: NameOrNode): (r: Result<NodeId>)
    ensures obj.Node? ==> r == Success(obj.id)
    ensures obj.Name? ==> (r.Success? <==> obj.name in ObjectTypes)
    ensures obj.Name? && r.Success? ==> r.value == ObjectTypes[obj.name]
    ensures obj.Name? && r.Failure? ==> r.error == UnknownType(obj.name)
  {
    match obj
    case Node(id) => Success(id)
    case Name(name) =>
      var found := FindISA95ObjectType(name);
      if found.Some? then Success(found.value) else Failure(UnknownType(name))
  }

  /** The class list of `installDefinedByFooClassReferences`: a name is resolved, a single class is wrapped. */
  function CoerceClasses(arg: ClassArg): (r: Result<seq<NodeId>>)
    ensures arg.ClassName? ==> (r.Success? <==> arg.name in ObjectTypes)
    ensures arg.ClassName? && r.Success? ==> r.value == [ObjectTypes[arg.name]]
    ensures arg.ClassName? && r.Failure? ==> r.error == UnknownType(arg.name)
    ensures arg.ClassNode? ==> r == Success([arg.id])
    ensures arg.ClassArray? ==> r == Success(arg.ids)
  {
    match arg
    case ClassName(name) =>
      var found := FindISA95ObjectType(name);
      if found.Some? then Success([found.value]) else Failure(UnknownType(name))
    case ClassNode(id) => Success([id])
    case ClassArray(ids) => Success(ids)
  }

  /** Every class node the argument names belongs to an address space of `bound` nodes. */
  predicate ClassArgWithin(arg: ClassArg, bound: nat) {
    match arg
    case ClassName(_) => CatalogSize <= bound
    case ClassNode(id) => id < bound
    case ClassArray(ids) => AllBelow(ids, bound)
  }

  // ---------------------------------------------------------------------------
  // Array-valued fields

  /** The array stored in field `key`, or [] when the field is absent. */
  function ListField(fields: map<(NodeId, string), seq<NodeId>>, key: (NodeId, string)): seq<NodeId> {
    if key in fields then fields[key] else []
  }

  /**
    `if (!node[field]) node[field] = []; node[field].push(item)` for each of `items` in order:
    the field is only created when something is pushed.
  */
  function PushAll(fields: map<(NodeId, string), seq<NodeId>>, key: (NodeId, string), items: seq<NodeId>)
    : (r: map<(NodeId, string), seq<NodeId>>)
    ensures ListField(r, key) == ListField(fields, key) + items
    ensures forall k :: k != key ==> (k in r <==> k in fields) && (k in r ==> r[k] == fields[k])
  {
    if items == [] then fields else fields[key := ListField(fields, key) + items]
  }

  /** Pushing `a` and then `b` is pushing `a + b`. */
  lemma PushAllAppend(fields: map<(NodeId, string), seq<NodeId>>, key: (NodeId, string), a: seq<NodeId>, b: seq<NodeId>)
    ensures PushAll(PushAll(fields, key, a), key, b) == PushAll(fields, key, a + b)
  {
    var v := ListField(fields, key) + (a + b);
    assert ListField(fields, key) + a + b == v;
    if a == [] {
      assert a + b == b;
    } else if b == [] {
      assert a + b == a;
    } else {
      assert fields[key := ListField(fields, key) + a][key := v] == fields[key := v];
    }
  }

  // ---------------------------------------------------------------------------
  // _addDefinedByFooClassReference

  /** The base class type coerces and `classType` is that type or derives from it. */
  predicate AcceptsClass(nodes: seq<NodeInfo>, fooClassType: NameOrNode, classType: NodeId)
    requires Descending(nodes)
  {
    var base := CoerceISA95ObjectType(fooClassType);
    base.Success? && IsA(nodes, classType, base.value)
  }

  /**
    Checks that `classType` is a FooClassType, then adds one forward FooClassReference reference
    `instance -> classType` and appends `classType` to `instance[lowerFirstLetter(FooClassReference)]`.
    Every check precedes every change, so a refused call changes nothing.
  */
  method AddDefinedByFooClassReference(g: AddressSpace, instance: NodeId, fooClassReference: string,
                                       fooClassType: NameOrNode, classType: NodeId) returns (o: Outcome)
    requires g.Valid() && instance < |g.nodes| && classType < |g.nodes|
    modifies g
    ensures g.Valid()
    ensures g.nodes == old(g.nodes) && g.links == old(g.links)
    ensures o.Pass? <==> fooClassReference in ReferenceTypes && AcceptsClass(g.nodes, fooClassType, classType)
    ensures fooClassReference !in ReferenceTypes ==> o == Fail(UnknownType(fooClassReference))
    ensures o.Fail? ==> g.references == old(g.references) && g.classLists == old(g.classLists)
    ensures o.Pass? ==>
      && g.references == old(g.references) + [Reference(instance, ReferenceTypes[fooClassReference], classType, true)]
      && g.classLists == PushAll(old(g.classLists), (instance, LowerFirstLetter(fooClassReference)), [classType])
  {
    var definedByFooClass := CoerceISA95ReferenceType(Name(fooClassReference));
    if definedByFooClass.Failure? {
      return Fail(definedByFooClass.error);
    }
    var fooClass := CoerceISA95ObjectType(fooClassType);
    if fooClass.Failure? {
      return Fail(fooClass.error);
    }
    if !IsA(g.nodes, classType, fooClass.value) {
      return Fail(NotASubtype(classType, fooClass.value));
    }
    g.AddReference(instance, definedByFooClass.value, classType, true);
    var attribute := LowerFirstLetter(fooClassReference);
    g.classLists := g.classLists[(instance, attribute) := ListField(g.classLists, (instance, attribute)) + [classType]];
    o := Pass;
  }


  // ---------------------------------------------------------------------------
  // installDefinedByFooClassReferences

  /** A class whose modelling rule is OptionalPlaceholder; the membership loop skips it. */
  predicate IsPlaceholder(nodes: seq<NodeInfo>, c: NodeId) {
    c < |nodes| && nodes[c].modellingRule == OptionalPlaceholder
  }

  /**
    Why the membership loop refuses class `c`, in the order the source finds out: the base class
    type did not resolve, `c` fails the subtype gate, or the reference type name did not resolve.
  */
  function Refusal(nodes: seq<NodeInfo>, c: NodeId, base: Result<NodeId>, refType: Result<NodeId>): Option<Error>
    requires Descending(nodes)
  {
    if base.Failure? then Some(base.error)
    else if !IsA(nodes, c, base.value) then Some(NotASubtype(c, base.value))
    else if refType.Failure? then Some(refType.error)
    else None
  }

  /** The classes the membership loop has committed so far, and the error that stopped it, if one did. */
  datatype Plan = Plan(accepted: seq<NodeId>, failure: Option<Error>)

  function InstallStep(nodes: seq<NodeInfo>, p: Plan, c: NodeId, base: Result<NodeId>, refType: Result<NodeId>): Plan
    requires Descending(nodes)
  {
    if p.failure.Some? || IsPlaceholder(nodes, c) then p
    else match Refusal(nodes, c, base, refType)
      case Some(e) => Plan(p.accepted, Some(e))
      case None => Plan(p.accepted + [c], None)
  }

  /** The effect of the `forEach` over the class list, as a left fold over the classes in input order. */
  function InstallPlan(nodes: seq<NodeInfo>, classes: seq<NodeId>, base: Result<NodeId>, refType: Result<NodeId>)
    : (p: Plan)
    requires Descending(nodes)
    ensures |p.accepted| <= |classes|
    ensures forall c <- p.accepted :: c in classes && !IsPlaceholder(nodes, c) && Refusal(nodes, c, base, refType).None?
    decreases |classes|
  {
    if classes == [] then Plan([], None)
    else
      var init := classes[..|classes| - 1];
      assert forall x <- init :: x in classes;
      InstallStep(nodes, InstallPlan(nodes, init, base, refType), classes[|classes| - 1], base, refType)
  }

  lemma InstallPlanSnoc(nodes: seq<NodeInfo>, classes: seq<NodeId>, i: nat, base: Result<NodeId>, refType: Result<NodeId>)
    requires Descending(nodes) && i < |classes|
    ensures InstallPlan(nodes, classes[..i + 1], base, refType)
         == InstallStep(nodes, InstallPlan(nodes, classes[..i], base, refType), classes[i], base, refType)
  {
    assert classes[..i + 1][..i] == classes[..i];
  }

  /** The classes of the list that are not placeholders, in order. */
  function NonPlaceholders(nodes: seq<NodeInfo>, classes: seq<NodeId>): seq<NodeId>
    decreases |classes|
  {
    if classes == [] then []
    else
      var c := classes[|classes| - 1];
      NonPlaceholders(nodes, classes[..|classes| - 1]) + (if IsPlaceholder(nodes, c) then [] else [c])
  }

  /** Every class of the list is a placeholder or passes every check. */
  ghost predicate AllPass(nodes: seq<NodeInfo>, classes: seq<NodeId>, base: Result<NodeId>, refType: Result<NodeId>)
    requires Descending(nodes)
  {
    forall c <- classes :: IsPlaceholder(nodes, c) || Refusal(nodes, c, base, refType).None?
  }

  /** The loop runs to completion exactly when every class passes, and then it has committed every non-placeholder class. */
  lemma {:induction false} InstallPlanCompletes(nodes: seq<NodeInfo>, classes: seq<NodeId>, base: Result<NodeId>,
                                                refType: Result<NodeId>)
    requires Descending(nodes)
    ensures InstallPlan(nodes, classes, base, refType).failure.None? <==> AllPass(nodes, classes, base, refType)
    ensures AllPass(nodes, classes, base, refType) ==>
              InstallPlan(nodes, classes, base, refType).accepted == NonPlaceholders(nodes, classes)
    decreases |classes|
  {
    if classes != [] {
      var init := classes[..|classes| - 1];
      var c := classes[|classes| - 1];
      assert classes == init + [c];
      InstallPlanCompletes(nodes, init, base, refType);
      assert AllPass(nodes, classes, base, refType) <==>
        AllPass(nodes, init, base, refType) && (IsPlaceholder(nodes, c) || Refusal(nodes, c, base, refType).None?);
    }
  }

  /** Once a class has been refused, the classes after it change nothing. */
  lemma {:induction false} InstallPlanStops(nodes: seq<NodeInfo>, classes: seq<NodeId>, k: nat, base: Result<NodeId>,
                                            refType: Result<NodeId>)
    requires Descending(nodes) && k <= |classes|
    requires InstallPlan(nodes, classes[..k], base, refType).failure.Some?
    ensures InstallPlan(nodes, classes, base, refType) == InstallPlan(nodes, classes[..k], base, refType)
    decreases |classes|
  {
    if k < |classes| {
      var init := classes[..|classes| - 1];
      assert init[..k] == classes[..k];
      InstallPlanStops(nodes, init, k, base, refType);
    } else {
      assert classes[..k] == classes;
    }
  }

  /** What the loop commits for a prefix of the list stays committed, whatever follows. */
  lemma {:induction false} InstallPlanCommitted(nodes: seq<NodeInfo>, classes: seq<NodeId>, k: nat, base: Result<NodeId>,
                                                refType: Result<NodeId>)
    requires Descending(nodes) && k <= |classes|
    ensures InstallPlan(nodes, classes[..k], base, refType).accepted <= InstallPlan(nodes, classes, base, refType).accepted
    decreases |classes|
  {
    if k < |classes| {
      var init := classes[..|classes| - 1];
      assert init[..k] == classes[..k];
      InstallPlanCommitted(nodes, init, k, base, refType);
    } else {
      assert classes[..k] == classes;
    }
  }

  /**
    When class `k` is the first one refused, the loop reports its refusal and has committed exactly
    the non-placeholder classes before it.
  */
  lemma InstallPlanFirstRefusal(nodes: seq<NodeInfo>, classes: seq<NodeId>, k: nat, base: Result<NodeId>,
                                refType: Result<NodeId>)
    requires Descending(nodes) && k < |classes|
    requires AllPass(nodes, classes[..k], base, refType)
    requires !IsPlaceholder(nodes, classes[k]) && Refusal(nodes, classes[k], base, refType).Some?
    ensures InstallPlan(nodes, classes, base, refType)
         == Plan(NonPlaceholders(nodes, classes[..k]), Refusal(nodes, classes[k], base, refType))
  {
    InstallPlanCompletes(nodes, classes[..k], base, refType);
    InstallPlanSnoc(nodes, classes, k, base, refType);
    InstallPlanStops(nodes, classes, k + 1, base, refType);
  }

  /** One forward membership reference `node -> c` per committed class, in order. */
  function MembershipReferences(node: NodeId, refType: Result<NodeId>, classes: seq<NodeId>): seq<Reference> {
    if refType.Failure? then []
    else seq(|classes|, i requires 0 <= i < |classes| => Reference(node, refType.value, classes[i], true))
  }

  lemma MembershipReferencesSnoc(node: NodeId, refType: Result<NodeId>, classes: seq<NodeId>, c: NodeId)
    requires refType.Success?
    ensures MembershipReferences(node, refType, classes + [c])
         == MembershipReferences(node, refType, classes) + [Reference(node, refType.value, c, true)]
  {
  }

  lemma MembershipReferencesAppend(node: NodeId, refType: Result<NodeId>, a: seq<NodeId>, b: seq<NodeId>)
    ensures MembershipReferences(node, refType, a + b)
         == MembershipReferences(node, refType, a) + MembershipReferences(node, refType, b)
  {
  }

  /** Browsing the membership references from the node gives back the classes, in order. */
  lemma {:induction false} MembershipReadsBack(node: NodeId, refType: Result<NodeId>, classes: seq<NodeId>)
    requires refType.Success?
    ensures FindObjects(MembershipReferences(node, refType, classes), node, refType.value, true) == classes
    decreases |classes|
  {
    if classes != [] {
      var init := classes[..|classes| - 1];
      var c := classes[|classes| - 1];
      assert classes == init + [c];
      MembershipReferencesSnoc(node, refType, init, c);
      MembershipReadsBack(node, refType, init);
      FindReferencesSnoc(MembershipReferences(node, refType, init), Reference(node, refType.value, c, true),
                         node, refType.value, true);
      ObjectsAppend(FindReferences(MembershipReferences(node, refType, init), node, refType.value, true),
                    [Link(refType.value, c)]);
    }
  }

  /** What a step of the core returns: the new address space and whether it threw. */
  datatype Step = Step(space: Space, outcome: Outcome)

  /** The field an installation appends to: `lowerFirstLetter(definedByFooClassRef)` on the node. */
  function MembershipField(node: NodeId, definedByFooClassRef: string): (NodeId, string) {
    (node, LowerFirstLetter(definedByFooClassRef))
  }

  /** `s` with the membership of `node` in `classes` recorded: one reference per class, and the classes pushed onto the array field. */
  function WithMembership(s: Space, node: NodeId, definedByFooClassRef: string, classes: seq<NodeId>): Space {
    s.(refs := s.refs + MembershipReferences(node, CoerceISA95ReferenceType(Name(definedByFooClassRef)), classes),
       classLists := PushAll(s.classLists, MembershipField(node, definedByFooClassRef), classes))
  }

  lemma WithMembershipAppend(s: Space, node: NodeId, definedByFooClassRef: string, a: seq<NodeId>, b: seq<NodeId>)
    ensures WithMembership(WithMembership(s, node, definedByFooClassRef, a), node, definedByFooClassRef, b)
         == WithMembership(s, node, definedByFooClassRef, a + b)
  {
    var refType := CoerceISA95ReferenceType(Name(definedByFooClassRef));
    MembershipReferencesAppend(node, refType, a, b);
    PushAllAppend(s.classLists, MembershipField(node, definedByFooClassRef), a, b);
    assert s.refs + MembershipReferences(node, refType, a) + MembershipReferences(node, refType, b)
        == s.refs + (MembershipReferences(node, refType, a) + MembershipReferences(node, refType, b));
  }

  /** The whole of `installDefinedByFooClassReferences` on the address space `s`. */
  function InstallEffect(s: Space, node: NodeId, definedByFooClass: ClassArg, fooClassType: NameOrNode,
                         definedByFooClassRef: string): Step
    requires WellFormed(s)
  {
    var classes := CoerceClasses(definedByFooClass);
    if classes.Failure? then Step(s, Fail(classes.error))
    else
      var refType := CoerceISA95ReferenceType(Name(definedByFooClassRef));
      var p := InstallPlan(s.nodes, classes.value, CoerceISA95ObjectType(fooClassType), refType);
      Step(WithMembership(s, node, definedByFooClassRef, p.accepted),
           if p.failure.Some? then Fail(p.failure.value) else Pass)
  }

  /**
    An installation that passes has added every non-placeholder class once, in input order: the
    node's membership array and its forward membership references both read back the classes.
    Nothing but references and that one field changes.
  */
  lemma InstallPasses(s: Space, node: NodeId, definedByFooClass: ClassArg, fooClassType: NameOrNode,
                      definedByFooClassRef: string)
    requires WellFormed(s) && CoerceClasses(definedByFooClass).Success?
    ensures var st := InstallEffect(s, node, definedByFooClass, fooClassType, definedByFooClassRef);
            var classes := CoerceClasses(definedByFooClass).value;
            var base := CoerceISA95ObjectType(fooClassType);
            var refType := CoerceISA95ReferenceType(Name(definedByFooClassRef));
            && st.space.nodes == s.nodes && st.space.links == s.links
            && (st.outcome.Pass? <==> AllPass(s.nodes, classes, base, refType))
            && (st.outcome.Pass? ==>
                  && ListField(st.space.classLists, MembershipField(node, definedByFooClassRef))
                     == ListField(s.classLists, MembershipField(node, definedByFooClassRef)) + NonPlaceholders(s.nodes, classes)
                  && (refType.Success? ==>
                        FindObjects(st.space.refs, node, refType.value, true)
                        == FindObjects(s.refs, node, refType.value, true) + NonPlaceholders(s.nodes, classes)))
  {
    var classes := CoerceClasses(definedByFooClass).value;
    var base := CoerceISA95ObjectType(fooClassType);
    var refType := CoerceISA95ReferenceType(Name(definedByFooClassRef));
    var p := InstallPlan(s.nodes, classes, base, refType);
    InstallPlanCompletes(s.nodes, classes, base, refType);
    if refType.Success? {
      FindObjectsAppend(s.refs, MembershipReferences(node, refType, p.accepted), node, refType.value, true);
      MembershipReadsBack(node, refType, p.accepted);
    }
  }

  /**
    An installation whose class `k` is the first refused throws that refusal, and the classes before
    it stay committed to the membership array.
  */
  lemma InstallFails(s: Space, node: NodeId, definedByFooClass: ClassArg, fooClassType: NameOrNode,
                     definedByFooClassRef: string, k: nat)
    requires WellFormed(s) && CoerceClasses(definedByFooClass).Success?
    requires var classes := CoerceClasses(definedByFooClass).value;
             var base := CoerceISA95ObjectType(fooClassType);
             var refType := CoerceISA95ReferenceType(Name(definedByFooClassRef));
             && k < |classes| && AllPass(s.nodes, classes[..k], base, refType)
             && !IsPlaceholder(s.nodes, classes[k]) && Refusal(s.nodes, classes[k], base, refType).Some?
    ensures var st := InstallEffect(s, node, definedByFooClass, fooClassType, definedByFooClassRef);
            var classes := CoerceClasses(definedByFooClass).value;
            var base := CoerceISA95ObjectType(fooClassType);
            var refType := CoerceISA95ReferenceType(Name(definedByFooClassRef));
            && st.outcome == Fail(Refusal(s.nodes, classes[k], base, refType).value)
            && ListField(st.space.classLists, MembershipField(node, definedByFooClassRef))
               == ListField(s.classLists, MembershipField(node, definedByFooClassRef)) + NonPlaceholders(s.nodes, classes[..k])
  {
    var classes := CoerceClasses(definedByFooClass).value;
    InstallPlanFirstRefusal(s.nodes, classes, k, CoerceISA95ObjectType(fooClassType),
                            CoerceISA95ReferenceType(Name(definedByFooClassRef)));
  }

  /** Membership references are of the membership type only: browsing any other type sees none of them. */
  lemma {:induction false} MembershipUnseen(node: NodeId, refType: Result<NodeId>, classes: seq<NodeId>,
                                            n: NodeId, t: NodeId, forward: bool)
    requires refType.Failure? || refType.value != t
    ensures FindObjects(MembershipReferences(node, refType, classes), n, t, forward) == []
    decreases |classes|
  {
    if refType.Success? && classes != [] {
      var init := classes[..|classes| - 1];
      var last := classes[|classes| - 1];
      assert init + [last] == classes;
      MembershipUnseen(node, refType, init, n, t, forward);
      MembershipReferencesSnoc(node, refType, init, last);
      FindObjectsSnocUnseen(MembershipReferences(node, refType, init), Reference(node, refType.value, last, true), n, t, forward);
    }
  }

  /**
    Installing existing classes on an existing node keeps the store well formed, touches no node
    and no node-valued field, and leaves every browse through another reference type as it was.
  */
  lemma InstallWellFormed(s: Space, node: NodeId, definedByFooClass: ClassArg, fooClassType: NameOrNode,
                          definedByFooClassRef: string)
    requires WellFormed(s) && node < |s.nodes| && ClassArgWithin(definedByFooClass, |s.nodes|)
    ensures var st := InstallEffect(s, node, definedByFooClass, fooClassType, definedByFooClassRef);
            && WellFormed(st.space) && Extends(s, st.space)
            && st.space.nodes == s.nodes && st.space.links == s.links
            && (forall n, t, forward | definedByFooClassRef !in ReferenceTypes || t != ReferenceTypes[definedByFooClassRef]
                  :: FindObjects(st.space.refs, n, t, forward) == FindObjects(s.refs, n, t, forward))
  {
    var classes := CoerceClasses(definedByFooClass);
    if classes.Success? {
      var refType := CoerceISA95ReferenceType(Name(definedByFooClassRef));
      var p := InstallPlan(s.nodes, classes.value, CoerceISA95ObjectType(fooClassType), refType);
      var extra := MembershipReferences(node, refType, p.accepted);
      var r := WithMembership(s, node, definedByFooClassRef, p.accepted);
      assert r.refs == s.refs + extra;
      assert AllBelow(classes.value, |s.nodes|) by {
        if definedByFooClass.ClassName? { assert classes.value == [ObjectTypes[definedByFooClass.name]]; }
      }
      forall i | 0 <= i < |r.refs|
        ensures r.refs[i].source < |s.nodes| && r.refs[i].referenceType < |s.nodes| && r.refs[i].target < |s.nodes|
      {
        if i < |s.refs| {
          assert r.refs[i] == s.refs[i];
        } else {
          var k := i - |s.refs|;
          assert r.refs[i] == extra[k];
          assert p.accepted[k] in p.accepted;
          var j :| 0 <= j < |classes.value| && classes.value[j] == p.accepted[k];
          assert FindISA95ReferenceType(definedByFooClassRef).Some?;
        }
      }
      assert r.refs[..|s.refs|] == s.refs;
      forall n, t, forward | definedByFooClassRef !in ReferenceTypes || t != ReferenceTypes[definedByFooClassRef]
        ensures FindObjects(r.refs, n, t, forward) == FindObjects(s.refs, n, t, forward)
      {
        FindObjectsAppend(s.refs, extra, n, t, forward);
        MembershipUnseen(node, refType, p.accepted, n, t, forward);
        assert FindObjects(s.refs, n, t, forward) + [] == FindObjects(s.refs, n, t, forward);
      }
    }
  }

  /** What one turn of the loop does to a run that has not stopped. */
  function Turn(nodes: seq<NodeInfo>, c: NodeId, base: Result<NodeId>, definedByFooClassRef: string): Plan
    requires Descending(nodes)
  {
    InstallStep(nodes, Plan([], None), c, base, CoerceISA95ReferenceType(Name(definedByFooClassRef)))
  }

  /** One turn of the `forEach`: skip a placeholder, check the class, then add its membership. */
  method InstallOne(g: AddressSpace, node: NodeId, c: NodeId, base: Result<NodeId>, definedByFooClassRef: string)
    returns (o: Outcome)
    requires g.Valid() && node < |g.nodes| && c < |g.nodes|
    modifies g
    ensures g.Valid()
    ensures g.Snapshot() == WithMembership(old(g.Snapshot()), node, definedByFooClassRef, Turn(g.nodes, c, base, definedByFooClassRef).accepted)
    ensures o == (if Turn(g.nodes, c, base, definedByFooClassRef).failure.Some?
                  then Fail(Turn(g.nodes, c, base, definedByFooClassRef).failure.value) else Pass)
  {
    ghost var refType := CoerceISA95ReferenceType(Name(definedByFooClassRef));
    ghost var key := MembershipField(node, definedByFooClassRef);
    if IsPlaceholder(g.nodes, c) || base.Failure? || !IsA(g.nodes, c, base.value) {
      assert MembershipReferences(node, refType, []) == [];
      assert g.references + [] == g.references;
      assert PushAll(g.classLists, key, []) == g.classLists;
      if IsPlaceholder(g.nodes, c) {
        return Pass;
      } else if base.Failure? {
        return Fail(base.error);
      } else {
        return Fail(NotASubtype(c, base.value));
      }
    }
    o := AddDefinedByFooClassReference(g, node, definedByFooClassRef, Node(base.value), c);
    assert old(g.references) + [] == old(g.references);
    assert PushAll(old(g.classLists), key, []) == old(g.classLists);
    if o.Pass? {
      assert [] + [c] == [c];
      assert Turn(g.nodes, c, base, definedByFooClassRef).accepted == [c];
      assert MembershipReferences(node, refType, [c]) == [Reference(node, refType.value, c, true)];
    }
  }

  /** A turn of the loop depends on what came before only through whether it has stopped. */
  lemma TurnShift(nodes: seq<NodeInfo>, accepted: seq<NodeId>, c: NodeId, base: Result<NodeId>, definedByFooClassRef: string)
    requires Descending(nodes)
    ensures var q := Turn(nodes, c, base, definedByFooClassRef);
            && (q.failure.Some? ==> q.accepted == [])
            && InstallStep(nodes, Plan(accepted, None), c, base, CoerceISA95ReferenceType(Name(definedByFooClassRef)))
               == Plan(accepted + q.accepted, q.failure)
  {
    assert accepted + [] == accepted;
    assert [] + [c] == [c];
  }

  /** One turn of that `forEach`, seen from the plan and from the space: a failing turn ends the plan where it is. */
  lemma InstallAdvance(s0: Space, nodes: seq<NodeInfo>, node: NodeId, classes: seq<NodeId>, i: nat, base: Result<NodeId>,
                       definedByFooClassRef: string, accepted: seq<NodeId>)
    requires Descending(nodes) && i < |classes|
    requires InstallPlan(nodes, classes[..i], base, CoerceISA95ReferenceType(Name(definedByFooClassRef))) == Plan(accepted, None)
    ensures var refType := CoerceISA95ReferenceType(Name(definedByFooClassRef));
            var q := Turn(nodes, classes[i], base, definedByFooClassRef);
            && InstallPlan(nodes, classes[..i + 1], base, refType) == Plan(accepted + q.accepted, q.failure)
            && WithMembership(WithMembership(s0, node, definedByFooClassRef, accepted), node, definedByFooClassRef, q.accepted)
               == WithMembership(s0, node, definedByFooClassRef, accepted + q.accepted)
            && (q.failure.Some? ==> accepted + q.accepted == accepted
                                    && InstallPlan(nodes, classes, base, refType) == Plan(accepted, q.failure))
  {
    var refType := CoerceISA95ReferenceType(Name(definedByFooClassRef));
    var q := Turn(nodes, classes[i], base, definedByFooClassRef);
    InstallPlanSnoc(nodes, classes, i, base, refType);
    TurnShift(nodes, accepted, classes[i], base, definedByFooClassRef);
    WithMembershipAppend(s0, node, definedByFooClassRef, accepted, q.accepted);
    if q.failure.Some? {
      assert accepted + q.accepted == accepted;
      InstallPlanStops(nodes, classes, i + 1, base, refType);
    }
  }

  /** The `forEach` over the coerced class list. */
  method InstallClasses(g: AddressSpace, node: NodeId, classes: seq<NodeId>, base: Result<NodeId>, definedByFooClassRef: string)
    returns (o: Outcome)
    requires g.Valid() && node < |g.nodes| && AllBelow(classes, |g.nodes|)
    modifies g
    ensures g.Valid()
    ensures var p := InstallPlan(old(g.nodes), classes, base, CoerceISA95ReferenceType(Name(definedByFooClassRef)));
            && g.Snapshot() == WithMembership(old(g.Snapshot()), node, definedByFooClassRef, p.accepted)
            && o == (if p.failure.Some? then Fail(p.failure.value) else Pass)
  {
    ghost var refType := CoerceISA95ReferenceType(Name(definedByFooClassRef));
    ghost var s0 := g.Snapshot();
    ghost var accepted: seq<NodeId> := [];
    var i := 0;
    while i < |classes|
      invariant 0 <= i <= |classes|
      invariant g.Valid() && g.nodes == s0.nodes
      invariant InstallPlan(g.nodes, classes[..i], base, refType) == Plan(accepted, None)
      invariant g.Snapshot() == WithMembership(s0, node, definedByFooClassRef, accepted)
    {
      var c := classes[i];
      assert c in classes;
      ghost var q := Turn(g.nodes, c, base, definedByFooClassRef);
      InstallAdvance(s0, g.nodes, node, classes, i, base, definedByFooClassRef, accepted);
      o := InstallOne(g, node, c, base, definedByFooClassRef);
      if o.Fail? {
        return;
      }
      accepted := accepted + q.accepted;
      i := i + 1;
    }
    assert classes[..i] == classes;
    o := Pass;
  }

  /** `installDefinedByFooClassReferences(params)`: coerce the class list and the base class type, then run the loop. */
  method InstallDefinedByFooClassReferences(g: AddressSpace, node: NodeId, definedByFooClass: ClassArg,
                                            fooClassType: NameOrNode, definedByFooClassRef: string)
    returns (o: Outcome)
    requires g.Valid() && node < |g.nodes| && ClassArgWithin(definedByFooClass, |g.nodes|)
    modifies g
    ensures g.Valid()
    ensures var st := InstallEffect(old(g.Snapshot()), node, definedByFooClass, fooClassType, definedByFooClassRef);
            g.Snapshot() == st.space && o == st.outcome
  {
    var classes := CoerceClasses(definedByFooClass);
    if classes.Failure? {
      return Fail(classes.error);
    }
    var base := CoerceISA95ObjectType(fooClassType);
    o := InstallClasses(g, node, classes.value, base, definedByFooClassRef);
  }

  // ---------------------------------------------------------------------------
  // addDefinedByFooClass

  /** The class list `addDefinedByFooClass` reads from its options: absent, one class, or an array. */
  datatype ClassesOption = Absent | One(id: NodeId) | Many(ids: seq<NodeId>)

  /** `options[attribute] || []`, wrapped into an array when it is a single class. */
  function ClassList(classes: ClassesOption): seq<NodeId> {
    match classes
    case Absent => []
    case One(id) => [id]
    case Many(ids) => ids
  }

  /** The copy of class property `src` made on an instance: a fresh variable with its browse name, data type and value. */
  function PropertyCopy(src: NodeInfo, isa95PropertyType: Option<NodeId>): NodeInfo {
    VariableNode(src.browseName, isa95PropertyType, src.dataType, src.value, NoRule)
  }

  /** The nodes a class links to by forward HasISA95ClassProperty references, in insertion order. */
  function ClassProperties(refs: seq<Reference>, classType: NodeId): seq<NodeId> {
    FindObjects(refs, classType, HasISA95ClassPropertyId, true)
  }

  /** The inner `forEach`: one HasISA95Property copy on `node` per property in `props`, in order. */
  function CopyProperties(s: Space, node: NodeId, isa95PropertyType: Option<NodeId>, props: seq<NodeId>): (r: Space)
    requires WellFormed(s) && node < |s.nodes| && AllBelow(props, |s.nodes|)
    ensures WellFormed(r) && Extends(s, r) && r.classLists == s.classLists && r.links == s.links
    ensures |r.nodes| == |s.nodes| + |props| && |r.refs| == |s.refs| + |props|
    decreases |props|
  {
    if props == [] then s
    else
      var init := props[..|props| - 1];
      var t := CopyProperties(s, node, isa95PropertyType, init);
      var copy := PropertyCopy(s.nodes[props[|props| - 1]], isa95PropertyType);
      var link := Reference(node, HasISA95PropertyId, |t.nodes|, true);
      WellFormedAppend(t, copy, [link]);
      var r := t.(nodes := t.nodes + [copy], refs := t.refs + [link]);
      ExtendsTransitive(s, t, r);
      r
  }

  /** The copies of the properties `props`, in order. */
  function Copies(nodes: seq<NodeInfo>, isa95PropertyType: Option<NodeId>, props: seq<NodeId>): seq<NodeInfo>
    requires AllBelow(props, |nodes|)
  {
    seq(|props|, j requires 0 <= j < |props| => PropertyCopy(nodes[props[j]], isa95PropertyType))
  }

  lemma CopiesSnoc(nodes: seq<NodeInfo>, isa95PropertyType: Option<NodeId>, props: seq<NodeId>)
    requires AllBelow(props, |nodes|) && props != []
    ensures AllBelow(props[..|props| - 1], |nodes|)
    ensures Copies(nodes, isa95PropertyType, props)
            == Copies(nodes, isa95PropertyType, props[..|props| - 1]) + [PropertyCopy(nodes[props[|props| - 1]], isa95PropertyType)]
  {
    assert forall i :: 0 <= i < |props| - 1 ==> props[..|props| - 1][i] == props[i];
  }

  /** The ids `lo`, `lo + 1`, ..., of `n` nodes created one after another. */
  function Fresh(lo: nat, n: nat): seq<NodeId> {
    seq(n, j => lo + j)
  }

  /** Extending a run of fresh ids by the next one, also behind a prefix. */
  lemma FreshSnoc(before: seq<NodeId>, lo: nat, n: nat)
    ensures Fresh(lo, n + 1) == Fresh(lo, n) + [lo + n]
    ensures before + Fresh(lo, n + 1) == (before + Fresh(lo, n)) + [lo + n]
  {
    assert Fresh(lo, n + 1) == Fresh(lo, n) + [lo + n];
    AppendAssociative(before, Fresh(lo, n), [lo + n]);
  }

  /** The HasISA95Property references from `node` to the `n` nodes created from id `lo` on. */
  function PropertyLinks(node: NodeId, lo: nat, n: nat): seq<Reference> {
    seq(n, j requires 0 <= j => Reference(node, HasISA95PropertyId, lo + j, true))
  }

  lemma PropertyLinksSnoc(node: NodeId, lo: nat, n: nat)
    ensures PropertyLinks(node, lo, n + 1) == PropertyLinks(node, lo, n) + [Reference(node, HasISA95PropertyId, lo + n, true)]
  {
    assert PropertyLinks(node, lo, n + 1) == PropertyLinks(node, lo, n) + [Reference(node, HasISA95PropertyId, lo + n, true)];
  }

  /** One more property copied: a node appended, and a reference from `node` to it. */
  lemma CopyPropertiesSnoc(s: Space, node: NodeId, isa95PropertyType: Option<NodeId>, props: seq<NodeId>)
    requires WellFormed(s) && node < |s.nodes| && AllBelow(props, |s.nodes|) && props != []
    ensures var t := CopyProperties(s, node, isa95PropertyType, props[..|props| - 1]);
            var r := CopyProperties(s, node, isa95PropertyType, props);
            && r.nodes == t.nodes + [PropertyCopy(s.nodes[props[|props| - 1]], isa95PropertyType)]
            && r.refs == t.refs + [Reference(node, HasISA95PropertyId, |t.nodes|, true)]
  {
  }

  /**
    The copies come after everything that was there, in the order of `props`: the new nodes are
    the copies of the properties and the new references link `node` to them, one each.
  */
  lemma {:induction false} CopyPropertiesShape(s: Space, node: NodeId, isa95PropertyType: Option<NodeId>, props: seq<NodeId>)
    requires WellFormed(s) && node < |s.nodes| && AllBelow(props, |s.nodes|)
    ensures var r := CopyProperties(s, node, isa95PropertyType, props);
            && r.nodes == s.nodes + Copies(s.nodes, isa95PropertyType, props)
            && r.refs == s.refs + PropertyLinks(node, |s.nodes|, |props|)
    decreases |props|
  {
    if props == [] {
      assert Copies(s.nodes, isa95PropertyType, props) == [] && PropertyLinks(node, |s.nodes|, 0) == [];
      assert s.nodes + [] == s.nodes && s.refs + [] == s.refs;
    } else {
      var init := props[..|props| - 1];
      CopiesSnoc(s.nodes, isa95PropertyType, props);
      CopyPropertiesShape(s, node, isa95PropertyType, init);
      CopyPropertiesSnoc(s, node, isa95PropertyType, props);
      PropertyLinksSnoc(node, |s.nodes|, |init|);
      var copy := PropertyCopy(s.nodes[props[|props| - 1]], isa95PropertyType);
      var link := Reference(node, HasISA95PropertyId, |s.nodes| + |init|, true);
      AppendAssociative(s.nodes, Copies(s.nodes, isa95PropertyType, init), [copy]);
      AppendAssociative(s.refs, PropertyLinks(node, |s.nodes|, |init|), [link]);
    }
  }

  lemma {:induction false} PropertyLinksBrowse(node: NodeId, lo: nat, n: nat)
    ensures FindObjects(PropertyLinks(node, lo, n), node, HasISA95PropertyId, true) == Fresh(lo, n)
    decreases n
  {
    if n == 0 {
      assert PropertyLinks(node, lo, 0) == [];
    } else {
      PropertyLinksBrowse(node, lo, n - 1);
      PropertyLinksSnoc(node, lo, n - 1);
      FindObjectsSnocOwn(PropertyLinks(node, lo, n - 1), node, HasISA95PropertyId, lo + (n - 1), true);
      FreshSnoc([], lo, n - 1);
    }
  }

  /** Browsing the instance's HasISA95Property references after the copy shows the old targets, then exactly the new nodes. */
  lemma CopyPropertiesBrowse(s: Space, node: NodeId, isa95PropertyType: Option<NodeId>, props: seq<NodeId>)
    requires WellFormed(s) && node < |s.nodes| && AllBelow(props, |s.nodes|)
    ensures var r := CopyProperties(s, node, isa95PropertyType, props);
            FindObjects(r.refs, node, HasISA95PropertyId, true)
            == FindObjects(s.refs, node, HasISA95PropertyId, true) + Fresh(|s.nodes|, |props|)
  {
    CopyPropertiesShape(s, node, isa95PropertyType, props);
    FindObjectsAppend(s.refs, PropertyLinks(node, |s.nodes|, |props|), node, HasISA95PropertyId, true);
    PropertyLinksBrowse(node, |s.nodes|, |props|);
  }



  /** One turn of the outer `forEach`: the membership reference, then a copy of each property of the class. */
  function DefineByClass(s: Space, node: NodeId, refType: NodeId, isa95PropertyType: Option<NodeId>, classType: NodeId)
    : (r: Space)
    requires WellFormed(s) && node < |s.nodes| && refType < |s.nodes| && classType < |s.nodes|
    ensures WellFormed(r) && Extends(s, r) && r.classLists == s.classLists && r.links == s.links
  {
    var linked := s.(refs := s.refs + [Reference(node, refType, classType, true)]);
    WellFormedLink(s, Reference(node, refType, classType, true));
    FindObjectsWithin(linked.refs, |linked.nodes|, classType, HasISA95ClassPropertyId, true);
    var r := CopyProperties(linked, node, isa95PropertyType, ClassProperties(linked.refs, classType));
    ExtendsTransitive(s, linked, r);
    r
  }

  /** The outer `forEach`, over the classes in order. */
  function DefineByClasses(s: Space, node: NodeId, refType: NodeId, isa95PropertyType: Option<NodeId>, classes: seq<NodeId>)
    : (r: Space)
    requires WellFormed(s) && node < |s.nodes| && refType < |s.nodes| && AllBelow(classes, |s.nodes|)
    ensures WellFormed(r) && Extends(s, r) && r.classLists == s.classLists && r.links == s.links
    decreases |classes|
  {
    if classes == [] then s
    else
      var init := classes[..|classes| - 1];
      var t := DefineByClasses(s, node, refType, isa95PropertyType, init);
      var r := DefineByClass(t, node, refType, isa95PropertyType, classes[|classes| - 1]);
      ExtendsTransitive(s, t, r);
      r
  }

  /**
    The whole of `addDefinedByFooClass(node, definedByFooClass, isa95PropertyType, options)`. The
    reference type is looked up under the capitalised name; when it is missing, the first class
    throws before anything is added.
  */
  function DefineEffect(s: Space, node: NodeId, definedByFooClass: string, isa95PropertyType: Option<NodeId>,
                        classes: ClassesOption): (st: Step)
    requires WellFormed(s) && node < |s.nodes| && AllBelow(ClassList(classes), |s.nodes|)
    ensures WellFormed(st.space) && Extends(s, st.space)
    ensures st.space.classLists == s.classLists && st.space.links == s.links
    ensures st.outcome.Fail? <==> ClassList(classes) != [] && CapitalizeFirstLetter(definedByFooClass) !in ReferenceTypes
    ensures st.outcome.Fail? ==> st == Step(s, Fail(UnknownType(CapitalizeFirstLetter(definedByFooClass))))
  {
    var name := CapitalizeFirstLetter(definedByFooClass);
    var found := FindISA95ReferenceType(name);
    if ClassList(classes) == [] then Step(s, Pass)
    else if found.None? then Step(s, Fail(UnknownType(name)))
    else Step(DefineByClasses(s, node, found.value, isa95PropertyType, ClassList(classes)), Pass)
  }

  /**
    For one class, `addDefinedByFooClass` adds one forward membership reference and then, for each
    property of the class, one fresh copy of it linked from the node by HasISA95Property; the copy
    carries the property's browse name, data type and value.
  */
  lemma DefineByClassShape(s: Space, node: NodeId, refType: NodeId, isa95PropertyType: Option<NodeId>, classType: NodeId)
    requires WellFormed(s) && node < |s.nodes| && refType < |s.nodes| && classType < |s.nodes|
    requires node != classType || refType != HasISA95ClassPropertyId
    ensures var r := DefineByClass(s, node, refType, isa95PropertyType, classType);
            var props := ClassProperties(s.refs, classType);
            && AllBelow(props, |s.nodes|)
            && r.nodes == s.nodes + Copies(s.nodes, isa95PropertyType, props)
            && r.refs == (s.refs + [Reference(node, refType, classType, true)]) + PropertyLinks(node, |s.nodes|, |props|)
  {
    var link := Reference(node, refType, classType, true);
    var linked := s.(refs := s.refs + [link]);
    WellFormedLink(s, link);
    ClassPropertiesUnlinked(s, link);
    var props := ClassProperties(s.refs, classType);
    CopyPropertiesShape(linked, node, isa95PropertyType, props);
    assert DefineByClass(s, node, refType, isa95PropertyType, classType) == CopyProperties(linked, node, isa95PropertyType, props);
  }



  /** The membership reference does not change the class's own property list, which lies within the store. */
  lemma ClassPropertiesUnlinked(s: Space, link: Reference)
    requires WellFormed(s) && link.isForward
    requires link.source != link.target || link.referenceType != HasISA95ClassPropertyId
    ensures ClassProperties(s.refs + [link], link.target) == ClassProperties(s.refs, link.target)
    ensures AllBelow(ClassProperties(s.refs, link.target), |s.nodes|)
  {
    FindObjectsWithin(s.refs, |s.nodes|, link.target, HasISA95ClassPropertyId, true);
    FindObjectsSnocUnseen(s.refs, link, link.target, HasISA95ClassPropertyId, true);
  }


  lemma DefineByClassesSnoc(s: Space, node: NodeId, refType: NodeId, isa95PropertyType: Option<NodeId>,
                            classes: seq<NodeId>, i: nat)
    requires WellFormed(s) && node < |s.nodes| && refType < |s.nodes| && AllBelow(classes, |s.nodes|)
    requires i < |classes|
    ensures AllBelow(classes[..i], |s.nodes|)
    ensures var t := DefineByClasses(s, node, refType, isa95PropertyType, classes[..i]);
            && classes[i] < |t.nodes|
            && DefineByClasses(s, node, refType, isa95PropertyType, classes[..i + 1])
               == DefineByClass(t, node, refType, isa95PropertyType, classes[i])
  {
    assert classes[..i + 1][..i] == classes[..i];
  }

  /** Property links are invisible to every browse through another reference type. */
  lemma {:induction false} PropertyLinksUnseen(node: NodeId, lo: nat, n: nat, m: NodeId, t: NodeId, forward: bool)
    requires t != HasISA95PropertyId
    ensures FindObjects(PropertyLinks(node, lo, n), m, t, forward) == []
    decreases n
  {
    if n == 0 {
      assert PropertyLinks(node, lo, 0) == [];
    } else {
      PropertyLinksUnseen(node, lo, n - 1, m, t, forward);
      PropertyLinksSnoc(node, lo, n - 1);
      FindObjectsSnocUnseen(PropertyLinks(node, lo, n - 1), Reference(node, HasISA95PropertyId, lo + (n - 1), true), m, t, forward);
    }
  }

  /** The ids from `lo` up to, not including, `hi`, built one id at a time. */
  function FreshRange(lo: nat, hi: nat): seq<NodeId>
    decreases hi
  {
    if hi <= lo then [] else FreshRange(lo, hi - 1) + [hi - 1]
  }

  lemma {:induction false} FreshRangeIsFresh(lo: nat, hi: nat)
    requires lo <= hi
    ensures FreshRange(lo, hi) == Fresh(lo, hi - lo)
    decreases hi
  {
    if hi == lo {
      assert Fresh(lo, 0) == [];
    } else {
      FreshRangeIsFresh(lo, hi - 1);
      FreshSnoc([], lo, hi - 1 - lo);
    }
  }

  lemma {:induction false} FreshRangeJoin(lo: nat, mid: nat, hi: nat)
    requires lo <= mid <= hi
    ensures FreshRange(lo, mid) + FreshRange(mid, hi) == FreshRange(lo, hi)
    decreases hi
  {
    if hi == mid {
      assert FreshRange(mid, hi) == [];
    } else {
      FreshRangeJoin(lo, mid, hi - 1);
      AppendAssociative(FreshRange(lo, mid), FreshRange(mid, hi - 1), [hi - 1]);
    }
  }

  /** The property links `node` gains read back as the ids from `lo` up to `lo + n`. */
  lemma PropertyLinksRange(node: NodeId, lo: nat, n: nat)
    ensures FindObjects(PropertyLinks(node, lo, n), node, HasISA95PropertyId, true) == FreshRange(lo, lo + n)
  {
    PropertyLinksBrowse(node, lo, n);
    FreshRangeIsFresh(lo, lo + n);
  }

  /** A list that gained the ids from `lo` to `mid` and then those from `mid` to `hi` gained those from `lo` to `hi`. */
  lemma FreshChain(before: seq<NodeId>, mid: seq<NodeId>, after: seq<NodeId>, lo: nat, m: nat, hi: nat)
    requires lo <= m <= hi && mid == before + FreshRange(lo, m) && after == mid + FreshRange(m, hi)
    ensures after == before + FreshRange(lo, hi)
  {
    FreshRangeJoin(lo, m, hi);
    AppendAssociative(before, FreshRange(lo, m), FreshRange(m, hi));
  }


  /** Defining `node` by one class: its forward browse of `refType` gains that class last. */
  lemma DefineByClassLinks(s: Space, node: NodeId, refType: NodeId, isa95PropertyType: Option<NodeId>, classType: NodeId)
    requires WellFormed(s) && node < |s.nodes| && refType < |s.nodes| && classType < |s.nodes|
    requires refType != HasISA95PropertyId && refType != HasISA95ClassPropertyId
    ensures var r := DefineByClass(s, node, refType, isa95PropertyType, classType);
            FindObjects(r.refs, node, refType, true) == FindObjects(s.refs, node, refType, true) + [classType]
  {
    var link := Reference(node, refType, classType, true);
    var props := ClassProperties(s.refs, classType);
    DefineByClassShape(s, node, refType, isa95PropertyType, classType);
    var links := PropertyLinks(node, |s.nodes|, |props|);
    FindObjectsAppend(s.refs + [link], links, node, refType, true);
    FindObjectsSnocOwn(s.refs, node, refType, classType, true);
    PropertyLinksUnseen(node, |s.nodes|, |props|, node, refType, true);
  }

  /** After a link of another type, the property links `node` gains read back as the ids from `lo` up to `lo + n`. */
  lemma PropertyLinksAfter(refs: seq<Reference>, link: Reference, node: NodeId, lo: nat, n: nat)
    requires View(link, node, HasISA95PropertyId, true) == []
    ensures FindObjects((refs + [link]) + PropertyLinks(node, lo, n), node, HasISA95PropertyId, true)
            == FindObjects(refs, node, HasISA95PropertyId, true) + FreshRange(lo, lo + n)
  {
    FindObjectsAppend(refs + [link], PropertyLinks(node, lo, n), node, HasISA95PropertyId, true);
    FindObjectsSnocUnseen(refs, link, node, HasISA95PropertyId, true);
    PropertyLinksRange(node, lo, n);
  }

  /** Defining `node` by one class: its forward browse of `HasISA95Property` gains the copies just made, in order. */
  lemma DefineByClassProperties(s: Space, node: NodeId, refType: NodeId, isa95PropertyType: Option<NodeId>, classType: NodeId)
    requires WellFormed(s) && node < |s.nodes| && refType < |s.nodes| && classType < |s.nodes|
    requires refType != HasISA95PropertyId && refType != HasISA95ClassPropertyId
    ensures var r := DefineByClass(s, node, refType, isa95PropertyType, classType);
            FindObjects(r.refs, node, HasISA95PropertyId, true)
            == FindObjects(s.refs, node, HasISA95PropertyId, true) + FreshRange(|s.nodes|, |r.nodes|)
  {
    var props := ClassProperties(s.refs, classType);
    DefineByClassShape(s, node, refType, isa95PropertyType, classType);
    PropertyLinksAfter(s.refs, Reference(node, refType, classType, true), node, |s.nodes|, |props|);
  }



  /** One more class: `node` reads it last, between consecutive prefixes of the class list. */
  lemma DefineByClassesStep(s: Space, node: NodeId, refType: NodeId, isa95PropertyType: Option<NodeId>, classes: seq<NodeId>)
    requires WellFormed(s) && node < |s.nodes| && refType < |s.nodes| && AllBelow(classes, |s.nodes|) && classes != []
    requires refType != HasISA95PropertyId && refType != HasISA95ClassPropertyId
    ensures AllBelow(classes[..|classes| - 1], |s.nodes|)
    ensures FindObjects(DefineByClasses(s, node, refType, isa95PropertyType, classes).refs, node, refType, true)
            == FindObjects(DefineByClasses(s, node, refType, isa95PropertyType, classes[..|classes| - 1]).refs, node, refType, true)
               + [classes[|classes| - 1]]
  {
    var i := |classes| - 1;
    DefineByClassesSnoc(s, node, refType, isa95PropertyType, classes, i);
    var t := DefineByClasses(s, node, refType, isa95PropertyType, classes[..i]);
    assert classes[..i + 1] == classes;
    DefineByClassLinks(t, node, refType, isa95PropertyType, classes[i]);
  }

  /** One more class: the HasISA95Property browse of `node` gains the nodes created, between consecutive prefixes. */
  lemma DefineByClassesPropertyStep(s: Space, node: NodeId, refType: NodeId, isa95PropertyType: Option<NodeId>,
                                    classes: seq<NodeId>)
    requires WellFormed(s) && node < |s.nodes| && refType < |s.nodes| && AllBelow(classes, |s.nodes|) && classes != []
    requires refType != HasISA95PropertyId && refType != HasISA95ClassPropertyId
    ensures AllBelow(classes[..|classes| - 1], |s.nodes|)
    ensures var t := DefineByClasses(s, node, refType, isa95PropertyType, classes[..|classes| - 1]);
            var r := DefineByClasses(s, node, refType, isa95PropertyType, classes);
            && |t.nodes| <= |r.nodes|
            && FindObjects(r.refs, node, HasISA95PropertyId, true)
               == FindObjects(t.refs, node, HasISA95PropertyId, true) + FreshRange(|t.nodes|, |r.nodes|)
  {
    var i := |classes| - 1;
    DefineByClassesSnoc(s, node, refType, isa95PropertyType, classes, i);
    var t := DefineByClasses(s, node, refType, isa95PropertyType, classes[..i]);
    assert classes[..i + 1] == classes;
    DefineByClassProperties(t, node, refType, isa95PropertyType, classes[i]);
  }


  /** All classes of `addDefinedByFooClass`: `node` reads the classes, in order, after what it read before. */
  lemma {:induction false} DefineByClassesLinks(s: Space, node: NodeId, refType: NodeId, isa95PropertyType: Option<NodeId>,
                                                classes: seq<NodeId>)
    requires WellFormed(s) && node < |s.nodes| && refType < |s.nodes| && AllBelow(classes, |s.nodes|)
    requires refType != HasISA95PropertyId && refType != HasISA95ClassPropertyId
    ensures FindObjects(DefineByClasses(s, node, refType, isa95PropertyType, classes).refs, node, refType, true)
            == FindObjects(s.refs, node, refType, true) + classes
    decreases |classes|
  {
    if classes != [] {
      var i := |classes| - 1;
      DefineByClassesStep(s, node, refType, isa95PropertyType, classes);
      DefineByClassesLinks(s, node, refType, isa95PropertyType, classes[..i]);
      FrontLast(classes);
      AppendAssociative(FindObjects(s.refs, node, refType, true), classes[..i], [classes[i]]);
    }
  }

  /** All classes of `addDefinedByFooClass`: the HasISA95Property browse of `node` gains exactly the nodes created. */
  lemma {:induction false} DefineByClassesProperties(s: Space, node: NodeId, refType: NodeId,
                                                     isa95PropertyType: Option<NodeId>, classes: seq<NodeId>)
    requires WellFormed(s) && node < |s.nodes| && refType < |s.nodes| && AllBelow(classes, |s.nodes|)
    requires refType != HasISA95PropertyId && refType != HasISA95ClassPropertyId
    ensures var r := DefineByClasses(s, node, refType, isa95PropertyType, classes);
            FindObjects(r.refs, node, HasISA95PropertyId, true)
            == FindObjects(s.refs, node, HasISA95PropertyId, true) + FreshRange(|s.nodes|, |r.nodes|)
    decreases |classes|
  {
    if classes == [] {
      assert DefineByClasses(s, node, refType, isa95PropertyType, classes) == s;
      assert FreshRange(|s.nodes|, |s.nodes|) == [];
    } else {
      var init := classes[..|classes| - 1];
      DefineByClassesPropertyStep(s, node, refType, isa95PropertyType, classes);
      var t := DefineByClasses(s, node, refType, isa95PropertyType, init);
      var r := DefineByClasses(s, node, refType, isa95PropertyType, classes);
      DefineByClassesProperties(s, node, refType, isa95PropertyType, init);
      FreshChain(FindObjects(s.refs, node, HasISA95PropertyId, true), FindObjects(t.refs, node, HasISA95PropertyId, true),
                 FindObjects(r.refs, node, HasISA95PropertyId, true), |s.nodes|, |t.nodes|, |r.nodes|);
    }
  }



  /**
    `addDefinedByFooClass` with a known reference type passes, `node` reads the given classes in
    order through that type, and its HasISA95Property browse gains exactly the nodes created.
  */
  lemma AddDefinedByFooClassLinks(s: Space, node: NodeId, definedByFooClass: string, isa95PropertyType: Option<NodeId>,
                                  classes: ClassesOption)
    requires WellFormed(s) && node < |s.nodes| && AllBelow(ClassList(classes), |s.nodes|)
    requires CapitalizeFirstLetter(definedByFooClass) in ReferenceTypes
    requires ReferenceTypes[CapitalizeFirstLetter(definedByFooClass)] != HasISA95PropertyId
    requires ReferenceTypes[CapitalizeFirstLetter(definedByFooClass)] != HasISA95ClassPropertyId
    ensures var st := DefineEffect(s, node, definedByFooClass, isa95PropertyType, classes);
            var refType := ReferenceTypes[CapitalizeFirstLetter(definedByFooClass)];
            && st.outcome == Pass
            && FindObjects(st.space.refs, node, refType, true) == FindObjects(s.refs, node, refType, true) + ClassList(classes)
            && FindObjects(st.space.refs, node, HasISA95PropertyId, true)
               == FindObjects(s.refs, node, HasISA95PropertyId, true) + FreshRange(|s.nodes|, |st.space.nodes|)
  {
    var refType := ReferenceTypes[CapitalizeFirstLetter(definedByFooClass)];
    if ClassList(classes) == [] {
      assert FreshRange(|s.nodes|, |s.nodes|) == [];
    } else {
      DefineByClassesLinks(s, node, refType, isa95PropertyType, ClassList(classes));
      DefineByClassesProperties(s, node, refType, isa95PropertyType, ClassList(classes));
    }
  }

  /** The inner `forEach` of `addDefinedByFooClass`: copy each property in `props` onto `node`. */
  method CopyClassProperties(g: AddressSpace, node: NodeId, isa95PropertyType: Option<NodeId>, props: seq<NodeId>)
    requires g.Valid() && node < |g.nodes| && AllBelow(props, |g.nodes|)
    modifies g
    ensures g.Valid()
    ensures g.Snapshot() == CopyProperties(old(g.Snapshot()), node, isa95PropertyType, props)
  {
    ghost var s0 := g.Snapshot();
    var j := 0;
    while j < |props|
      invariant 0 <= j <= |props|
      invariant AllBelow(props, |s0.nodes|)
      invariant g.Snapshot() == CopyProperties(s0, node, isa95PropertyType, props[..j])
      invariant g.Valid()
    {
      CopyClassProperty(g, node, isa95PropertyType, s0, props, j);
      j := j + 1;
    }
    assert props[..j] == props;
  }

  /** One pass of that `forEach`: copy `props[j]`, read from the nodes as they were before the first copy. */
  method CopyClassProperty(g: AddressSpace, node: NodeId, isa95PropertyType: Option<NodeId>, ghost s0: Space,
                           props: seq<NodeId>, j: nat)
    requires WellFormed(s0) && node < |s0.nodes| && AllBelow(props, |s0.nodes|) && j < |props|
    requires g.Valid() && g.Snapshot() == CopyProperties(s0, node, isa95PropertyType, props[..j])
    modifies g
    ensures g.Valid() && g.Snapshot() == CopyProperties(s0, node, isa95PropertyType, props[..j + 1])
  {
    PrefixOfPrefix(props, j, j + 1);
    var src := g.nodes[props[j]];
    assert src == s0.nodes[props[j]];
    var _ := g.AddISA95Property(node, src.browseName, src.dataType, src.value, isa95PropertyType);
  }

  /** One pass of the loop in `addDefinedByFooClass`: link `node` to `classType` and copy the class's properties. */
  method AddClassDefinition(g: AddressSpace, node: NodeId, refType: NodeId, isa95PropertyType: Option<NodeId>,
                            classType: NodeId)
    requires g.Valid() && node < |g.nodes| && refType < |g.nodes| && classType < |g.nodes|
    modifies g
    ensures g.Valid()
    ensures g.Snapshot() == DefineByClass(old(g.Snapshot()), node, refType, isa95PropertyType, classType)
  {
    g.AddReference(node, refType, classType, true);
    FindObjectsWithin(g.references, |g.nodes|, classType, HasISA95ClassPropertyId, true);
    var props := FindObjects(g.references, classType, HasISA95ClassPropertyId, true);
    CopyClassProperties(g, node, isa95PropertyType, props);
  }

  /** `addDefinedByFooClass(node, definedByFooClass, isa95PropertyType, options)`. */
  method AddDefinedByFooClass(g: AddressSpace, node: NodeId, definedByFooClass: string, isa95PropertyType: Option<NodeId>,
                              classes: ClassesOption) returns (o: Outcome)
    requires g.Valid() && node < |g.nodes| && AllBelow(ClassList(classes), |g.nodes|)
    modifies g
    ensures g.Valid()
    ensures var st := DefineEffect(old(g.Snapshot()), node, definedByFooClass, isa95PropertyType, classes);
            g.Snapshot() == st.space && o == st.outcome
  {
    var name := CapitalizeFirstLetter(definedByFooClass);
    var found := FindISA95ReferenceType(name);
    var list := ClassList(classes);
    if list == [] {
      return Pass;
    }
    if found.None? {
      return Fail(UnknownType(name));
    }
    var refType := found.value;
    ghost var s0 := g.Snapshot();
    var i := 0;
    while i < |list|
      invariant 0 <= i <= |list|
      invariant g.Valid()
      invariant g.Snapshot() == DefineByClasses(s0, node, refType, isa95PropertyType, list[..i])
    {
      DefineByClassesSnoc(s0, node, refType, isa95PropertyType, list, i);
      AddClassDefinition(g, node, refType, isa95PropertyType, list[i]);
      i := i + 1;
    }
    assert list[..i] == list;
    o := Pass;
  }

  // ---------------------------------------------------------------------------
  // _transferISA95Attributes

  /** The attributes of a class: its forward HasISA95Attribute references, in insertion order. */
  function AttributeLinks(refs: seq<Reference>, classType: NodeId): seq<Link> {
    FindReferences(refs, classType, HasISA95AttributeId, true)
  }

  /** One fresh clone per attribute link, each linked from `instance` by a forward reference of the link's type. */
  function CloneAttributes(s: Space, instance: NodeId, attributes: seq<Link>): (r: Space)
    requires WellFormed(s) && instance < |s.nodes| && LinksBelow(attributes, |s.nodes|)
    ensures WellFormed(r) && Extends(s, r) && r.classLists == s.classLists && r.links == s.links
    ensures |r.nodes| == |s.nodes| + |attributes| && |r.refs| == |s.refs| + |attributes|
    decreases |attributes|
  {
    if attributes == [] then s
    else
      var t := CloneAttributes(s, instance, attributes[..|attributes| - 1]);
      var l := attributes[|attributes| - 1];
      var link := Reference(instance, l.referenceType, |t.nodes|, true);
      WellFormedAppend(t, s.nodes[l.node], [link]);
      var r := t.(nodes := t.nodes + [s.nodes[l.node]], refs := t.refs + [link]);
      ExtendsTransitive(s, t, r);
      r
  }

  /**
    The j-th new node is a copy of the j-th attribute, never the attribute itself, and the j-th new
    reference links `instance` to that copy with the attribute's reference type.
  */
  lemma {:induction false} CloneAttributesShape(s: Space, instance: NodeId, attributes: seq<Link>)
    requires WellFormed(s) && instance < |s.nodes| && LinksBelow(attributes, |s.nodes|)
    ensures var r := CloneAttributes(s, instance, attributes);
            forall j :: 0 <= j < |attributes| ==>
              && attributes[j].node != |s.nodes| + j
              && r.nodes[|s.nodes| + j] == s.nodes[attributes[j].node]
              && r.refs[|s.refs| + j] == Reference(instance, attributes[j].referenceType, |s.nodes| + j, true)
    decreases |attributes|
  {
    if attributes != [] {
      var init := attributes[..|attributes| - 1];
      CloneAttributesShape(s, instance, init);
      var t := CloneAttributes(s, instance, init);
      var r := CloneAttributes(s, instance, attributes);
      forall j | 0 <= j < |attributes|
        ensures r.nodes[|s.nodes| + j] == s.nodes[attributes[j].node]
        ensures r.refs[|s.refs| + j] == Reference(instance, attributes[j].referenceType, |s.nodes| + j, true)
      {
        if j < |init| {
          assert attributes[j] == init[j];
          assert r.nodes[|s.nodes| + j] == t.nodes[|s.nodes| + j];
          assert r.refs[|s.refs| + j] == t.refs[|s.refs| + j];
        }
      }
    }
  }

  /** The whole of `_transferISA95Attributes(instance, classType)`. */
  function TransferEffect(s: Space, instance: NodeId, classType: NodeId): (st: Step)
    requires WellFormed(s) && instance < |s.nodes| && classType < |s.nodes|
    ensures WellFormed(st.space) && Extends(s, st.space)
  {
    if s.nodes[classType].modellingRule == OptionalPlaceholder then Step(s, Pass)
    else if s.nodes[classType].nodeClass != ObjectType then Step(s, Fail(NotAnObjectType(classType)))
    else
      FindReferencesWithin(s.refs, |s.nodes|, classType, HasISA95AttributeId, true);
      Step(CloneAttributes(s, instance, AttributeLinks(s.refs, classType)), Pass)
  }

  /**
    A placeholder class transfers nothing; a class that is not an object type is refused; otherwise
    the instance gains exactly one reference per attribute of the class, of the same reference type,
    to a fresh clone of that attribute.
  */
  lemma TransferCases(s: Space, instance: NodeId, classType: NodeId)
    requires WellFormed(s) && instance < |s.nodes| && classType < |s.nodes|
    ensures var st := TransferEffect(s, instance, classType);
            var attributes := AttributeLinks(s.refs, classType);
            && LinksBelow(attributes, |s.nodes|)
            && (IsPlaceholder(s.nodes, classType) ==> st == Step(s, Pass))
            && (!IsPlaceholder(s.nodes, classType) && s.nodes[classType].nodeClass != ObjectType ==>
                  st == Step(s, Fail(NotAnObjectType(classType))))
            && (!IsPlaceholder(s.nodes, classType) && s.nodes[classType].nodeClass == ObjectType ==>
                  && st.outcome == Pass
                  && |st.space.nodes| == |s.nodes| + |attributes| && |st.space.refs| == |s.refs| + |attributes|
                  && forall j :: 0 <= j < |attributes| ==>
                       && attributes[j].referenceType == HasISA95AttributeId
                       && attributes[j].node != |s.nodes| + j
                       && st.space.nodes[|s.nodes| + j] == s.nodes[attributes[j].node]
                       && st.space.refs[|s.refs| + j] == Reference(instance, attributes[j].referenceType, |s.nodes| + j, true))
  {
    var attributes := AttributeLinks(s.refs, classType);
    FindReferencesWithin(s.refs, |s.nodes|, classType, HasISA95AttributeId, true);
    CloneAttributesShape(s, instance, attributes);
    forall j | 0 <= j < |attributes| ensures attributes[j].referenceType == HasISA95AttributeId {
      assert attributes[j] in attributes;
    }
  }

  lemma CloneAttributesSnoc(s: Space, instance: NodeId, attributes: seq<Link>, j: nat)
    requires WellFormed(s) && instance < |s.nodes| && LinksBelow(attributes, |s.nodes|) && j < |attributes|
    ensures LinksBelow(attributes[..j], |s.nodes|) && LinksBelow(attributes[..j + 1], |s.nodes|)
    ensures var t := CloneAttributes(s, instance, attributes[..j]);
            CloneAttributes(s, instance, attributes[..j + 1])
            == t.(nodes := t.nodes + [s.nodes[attributes[j].node]],
                  refs := t.refs + [Reference(instance, attributes[j].referenceType, |t.nodes|, true)])
  {
    assert attributes[..j + 1][..j] == attributes[..j];
  }

  /** `_transferISA95Attributes(instance, classType)`. */
  method TransferISA95Attributes(g: AddressSpace, instance: NodeId, classType: NodeId) returns (o: Outcome)
    requires g.Valid() && instance < |g.nodes| && classType < |g.nodes|
    modifies g
    ensures g.Valid()
    ensures var st := TransferEffect(old(g.Snapshot()), instance, classType);
            g.Snapshot() == st.space && o == st.outcome
  {
    if g.nodes[classType].modellingRule == OptionalPlaceholder {
      return Pass;
    }
    if g.nodes[classType].nodeClass != ObjectType {
      return Fail(NotAnObjectType(classType));
    }
    var attributes := FindReferences(g.references, classType, HasISA95AttributeId, true);
    FindReferencesWithin(g.references, |g.nodes|, classType, HasISA95AttributeId, true);
    ghost var s0 := g.Snapshot();
    var j := 0;
    while j < |attributes|
      invariant 0 <= j <= |attributes|
      invariant g.Valid()
      invariant g.Snapshot() == CloneAttributes(s0, instance, attributes[..j])
    {
      CloneAttributesSnoc(s0, instance, attributes, j);
      var clone := g.Clone(attributes[j].node);
      g.AddReference(instance, attributes[j].referenceType, clone, true);
      j := j + 1;
    }
    assert attributes[..j] == attributes;
    o := Pass;
  }

  // ---------------------------------------------------------------------------
  // _addContainedByFooReference

  /** The parent field containment sets on the child: the reference type's inverse name, first letter lower-cased. */
  function ContainedByField(nodes: seq<NodeInfo>, madeUpOf: NodeId): string
    requires madeUpOf < |nodes|
  {
    LowerFirstLetter(nodes[madeUpOf].inverseName)
  }

  /** The fields set by the two containment reference types of the ISA95 namespace. */
  lemma ContainedByFieldNames(nodes: seq<NodeInfo>)
    requires HasCatalog(nodes)
    ensures ContainedByField(nodes, MadeUpOfEquipmentId) == "containedByEquipment"
    ensures ContainedByField(nodes, MadeUpOfPhysicalAssetId) == "containedByPhysicalAsset"
  {
    CatalogAt(nodes, MadeUpOfEquipmentId);
    CatalogAt(nodes, MadeUpOfPhysicalAssetId);
  }

  /**
    The whole of `_addContainedByFooReference(node, foo, fooType, madeUpOfFoo)`: one inverse
    MadeUpOfFoo reference from the child `node` to the parent `foo`, and the child's parent field
    field set to `foo`, replacing any earlier value.
  */
  function ContainEffect(s: Space, node: NodeId, foo: NodeId, madeUpOfFoo: string): (st: Step)
    requires WellFormed(s) && node < |s.nodes| && foo < |s.nodes|
    ensures WellFormed(st.space) && Extends(s, st.space)
    ensures st.outcome.Fail? <==> madeUpOfFoo !in ReferenceTypes
    ensures st.outcome.Fail? ==> st == Step(s, Fail(UnknownType(madeUpOfFoo)))
  {
    var found := FindISA95ReferenceType(madeUpOfFoo);
    if found.None? then Step(s, Fail(UnknownType(madeUpOfFoo)))
    else
      var link := Reference(node, found.value, foo, false);
      WellFormedLink(s, link);
      Step(s.(refs := s.refs + [link], links := s.links[(node, ContainedByField(s.nodes, found.value)) := foo]), Pass)
  }

  /**
    Containment is visible from both ends: the parent's forward MadeUpOfFoo browse gains the child
    last, the child's inverse browse gains the parent last, and the child's parent field is the parent.
  */
  lemma ContainmentBothEnds(s: Space, node: NodeId, foo: NodeId, madeUpOfFoo: string)
    requires WellFormed(s) && node < |s.nodes| && foo < |s.nodes| && madeUpOfFoo in ReferenceTypes
    ensures var st := ContainEffect(s, node, foo, madeUpOfFoo);
            var madeUpOf := ReferenceTypes[madeUpOfFoo];
            && st.outcome == Pass && st.space.nodes == s.nodes && st.space.classLists == s.classLists
            && FindObjects(st.space.refs, foo, madeUpOf, true) == FindObjects(s.refs, foo, madeUpOf, true) + [node]
            && FindObjects(st.space.refs, node, madeUpOf, false) == FindObjects(s.refs, node, madeUpOf, false) + [foo]
            && st.space.links == s.links[(node, ContainedByField(s.nodes, madeUpOf)) := foo]
  {
    var madeUpOf := ReferenceTypes[madeUpOfFoo];
    FindObjectsSnocOwn(s.refs, node, madeUpOf, foo, false);
    FindObjectsSnocOther(s.refs, node, madeUpOf, foo, false);
  }

  /**
    Containment changes no other browse: no browse through another reference type, and no
    forward MadeUpOfFoo browse but the parent's.
  */
  lemma ContainmentElsewhere(s: Space, node: NodeId, foo: NodeId, madeUpOfFoo: string)
    requires WellFormed(s) && node < |s.nodes| && foo < |s.nodes|
    ensures var st := ContainEffect(s, node, foo, madeUpOfFoo);
            && (forall n, t, forward | madeUpOfFoo !in ReferenceTypes || t != ReferenceTypes[madeUpOfFoo] ::
                  FindObjects(st.space.refs, n, t, forward) == FindObjects(s.refs, n, t, forward))
            && (forall n | n != foo && madeUpOfFoo in ReferenceTypes ::
                  FindObjects(st.space.refs, n, ReferenceTypes[madeUpOfFoo], true)
                  == FindObjects(s.refs, n, ReferenceTypes[madeUpOfFoo], true))
  {
    if madeUpOfFoo in ReferenceTypes {
      var link := Reference(node, ReferenceTypes[madeUpOfFoo], foo, false);
      forall n, t, forward | t != ReferenceTypes[madeUpOfFoo] || (n != foo && forward)
        ensures FindObjects(s.refs + [link], n, t, forward) == FindObjects(s.refs, n, t, forward)
      {
        FindObjectsSnocUnseen(s.refs, link, n, t, forward);
      }
    }
  }

  /** `_addContainedByFooReference(node, foo, fooType, madeUpOfFoo)`; the `fooType` lookup is unused by the source. */
  method AddContainedByFooReference(g: AddressSpace, node: NodeId, foo: NodeId, madeUpOfFoo: string) returns (o: Outcome)
    requires g.Valid() && node < |g.nodes| && foo < |g.nodes|
    modifies g
    ensures g.Valid()
    ensures var st := ContainEffect(old(g.Snapshot()), node, foo, madeUpOfFoo);
            g.Snapshot() == st.space && o == st.outcome
  {
    var found := FindISA95ReferenceType(madeUpOfFoo);
    if found.None? {
      return Fail(UnknownType(madeUpOfFoo));
    }
    g.AddReference(node, found.value, foo, false);
    var inverseName := LowerFirstLetter(g.nodes[found.value].inverseName);
    g.links := g.links[(node, inverseName) := foo];
    o := Pass;
  }
}
