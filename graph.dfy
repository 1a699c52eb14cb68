/**
  The typed node/reference graph of an OPC UA address space, reduced to what
  the ISA-95 class-composition core reads and writes: nodes identified by
  number, a reflexive-transitive "is-a" relation between types, and an ordered
  list of references (source, referenceType, target, isForward).
*/
module Graph {

  type NodeId = nat

  datatype Option<T> = None | Some(value: T)

  /** The ways an operation of the core can throw. */
  datatype Error =
    | UnknownType(name: string)                    // a symbolic name resolved to nothing
    | NotASubtype(node: NodeId, expected: NodeId)  // a subtype gate refused `node`
    | NotAnObjectType(node: NodeId)                // a class that is not a UAObjectType
    | NotAString                                   // an option that must be a string is not one
    | MissingBrowseName                            // a builder was given no browse name

  datatype Outcome = Pass | Fail(error: Error)

  datatype Result<T> = Success(value: T) | Failure(error: Error)

  datatype NodeClass = ObjectType | Object | Variable | VariableType | ReferenceType | DataType

  datatype ModellingRule = NoRule | Mandatory | Optional | OptionalPlaceholder

  /** A Variant value: opaque, except that strings are told apart because the core tests for them. */
  datatype Variant = Null | Str(s: string) | Opaque(id: nat)

  /** JavaScript truthiness of an option value: absent, null and "" are false. */
  predicate Truthy(v: Variant) {
    match v
    case Null => false
    case Str(s) => s != ""
    case Opaque(_) => true
  }

  /** What the graph stores about one node. `inverseName` is only meaningful on reference types. */
  datatype NodeInfo = NodeInfo(
    nodeClass: NodeClass,
    browseName: string,
    subtypeOf: Option<NodeId>,
    typeDefinition: Option<NodeId>,
    dataType: Option<NodeId>,
    value: Variant,
    modellingRule: ModellingRule,
    inverseName: string)

  /** One stored reference. node-opcua keeps it at both ends; `View` below shows it from either end. */
  datatype Reference = Reference(source: NodeId, referenceType: NodeId, target: NodeId, isForward: bool)

  /** A reference as seen from one of its ends: its type and the node at the other end. */
  datatype Link = Link(referenceType: NodeId, node: NodeId)

  // ---------------------------------------------------------------------------
  // The is-a relation

  /** Every type's direct supertype was created before it, so walking up always terminates. */
  ghost predicate Descending(nodes: seq<NodeInfo>) {
    forall i :: 0 <= i < |nodes| && nodes[i].subtypeOf.Some? ==> nodes[i].subtypeOf.value < i
  }

  /** node-opcua's `a.isSupertypeOf(b)`: `a` is `b` or derives from `b` through `subtypeOf` links. */
  function IsA(nodes: seq<NodeInfo>, a: NodeId, b: NodeId): bool
    requires Descending(nodes)
    decreases a
  {
    a == b || (a < |nodes| && nodes[a].subtypeOf.Some? && IsA(nodes, nodes[a].subtypeOf.value, b))
  }

  lemma {:induction false} IsATransitive(nodes: seq<NodeInfo>, a: NodeId, b: NodeId, c: NodeId)
    requires Descending(nodes)
    requires IsA(nodes, a, b) && IsA(nodes, b, c)
    ensures IsA(nodes, a, c)
    decreases a
  {
    if a != b {
      IsATransitive(nodes, nodes[a].subtypeOf.value, b, c);
    }
  }

  /** Creating nodes never changes whether an existing type derives from another. */
  lemma {:induction false} IsAExtend(nodes: seq<NodeInfo>, more: seq<NodeInfo>, a: NodeId, b: NodeId)
    requires Descending(nodes) && Descending(nodes + more)
    requires a < |nodes|
    ensures IsA(nodes + more, a, b) == IsA(nodes, a, b)
    decreases a
  {
    assert (nodes + more)[a] == nodes[a];
    if a != b && nodes[a].subtypeOf.Some? {
      IsAExtend(nodes, more, nodes[a].subtypeOf.value, b);
    }
  }

  lemma DescendingAppend(nodes: seq<NodeInfo>, info: NodeInfo)
    requires Descending(nodes)
    requires info.subtypeOf.Some? ==> info.subtypeOf.value < |nodes|
    ensures Descending(nodes + [info])
  {
    forall i | 0 <= i < |nodes + [info]| && (nodes + [info])[i].subtypeOf.Some?
      ensures (nodes + [info])[i].subtypeOf.value < i
    {
      if i < |nodes| {
        assert (nodes + [info])[i] == nodes[i];
      }
    }
  }

  // ---------------------------------------------------------------------------
  // Browsing references

  /** Reference `r` as seen from node `n`, browsing `t` references in direction `forward`. */
  function View(r: Reference, n: NodeId, t: NodeId, forward: bool): seq<Link> {
    if r.referenceType != t then []
    else if r.source == n && r.isForward == forward then [Link(r.referenceType, r.target)]
    else if r.target == n && r.isForward != forward then [Link(r.referenceType, r.source)]
    else []
  }

  /** node-opcua's `n.findReferencesEx(t, direction)`, in insertion order. */
  function FindReferences(refs: seq<Reference>, n: NodeId, t: NodeId, forward: bool): (links: seq<Link>)
    ensures |links| <= |refs|
    ensures forall l <- links :: l.referenceType == t
    decreases |refs|
  {
    if refs == [] then []
    else FindReferences(refs[..|refs| - 1], n, t, forward) + View(refs[|refs| - 1], n, t, forward)
  }

  /** The nodes at the other end of a list of links. */
  function Objects(links: seq<Link>): (ns: seq<NodeId>)
    ensures |ns| == |links|
    ensures forall i :: 0 <= i < |links| ==> ns[i] == links[i].node
  {
    seq(|links|, i requires 0 <= i < |links| => links[i].node)
  }

  /** node-opcua's `n.findReferencesExAsObject(t, direction)`. */
  function FindObjects(refs: seq<Reference>, n: NodeId, t: NodeId, forward: bool): seq<NodeId> {
    Objects(FindReferences(refs, n, t, forward))
  }

  lemma ObjectsAppend(a: seq<Link>, b: seq<Link>)
    ensures Objects(a + b) == Objects(a) + Objects(b)
  {
  }

  lemma FindReferencesSnoc(refs: seq<Reference>, r: Reference, n: NodeId, t: NodeId, forward: bool)
    ensures FindReferences(refs + [r], n, t, forward) == FindReferences(refs, n, t, forward) + View(r, n, t, forward)
  {
    assert (refs + [r])[..|refs|] == refs;
  }

  /** A reference added from `n` shows up last when `n` browses in the reference's own direction. */
  lemma FindObjectsSnocOwn(refs: seq<Reference>, n: NodeId, t: NodeId, m: NodeId, forward: bool)
    ensures FindObjects(refs + [Reference(n, t, m, forward)], n, t, forward) == FindObjects(refs, n, t, forward) + [m]
  {
    FindReferencesSnoc(refs, Reference(n, t, m, forward), n, t, forward);
    ObjectsAppend(FindReferences(refs, n, t, forward), [Link(t, m)]);
  }

  /** A reference that `n` cannot see through `t` in that direction leaves its browse as it was. */
  lemma FindObjectsSnocUnseen(refs: seq<Reference>, r: Reference, n: NodeId, t: NodeId, forward: bool)
    requires View(r, n, t, forward) == []
    ensures FindObjects(refs + [r], n, t, forward) == FindObjects(refs, n, t, forward)
  {
    FindReferencesSnoc(refs, r, n, t, forward);
    assert FindReferences(refs, n, t, forward) + [] == FindReferences(refs, n, t, forward);
  }

  /** A reference added from `n` to `m` shows `n` last when `m` browses in the opposite direction. */
  lemma FindObjectsSnocOther(refs: seq<Reference>, n: NodeId, t: NodeId, m: NodeId, forward: bool)
    ensures FindObjects(refs + [Reference(n, t, m, forward)], m, t, !forward) == FindObjects(refs, m, t, !forward) + [n]
  {
    FindReferencesSnoc(refs, Reference(n, t, m, forward), m, t, !forward);
    var v := View(Reference(n, t, m, forward), m, t, !forward);
    if n == m {
      assert v == [Link(t, n)];
    }
    ObjectsAppend(FindReferences(refs, m, t, !forward), v);
  }

  lemma AppendAssociative<T>(a: seq<T>, b: seq<T>, c: seq<T>)
    ensures (a + b) + c == a + (b + c)
  {
  }

  /** A non-empty sequence is its front followed by its last element. */
  lemma FrontLast<T>(a: seq<T>)
    requires a != []
    ensures a[..|a| - 1] + [a[|a| - 1]] == a
  {
  }

  /** Cutting a prefix of a prefix is cutting the shorter prefix. */
  lemma PrefixOfPrefix<T>(a: seq<T>, i: nat, j: nat)
    requires i <= j <= |a|
    ensures a[..j][..i] == a[..i]
  {
  }

  /** Browsing is compositional: references added later appear after the earlier ones. */
  lemma {:induction false} FindReferencesAppend(refs: seq<Reference>, more: seq<Reference>, n: NodeId, t: NodeId, forward: bool)
    ensures FindReferences(refs + more, n, t, forward)
         == FindReferences(refs, n, t, forward) + FindReferences(more, n, t, forward)
    decreases |more|
  {
    if more == [] {
      assert refs + more == refs;
    } else {
      var init := more[..|more| - 1];
      var last := more[|more| - 1];
      assert more == init + [last];
      assert refs + more == (refs + init) + [last];
      FindReferencesSnoc(refs + init, last, n, t, forward);
      FindReferencesSnoc(init, last, n, t, forward);
      FindReferencesAppend(refs, init, n, t, forward);
      AppendAssociative(FindReferences(refs, n, t, forward), FindReferences(init, n, t, forward), View(last, n, t, forward));
    }
  }

  lemma FindObjectsAppend(refs: seq<Reference>, more: seq<Reference>, n: NodeId, t: NodeId, forward: bool)
    ensures FindObjects(refs + more, n, t, forward) == FindObjects(refs, n, t, forward) + FindObjects(more, n, t, forward)
  {
    FindReferencesAppend(refs, more, n, t, forward);
    ObjectsAppend(FindReferences(refs, n, t, forward), FindReferences(more, n, t, forward));
  }

  /** Every reference touches only nodes below `bound`. */
  ghost predicate RefsWithin(refs: seq<Reference>, bound: nat) {
    forall i :: 0 <= i < |refs| ==>
      refs[i].source < bound && refs[i].referenceType < bound && refs[i].target < bound
  }

  /** Every link of `links` leads to a node below `bound` through a reference type below `bound`. */
  predicate LinksBelow(links: seq<Link>, bound: nat) {
    forall k :: 0 <= k < |links| ==> links[k].node < bound && links[k].referenceType < bound
  }

  /** Browsing a graph whose references stay within `bound` only ever reaches nodes below `bound`. */
  lemma {:induction false} FindReferencesWithin(refs: seq<Reference>, bound: nat, n: NodeId, t: NodeId, forward: bool)
    requires RefsWithin(refs, bound)
    ensures LinksBelow(FindReferences(refs, n, t, forward), bound)
    decreases |refs|
  {
    if refs != [] {
      var init := refs[..|refs| - 1];
      assert RefsWithin(init, bound) by {
        forall i | 0 <= i < |init| ensures init[i] == refs[i] { }
      }
      FindReferencesWithin(init, bound, n, t, forward);
      var r := refs[|refs| - 1];
      assert r.source < bound && r.referenceType < bound && r.target < bound;
    }
  }

  /** Every node of `ns` is below `bound`. */
  predicate AllBelow(ns: seq<NodeId>, bound: nat) {
    forall k :: 0 <= k < |ns| ==> ns[k] < bound
  }

  lemma FindObjectsWithin(refs: seq<Reference>, bound: nat, n: NodeId, t: NodeId, forward: bool)
    requires RefsWithin(refs, bound)
    ensures AllBelow(FindObjects(refs, n, t, forward), bound)
  {
    FindReferencesWithin(refs, bound, n, t, forward);
  }

  /** A node that no reference touches has nothing to browse, in either direction. */
  lemma {:induction false} FindReferencesFresh(refs: seq<Reference>, bound: nat, n: NodeId, t: NodeId, forward: bool)
    requires RefsWithin(refs, bound) && bound <= n
    ensures FindReferences(refs, n, t, forward) == []
    decreases |refs|
  {
    if refs != [] {
      var init := refs[..|refs| - 1];
      assert RefsWithin(init, bound) by {
        forall i | 0 <= i < |init| ensures init[i] == refs[i] { }
      }
      FindReferencesFresh(init, bound, n, t, forward);
    }
  }

  // ---------------------------------------------------------------------------
  // node-opcua string utilities used to derive field names

  function LowerChar(c: char): char {
    if 'A' <= c <= 'Z' then (c as int + 32) as char else c
  }

  function UpperChar(c: char): char {
    if 'a' <= c <= 'z' then (c as int - 32) as char else c
  }

  /** `opcua.utils.lowerFirstLetter` (ASCII letters only). */
  function LowerFirstLetter(s: string): (r: string)
    ensures |r| == |s|
    ensures |s| > 0 ==> r[0] == LowerChar(s[0]) && r[1..] == s[1..]
  {
    if s == [] then [] else [LowerChar(s[0])] + s[1..]
  }

  /** `opcua.utils.capitalizeFirstLetter` (ASCII letters only). */
  function CapitalizeFirstLetter(s: string): (r: string)
    ensures |r| == |s|
    ensures |s| > 0 ==> r[0] == UpperChar(s[0]) && r[1..] == s[1..]
  {
    if s == [] then [] else [UpperChar(s[0])] + s[1..]
  }
}
