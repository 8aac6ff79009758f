/** Doubly linked lists, as several of the programs build them: nodes whose `prev` and `next` are relinked in place.
    A list is described by the sequence of its nodes. */
module DoublyLinked {
  /** `home` is the object, if any, that the node always belongs to. */
  class Node<T> {
    const item: T
    ghost const home: object?
    var prev: Node?<T>
    var next: Node?<T>

    constructor (item: T, ghost home: object?)
      ensures this.item == item && this.home == home && prev == null && next == null
    {
      this.item := item;
      this.home := home;
      prev, next := null, null;
    }
  }

  ghost function At<T>(s: seq<Node<T>>, i: int): Node?<T> {
    if 0 <= i < |s| then s[i] else null
  }

  /** Each node's `prev` and `next` are its neighbours, and the ends are NULL. */
  ghost predicate Linked<T>(s: seq<Node<T>>)
    reads s
  {
    forall i :: 0 <= i < |s| ==> s[i].prev == At(s, i - 1) && s[i].next == At(s, i + 1)
  }

  ghost predicate Distinct<T>(s: seq<Node<T>>) {
    forall i, j :: 0 <= i < j < |s| ==> s[i] != s[j]
  }

  ghost predicate Apart<T>(s: seq<Node<T>>, t: seq<Node<T>>) {
    forall i, j :: 0 <= i < |s| && 0 <= j < |t| ==> s[i] != t[j]
  }

  lemma ApartSymmetric<T>(s: seq<Node<T>>, t: seq<Node<T>>)
    requires Apart(s, t)
    ensures Apart(t, s)
  {
  }

  ghost predicate Within<T>(s: seq<Node<T>>, nodes: set<Node<T>>) {
    forall i :: 0 <= i < |s| ==> s[i] in nodes
  }

  ghost predicate OwnedBy<T>(nodes: set<Node<T>>, home: object) {
    forall c :: c in nodes ==> c.home == home
  }

  ghost function Drop<T>(s: seq<Node<T>>, k: nat): seq<Node<T>>
    requires k < |s|
  {
    s[..k] + s[k + 1..]
  }

  /** How dropping one node moves the others. */
  lemma AtDrop<T>(s: seq<Node<T>>, k: nat, i: int)
    requires k < |s|
    ensures At(Drop(s, k), i) == At(s, if i < k then i else i + 1)
  {
  }

  lemma DropFacts<T>(s: seq<Node<T>>, k: nat, t: seq<Node<T>>, nodes: set<Node<T>>)
    requires k < |s| && Distinct(s) && Apart(t, s) && Within(s, nodes)
    ensures Distinct(Drop(s, k)) && Apart(Drop(s, k), [s[k]]) && Within(Drop(s, k), nodes)
    ensures Apart(t, Drop(s, k)) && Apart(Drop(s, k), t) && Apart(t, [s[k]])
  {
  }

  /** When the neighbours of node `k` point past it and the other links stand, the rest is linked. */
  lemma DropLinks<T>(s: seq<Node<T>>, k: nat)
    requires k < |s|
    requires forall i :: 0 <= i < |s| && i != k && i != k + 1 ==> s[i].prev == At(s, i - 1)
    requires forall i :: 0 <= i < |s| && i != k && i != k - 1 ==> s[i].next == At(s, i + 1)
    requires 0 < k ==> s[k - 1].next == At(s, k + 1)
    requires k + 1 < |s| ==> s[k + 1].prev == At(s, k - 1)
    ensures Linked(Drop(s, k))
  {
  }

  lemma AtAppend<T>(s: seq<Node<T>>, c: Node<T>, i: int)
    ensures At(s + [c], i) == if i == |s| then c else At(s, i)
  {
  }

  lemma AppendLinks<T>(s: seq<Node<T>>, c: Node<T>)
    requires forall i :: 0 <= i < |s| ==> s[i].prev == At(s, i - 1)
    requires forall i :: 0 <= i < |s| - 1 ==> s[i].next == At(s, i + 1)
    requires |s| > 0 ==> s[|s| - 1].next == c
    requires c.prev == At(s, |s| - 1) && c.next == null
    ensures Linked(s + [c])
  {
  }

  lemma AppendFacts<T>(s: seq<Node<T>>, c: Node<T>, t: seq<Node<T>>, nodes: set<Node<T>>)
    requires Distinct(s) && Apart(s, [c]) && Apart(t, s) && Apart(t, [c]) && Within(s, nodes) && c in nodes
    ensures Distinct(s + [c]) && Apart(t, s + [c]) && Within(s + [c], nodes)
  {
  }

  lemma PrependLinks<T>(s: seq<Node<T>>, c: Node<T>)
    requires forall i :: 0 < i < |s| ==> s[i].prev == At(s, i - 1)
    requires forall i :: 0 <= i < |s| ==> s[i].next == At(s, i + 1)
    requires |s| > 0 ==> s[0].prev == c
    requires c.prev == null && c.next == At(s, 0)
    ensures Linked([c] + s)
  {
  }

  lemma PrependFacts<T>(s: seq<Node<T>>, c: Node<T>, t: seq<Node<T>>, nodes: set<Node<T>>)
    requires Distinct(s) && Apart(s, [c]) && Apart(s, t) && Apart(t, [c]) && Within(s, nodes) && c in nodes
    ensures Distinct([c] + s) && Apart([c] + s, t) && Within([c] + s, nodes)
  {
  }

  lemma AtEnd<T>(s: seq<Node<T>>)
    ensures At(s, |s|) == null
  {
  }

  lemma NewNodesFacts<T>(s: seq<Node<T>>, added: set<Node<T>>, t: seq<Node<T>>, nodes: set<Node<T>>, home: object)
    requires Within(s, added) && Within(t, nodes) && added !! nodes && OwnedBy(added, home) && OwnedBy(nodes, home)
    ensures Apart(s, t) && Within(s, nodes + added) && Within(t, nodes + added) && OwnedBy(nodes + added, home)
  {
  }

  lemma WithinAt<T>(s: seq<Node<T>>, k: nat, nodes: set<Node<T>>)
    requires Within(s, nodes) && k < |s|
    ensures s[k] in nodes
  {
  }

  lemma EmptyFacts<T>(home: object)
    ensures Linked<T>([]) && Distinct<T>([]) && Within<T>([], {}) && OwnedBy<T>({}, home)
    ensures At<T>([], -1) == null && At<T>([], 0) == null
  {
  }

  lemma NewNodeFacts<T>(s: seq<Node<T>>, nodes: set<Node<T>>, c: Node<T>, home: object)
    requires c !in nodes && Within(s, nodes) && OwnedBy(nodes, home) && c.home == home
    ensures Apart(s, [c]) && Apart<T>([], s) && Apart<T>([], [c])
    ensures Within(s, nodes + {c}) && OwnedBy(nodes + {c}, home)
  {
  }

  lemma NeighboursAt<T>(s: seq<Node<T>>, k: nat)
    requires Linked(s) && k < |s|
    ensures s[k].prev == At(s, k - 1) && s[k].next == At(s, k + 1) && |Drop(s, k)| == |s| - 1
    ensures At(Drop(s, k), 0) == if s[k].prev == null then s[k].next else At(s, 0)
    ensures At(Drop(s, k), |s| - 2) == if s[k].next == null then s[k].prev else At(s, |s| - 1)
  {
  }

  /** The neighbours of a node are joined and the node is left without links. */
  method Detach<T>(node: Node<T>, ghost s: seq<Node<T>>, ghost k: nat)
    requires Linked(s) && Distinct(s) && k < |s| && s[k] == node
    modifies s
    ensures Linked(Drop(s, k)) && node.prev == null && node.next == null
  {
    assert node.prev == At(s, k - 1) && node.next == At(s, k + 1);
    if node.prev != null {
      node.prev.next := node.next;
    }
    if node.next != null {
      node.next.prev := node.prev;
    }
    node.prev := null;
    node.next := null;
    DropLinks(s, k);
  }

  lemma ConcatLinks<T>(s: seq<Node<T>>, t: seq<Node<T>>)
    requires forall i :: 0 <= i < |s| ==> s[i].prev == At(s, i - 1)
    requires forall i :: 0 <= i < |s| - 1 ==> s[i].next == At(s, i + 1)
    requires forall i :: 0 < i < |t| ==> t[i].prev == At(t, i - 1)
    requires forall i :: 0 <= i < |t| ==> t[i].next == At(t, i + 1)
    requires s != [] ==> s[|s| - 1].next == At(t, 0)
    requires t != [] ==> t[0].prev == At(s, |s| - 1)
    ensures Linked(s + t)
  {
  }

  lemma AtConcat<T>(s: seq<Node<T>>, t: seq<Node<T>>, i: int)
    ensures At(s + t, i) == if i < |s| then At(s, i) else At(t, i - |s|)
  {
  }
}
