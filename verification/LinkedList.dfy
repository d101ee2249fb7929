/** The doubly linked ring of Go's container/list: real nodes around a sentinel. */
module LinkedLists {
  class Element<T(0)> {
    var next: Element?<T>
    var prev: Element?<T>
    /** The list this element belongs to. Init does not clear it on the elements it drops. */
    var list: List?<T>
    const value: T

    constructor (value: T)
      ensures this.value == value && next == null && prev == null && list == null
    {
      this.value := value;
      next, prev, list := null, null, null;
    }
  }

  ghost function Without<T>(s: seq<T>, i: int): seq<T>
    requires 0 <= i < |s|
  {
    s[..i] + s[i + 1..]
  }

  class List<T(0)> {
    const root: Element<T>
    var len: int
    /** The elements from front to back. */
    ghost var nodes: seq<Element<T>>
    /** The sentinel, the elements, and those removed since the last Init. */
    ghost var elements: set<Element<T>>

    /** The next and prev fields form the ring root, nodes[0], nodes[1], ..., root. */
    ghost predicate Linked()
      reads this`nodes, this`elements, elements`next, elements`prev
    {
      && root in elements && root !in nodes
      && (forall i :: 0 <= i < |nodes| ==> nodes[i] in elements)
      && (forall i, j :: 0 <= i < j < |nodes| ==> nodes[i] != nodes[j])
      && root.next == (if nodes == [] then root else nodes[0])
      && root.prev == (if nodes == [] then root else nodes[|nodes| - 1])
      && (forall i {:trigger nodes[i].next} :: 0 <= i < |nodes| ==>
        nodes[i].next == if i + 1 < |nodes| then nodes[i + 1] else root)
      && (forall i {:trigger nodes[i].prev} :: 0 <= i < |nodes| ==>
        nodes[i].prev == if i > 0 then nodes[i - 1] else root)
    }

    ghost predicate Valid()
      reads this`nodes, this`elements, this`len, elements`next, elements`prev, elements`list
    {
      && len == |nodes|
      && Linked()
      && (forall i :: 0 <= i < |nodes| ==> nodes[i].list == this)
    }

    constructor ()
      ensures Valid() && nodes == [] && fresh(elements)
    {
      var value: T := *;
      var sentinel := new Element<T>(value);
      root, len, nodes, elements := sentinel, 0, [], {sentinel};
      new;
      root.next, root.prev := root, root;
    }

    /** Empties the list; the dropped elements keep their links. */
    method Init()
      requires root in elements
      modifies this, root
      ensures Valid() && nodes == [] && elements <= old(elements)
    {
      root.next, root.prev, len := root, root, 0;
      nodes, elements := [], {root};
    }

    method Back() returns (e: Element?<T>)
      requires Valid()
      ensures nodes == [] ==> e == null
      ensures nodes != [] ==> e == nodes[|nodes| - 1]
    {
      if len == 0 {
        return null;
      }
      return root.prev;
    }

    /** Takes an element out of the ring; its own links stay. */
    method Unlink(e: Element<T>, ghost i: int)
      requires Linked() && 0 <= i < |nodes| && nodes[i] == e
      modifies this`nodes, elements`next, elements`prev
      ensures Linked() && nodes == Without(old(nodes), i)
    {
      e.prev.next := e.next;
      e.next.prev := e.prev;
      nodes := Without(nodes, i);
    }

    /** Puts an element between the sentinel and the first one. */
    method LinkFront(e: Element<T>)
      requires Linked() && e !in nodes && e != root && e in elements
      modifies this`nodes, elements`next, elements`prev
      ensures Linked() && nodes == [e] + old(nodes)
    {
      e.prev := root;
      e.next := root.next;
      e.prev.next := e;
      e.next.prev := e;
      nodes := [e] + nodes;
    }

    method PushFront(value: T) returns (e: Element<T>)
      requires Valid()
      modifies this, elements
      ensures Valid() && fresh(e) && nodes == [e] + old(nodes) && elements == old(elements) + {e}
      ensures e.value == value
    {
      e := new Element<T>(value);
      elements := elements + {e};
      LinkFront(e);
      e.list := this;
      len := len + 1;
    }

    /** Does nothing to an element of another list. */
    method Remove(e: Element<T>, ghost i: int)
      requires Valid() && (e.list == this ==> 0 <= i < |nodes| && nodes[i] == e)
      modifies this, elements
      ensures Valid() && elements == old(elements)
      ensures nodes == if old(e.list) == this then Without(old(nodes), i) else old(nodes)
      ensures if old(e.list) == this then e.next == null && e.prev == null && e.list == null
              else e.next == old(e.next) && e.prev == old(e.prev) && e.list == old(e.list)
    {
      if e.list == this {
        Unlink(e, i);
        e.next, e.prev, e.list := null, null, null;
        len := len - 1;
      }
    }

    method MoveToFront(e: Element<T>, ghost i: int)
      requires Valid() && (e.list == this ==> 0 <= i < |nodes| && nodes[i] == e)
      modifies this, elements
      ensures Valid() && elements == old(elements)
      ensures nodes == if old(e.list) == this then [e] + Without(old(nodes), i) else old(nodes)
    {
      if e.list != this || root.next == e {
        return;
      }
      Unlink(e, i);
      LinkFront(e);
    }
  }
}
