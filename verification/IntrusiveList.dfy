/**
 * The circular doubly linked list of the kernel, as the reply queues use it: the link fields
 * sit inside the queued object, and a separate head closes the circle.
 */
module IntrusiveList {
  import opened Kernel

  /** A `struct list_head`. `entry` is what `list_first_entry` recovers from the address of a
      link: the channel the enclosing reply belongs to (unused in the head of a list). */
  class ListHead {
    var next: ListHead?
    var prev: ListHead?
    const entry: nat

    constructor (entry: nat)
      ensures next == null && prev == null && this.entry == entry
    {
      next, prev := null, null;
      this.entry := entry;
    }
  }

  /** The links met on one trip around the list, starting and ending at the head. */
  ghost function Circle(head: ListHead, nodes: seq<ListHead>): seq<ListHead> {
    [head] + nodes + [head]
  }

  /** The heap holds a list with this head and exactly these nodes, in this order. */
  ghost predicate Ring(head: ListHead, nodes: seq<ListHead>)
    reads head, nodes
  {
    && head !in nodes
    && Distinct(nodes)
    && forall i :: 0 <= i <= |nodes| ==>
         && Circle(head, nodes)[i].next == Circle(head, nodes)[i + 1]
         && Circle(head, nodes)[i + 1].prev == Circle(head, nodes)[i]
  }

  method InitListHead(head: ListHead)
    modifies head
    ensures Ring(head, [])
  {
    head.next := head;
    head.prev := head;
  }

  /** A node that is not linked becomes the last of the list. A node that already is linked cannot
      be linked again: whatever its place, the pointers afterwards form no list at all. */
  method ListAddTail(node: ListHead, head: ListHead, ghost nodes: seq<ListHead>)
    requires Ring(head, nodes)
    requires node != head
    modifies node, head, head.prev
    ensures node !in nodes ==> Ring(head, nodes + [node])
    ensures node in nodes ==> forall x: seq<ListHead> :: !Ring(head, x)
  {
    ghost var circle := Circle(head, nodes);
    assert circle[|nodes| + 1] == head;
    var last := head.prev;
    assert last == circle[|nodes|];
    head.prev := node;
    node.next := head;
    node.prev := last;
    last.next := node;
    if node !in nodes {
      ghost var grown := Circle(head, nodes + [node]);
      forall i | 0 <= i <= |nodes| + 1
        ensures grown[i].next == grown[i + 1] && grown[i + 1].prev == grown[i]
      {
        if i < |nodes| {
          assert grown[i] == circle[i] && grown[i + 1] == circle[i + 1];
        }
      }
    } else if node == last {
      forall x: seq<ListHead> ensures !Ring(head, x) {
        SelfLoop(head, node, x);
      }
    } else {
      ghost var k :| 0 <= k < |nodes| && nodes[k] == node;
      assert last == nodes[|nodes| - 1] && k < |nodes| - 1;
      ghost var path := circle[..k + 2];
      forall i | 0 <= i < k + 1 ensures path[i].next == path[i + 1] {
        assert path[i] == circle[i] && path[i] != last && path[i] != node;
      }
      forall x: seq<ListHead> ensures !Ring(head, x) {
        CutOff(head, path, last, x);
      }
    }
  }

  /** The links seen from the nodes, the last one closing the circle. */
  lemma BackLinks(head: ListHead, x: seq<ListHead>)
    requires Ring(head, x)
    ensures head.prev == if x == [] then head else x[|x| - 1]
    ensures x != [] ==> x[|x| - 1].next == head
    ensures forall i :: 0 <= i < |x| ==> x[i].prev == if i == 0 then head else x[i - 1]
  {
    var circle := Circle(head, x);
    assert circle[|x| + 1].prev == circle[|x|] && circle[|x|].next == circle[|x| + 1];
    forall i | 0 <= i < |x| ensures x[i].prev == if i == 0 then head else x[i - 1] {
      assert circle[i + 1].prev == circle[i];
    }
  }

  /** A last node that points to itself closes no list. */
  lemma SelfLoop(head: ListHead, node: ListHead, x: seq<ListHead>)
    requires node != head && node.next == node && head.prev == node
    ensures !Ring(head, x)
  {
    if Ring(head, x) {
      BackLinks(head, x);
    }
  }

  /** The forward pointers reach the last node along `path`, its backward pointer leads elsewhere. */
  lemma CutOff(head: ListHead, path: seq<ListHead>, elsewhere: ListHead, x: seq<ListHead>)
    requires |path| >= 2 && path[0] == head
    requires forall i :: 0 <= i < |path| - 1 ==> path[i].next == path[i + 1]
    requires forall i :: 0 < i < |path| ==> path[i] != head
    requires head.prev == path[|path| - 1] && path[|path| - 1].prev == elsewhere
    requires elsewhere != path[|path| - 2]
    ensures !Ring(head, x)
  {
    if Ring(head, x) {
      BackLinks(head, x);
      PathIsPrefix(head, path, x, |path| - 1);
    }
  }

  lemma {:induction false} PathIsPrefix(head: ListHead, path: seq<ListHead>, x: seq<ListHead>, n: nat)
    requires Ring(head, x) && n < |path| && path[0] == head
    requires forall i :: 0 <= i < |path| - 1 ==> path[i].next == path[i + 1]
    requires forall i :: 0 < i < |path| ==> path[i] != head
    ensures n <= |x|
    ensures forall i :: 0 <= i <= n ==> Circle(head, x)[i] == path[i]
    ensures n > 0 ==> x[n - 1] == path[n]
    ensures n > 1 ==> x[n - 2] == path[n - 1]
  {
    if n > 0 {
      PathIsPrefix(head, path, x, n - 1);
      assert Circle(head, x)[n - 1].next == Circle(head, x)[n];
      assert path[n - 1].next == path[n];
      assert Circle(head, x)[|x| + 1] == head;
    }
  }

  /** Unlinking the k-th node touches that node and its two neighbours only. */
  method ListDel(node: ListHead, ghost head: ListHead, ghost nodes: seq<ListHead>, ghost k: nat)
    requires Ring(head, nodes)
    requires k < |nodes| && nodes[k] == node
    modifies node, node.prev, node.next
    ensures Ring(head, nodes[..k] + nodes[k + 1..])
    ensures node.next == null && node.prev == null
  {
    ghost var circle := Circle(head, nodes);
    assert circle[k + 1] == node;
    var before, after := node.prev, node.next;
    assert before == circle[k] && after == circle[k + 2];
    after.prev := before;
    before.next := after;
    node.next := null;
    node.prev := null;
    ghost var rest := nodes[..k] + nodes[k + 1..];
    ghost var shrunk := Circle(head, rest);
    forall i | 0 <= i <= |rest|
      ensures shrunk[i].next == shrunk[i + 1] && shrunk[i + 1].prev == shrunk[i]
    {
      if i < k {
        assert shrunk[i] == circle[i] && shrunk[i + 1] == circle[i + 1];
      } else if i > k {
        assert shrunk[i] == circle[i + 1] && shrunk[i + 1] == circle[i + 2];
      }
    }
  }

  method ListEmpty(head: ListHead, ghost nodes: seq<ListHead>) returns (empty: bool)
    requires Ring(head, nodes)
    ensures empty <==> nodes == []
  {
    assert Circle(head, nodes)[0] == head;
    assert Circle(head, nodes)[1] == if nodes == [] then head else nodes[0];
    assert nodes != [] ==> nodes[0] in nodes;
    empty := head.next == head;
  }

  method ListFirst(head: ListHead, ghost nodes: seq<ListHead>) returns (first: ListHead)
    requires Ring(head, nodes) && nodes != []
    ensures first == nodes[0]
  {
    assert Circle(head, nodes)[0] == head && Circle(head, nodes)[1] == nodes[0];
    first := head.next;
  }

  /** The link reached from `from` by following `next` k times inside `region`. */
  ghost function Walk(from: ListHead, k: nat, region: set<ListHead>): (r: ListHead?)
    reads region
  {
    if k == 0 then from
    else if from in region && from.next != null then Walk(from.next, k - 1, region)
    else null
  }

  /** Walking from the i-th link of the circle visits the queued nodes in order. */
  lemma {:induction false} WalkVisits(head: ListHead, nodes: seq<ListHead>, i: nat, k: nat,
                                      region: set<ListHead>)
    requires Ring(head, nodes) && i + k <= |nodes| + 1
    requires head in region && forall n :: n in nodes ==> n in region
    ensures Walk(Circle(head, nodes)[i], k, region) == Circle(head, nodes)[i + k]
    decreases k
  {
    if k > 0 {
      WalkVisits(head, nodes, i + 1, k - 1, region);
    }
  }

  /** The heap determines the queue: one head carries one list only. */
  lemma {:induction false} RingUnique(head: ListHead, a: seq<ListHead>, b: seq<ListHead>)
    requires Ring(head, a) && Ring(head, b)
    ensures a == b
    decreases if |a| > |b| then 1 else 0
  {
    if |a| > |b| {
      RingUnique(head, b, a);
    } else {
      RingPrefix(head, a, b, |a| + 1);
      assert Circle(head, b)[|a| + 1] == Circle(head, a)[|a| + 1] == head;
      assert |a| == |b|;
      forall k | 0 <= k < |a| ensures a[k] == b[k] {
        assert Circle(head, a)[k + 1] == a[k] && Circle(head, b)[k + 1] == b[k];
      }
    }
  }

  lemma {:induction false} RingPrefix(head: ListHead, a: seq<ListHead>, b: seq<ListHead>, n: nat)
    requires Ring(head, a) && Ring(head, b)
    requires |a| <= |b| && n <= |a| + 1
    ensures forall i :: 0 <= i <= n ==> Circle(head, a)[i] == Circle(head, b)[i]
  {
    if n > 0 {
      RingPrefix(head, a, b, n - 1);
      assert Circle(head, a)[n - 1] == Circle(head, b)[n - 1];
    }
  }
}
