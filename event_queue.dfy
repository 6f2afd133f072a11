/** The cooperative event queue of the Zephyr adapter: a singly linked list of
    pending callbacks, each with a delay and the time it was scheduled, with
    head and tail pointers. `call` and `call_in` append at the tail; each pass
    of `dispatch_forever` runs every ready node in list order and unlinks it.

    Nodes live in a map from node identities to node records, which stands for
    the heap; `ids` is the ghost list order. The class follows the code with its
    pointer defects repaired; the defects themselves are modelled as written in
    module EventList. */
module EventQueue {
  import opened Common
  import opened EventList

  /** The queue, as the code intends it. */
  class Queue {
    /** The allocated nodes. */
    var nodes: map<NodeId, Node>
    /** `_head` and `_tail`; None is a null pointer. */
    var head: Option<NodeId>
    var tail: Option<NodeId>
    /** An identity no allocated node has: what `new` returns next. */
    var nextId: NodeId
    /** The latest uptime reading, in milliseconds. */
    var clock: nat
    /** The nodes in list order, from `_head` along the `next` pointers. */
    ghost var ids: seq<NodeId>

    ghost predicate Valid()
      reads this
    {
      Linked(ids, nodes, head, tail, nextId)
    }

    /** The queued events, head first. */
    ghost function Events(): (s: seq<Event>)
      requires Valid()
      reads this
      ensures |s| == |ids|
    {
      EventsOf(ids, nodes)
    }

    /** The invariant the source asserts on every append and on destruction. */
    lemma HeadTailAgree()
      requires Valid()
      ensures head.None? <==> tail.None?
    {
    }

    /** A queue with no nodes, at uptime `now`. */
    constructor (now: nat)
      ensures Valid() && Events() == [] && clock == now
    {
      nodes := map[];
      head := None;
      tail := None;
      nextId := 0;
      clock := now;
      ids := [];
    }

    /** `append`: a new node with a null `next` goes after the tail; the existing
        nodes keep their order, and the head changes only on an empty queue. */
    method Append(callback: Callback, millis: uint32, now: nat)
      requires Valid() && clock <= now
      modifies this
      ensures Valid() && clock == now
      ensures Events() == old(Events()) + [Event(callback, millis, now)]
      ensures ids == old(ids) + [old(nextId)]
      ensures old(head).Some? ==> head == old(head)
      ensures old(head).None? ==> head == Some(old(nextId))
    {
      var id := nextId;
      var ev := Event(callback, millis, now);
      AppendLinked(ids, nodes, id, ev);
      if head.None? {
        nodes := nodes[id := Node(ev, None)];
        head := Some(id);
        tail := head;
      } else {
        var t := tail.value;
        nodes := nodes[t := nodes[t].(next := Some(id))][id := Node(ev, None)];
        tail := Some(id);
      }
      ids := ids + [id];
      nextId := nextId + 1;
      clock := now;
    }

    /** `call`: schedule a callback with no delay. */
    method Call(callback: Callback, now: nat)
      requires Valid() && clock <= now
      modifies this
      ensures Valid() && clock == now
      ensures Events() == old(Events()) + [Event(callback, 0, now)]
    {
      Append(callback, 0, now);
    }

    /** `call_in`: schedule a callback to run once `millis` ms have passed. */
    method CallIn(millis: uint32, callback: Callback, now: nat)
      requires Valid() && clock <= now
      modifies this
      ensures Valid() && clock == now
      ensures Events() == old(Events()) + [Event(callback, millis, now)]
    {
      Append(callback, millis, now);
    }

    /** `removeNode(prev, node)`: with `prev == node` the node must be the head and
        the head advances; otherwise `prev` must point to `node` and is made to
        point past it. The node is deallocated and no other node changes. Unlike
        the code, a removed tail also moves `_tail`. */
    method RemoveNode(prev: NodeId, node: NodeId, ghost k: nat)
      requires Valid()
      requires k < |ids| && ids[k] == node
      requires prev == node ==> head == Some(node)
      requires prev != node ==> prev in nodes && nodes[prev].next == Some(node)
      modifies this
      ensures Valid()
      ensures ids == old(ids[..k] + ids[k + 1..])
      ensures Events() == old(Events()[..k] + Events()[k + 1..])
      ensures node !in nodes
      ensures forall id :: id in nodes && id != prev ==> id in old(nodes) && nodes[id] == old(nodes[id])
      ensures clock == old(clock)
    {
      ChainAt(ids, nodes, k);
      RemoveIndex(ids, nodes, head, prev, k);
      ghost var nodes' := RemoveNodes(nodes, ids, k);
      ghost var head' := if k == 0 then (if 1 < |ids| then Some(ids[1]) else None) else head;
      ghost var tail' := if tail == Some(ids[k]) then (if k == 0 then None else Some(ids[k - 1])) else tail;
      RemoveLinked(ids, nodes, head, tail, nextId, k, head', tail');
      var h, t, m := head, tail, nodes;
      if prev == node {
        h := m[node].next;
        if t == Some(node) {
          t := None;
        }
        m := m - {node};
      } else {
        m := m[prev := m[prev].(next := m[node].next)] - {node};
        if t == Some(node) {
          t := Some(prev);
        }
      }
      assert m == nodes' && h == head' && t == tail';
      head, tail, nodes, ids := h, t, m, ids[..k] + ids[k + 1..];
    }

    /** A callback runs at uptime `now`; its effect on the queue is the `call`
        and `call_in` requests `post`, each appended at the tail in order. The
        nodes already listed stay where they are. */
    method RunCallback(post: seq<Post>, now: nat)
      requires Valid() && clock <= now
      modifies this
      ensures Valid() && clock == now
      ensures Events() == old(Events()) + Stamp(post, now)
      ensures |ids| == |old(ids)| + |post| && ids[..|old(ids)|] == old(ids)
    {
      clock := now;
      var i := 0;
      while i < |post|
        invariant i <= |post|
        invariant Valid() && clock == now
        invariant Events() == old(Events()) + Stamp(post[..i], now)
        invariant |ids| == |old(ids)| + i && ids[..|old(ids)|] == old(ids)
      {
        ghost var before := ids;
        Append(post[i].callback, post[i].millis, now);
        assert ids[..|old(ids)|] == before[..|old(ids)|];
        assert Stamp(post[..i + 1], now) == Stamp(post[..i], now) + [Event(post[i].callback, post[i].millis, now)];
        i := i + 1;
      }
      assert post[..i] == post;
    }

    /** The node at position `j`, with `prev` before it (or `prev == node` at
        the head): the node after it is read, then the node is unlinked. */
    method Unlink(prev: NodeId, node: NodeId, ghost j: nat) returns (prev': Option<NodeId>, next: Option<NodeId>)
      requires Valid() && j < |ids| && node == ids[j]
      requires prev == (if j == 0 then node else ids[j - 1])
      modifies this
      ensures Valid() && clock == old(clock)
      ensures Events() == old(Events()[..j] + Events()[j + 1..])
      ensures next == (if j < |ids| then Some(ids[j]) else None)
      ensures prev' == (if j == 0 then next else Some(ids[j - 1]))
    {
      ChainAt(ids, nodes, j);
      next := nodes[node].next;
      if prev == node {
        assert j == 0 by {
          if j > 0 {
            DistinctAt(ids, j - 1, j);
          }
        }
        RemoveNode(node, node, j);
        prev' := next;
      } else {
        ChainAt(ids, nodes, j - 1);
        RemoveNode(prev, node, j);
        prev' := Some(prev);
      }
    }

    /** A ready node at position `j`: its callback runs at uptime `now` and
        appends `post`, and then the node is unlinked. */
    method RunNode(now: nat, post: seq<Post>, prev: NodeId, node: NodeId, ghost j: nat)
      returns (prev': Option<NodeId>, next: Option<NodeId>)
      requires Valid() && clock <= now && j < |ids| && node == ids[j]
      requires prev == (if j == 0 then node else ids[j - 1])
      modifies this
      ensures Valid() && clock == now
      ensures Events() == old(Events()[..j] + Events()[j + 1..]) + Stamp(post, now)
      ensures next == (if j < |ids| then Some(ids[j]) else None)
      ensures prev' == (if j == 0 then next else Some(ids[j - 1]))
    {
      ghost var ids1, s1 := ids, Events();
      RunCallback(post, now);
      assert ids[j] == ids1[j] by {
        assert ids[..|ids1|][j] == ids1[j];
      }
      assert j > 0 ==> ids[j - 1] == ids1[j - 1] by {
        if j > 0 {
          assert ids[..|ids1|][j - 1] == ids1[j - 1];
        }
      }
      ghost var s2 := Events();
      prev', next := Unlink(prev, node, j);
      assert s2[..j] + s2[j + 1..] == (s1[..j] + s1[j + 1..]) + Stamp(post, now);
    }

    /** One step of the inner loop of `dispatch_forever`, the `k`-th visit of
        the pass, at the node at position `|p.kept|` of the list, with `prev`
        before it (or `prev == node` at the head). `ready()` reads the uptime
        `uptime(k)`. A ready node's callback runs (the `r`-th run of the pass)
        and the node is unlinked, the pass staying at its position; any other
        node is kept and the pass moves past it. */
    method Visit(uptime: nat -> nat, posts: seq<seq<Post>>, k: nat, r: nat, prev: NodeId, node: NodeId,
                 ghost p: Pass)
      returns (run: seq<Event>, prev': Option<NodeId>, next: Option<NodeId>, ghost q: Pass)
      requires Valid() && clock <= uptime(k) && k == Visited(p) && r == |p.ran|
      requires Events() == p.kept + p.rest && |p.kept| < |ids| && node == ids[|p.kept|]
      requires prev == (if |p.kept| == 0 then node else ids[|p.kept| - 1])
      modifies this
      ensures q == Step(p, uptime, posts) && q.ran == p.ran + run
      ensures Valid() && clock == uptime(k)
      ensures Events() == q.kept + q.rest
      ensures next == (if |q.kept| < |ids| then Some(ids[|q.kept|]) else None)
      ensures prev' == (if |q.kept| == 0 then next else Some(ids[|q.kept| - 1]))
    {
      ghost var j := |p.kept|;
      var t := uptime(k);
      StepOn(p, uptime, posts, Events());
      EventAt(ids, nodes, j);
      var ev := nodes[node].event;
      q := Step(p, uptime, posts);
      if Ready(ev, t) {
        var post := if r < |posts| then posts[r] else [];
        prev', next := RunNode(t, post, prev, node, j);
        run := [ev];
      } else {
        next := KeepNode(t, node, j);
        run, prev' := [], Some(node);
      }
    }

    /** A node that is not ready, at position `j`, read at uptime `now`: the
        pass moves on to the node after it. */
    method KeepNode(now: nat, node: NodeId, ghost j: nat) returns (next: Option<NodeId>)
      requires Valid() && clock <= now && j < |ids| && node == ids[j]
      modifies this
      ensures Valid() && clock == now && ids == old(ids) && Events() == old(Events())
      ensures next == (if j + 1 < |ids| then Some(ids[j + 1]) else None)
    {
      ChainAt(ids, nodes, j);
      next := nodes[node].next;
      clock := now;
    }

    /** One pass of `dispatch_forever`: the visits read the uptimes `uptime(0)`,
        `uptime(1)`, ... in turn, and the callbacks run in the pass post what
        `posts` lists, in the order they run. Returns the events run, in the
        order they run; the queue keeps what `Dispatch` keeps. The node after a
        removed one is read before the removal, and `prev` stays put when its
        successor is removed. */
    method DispatchOnce(uptime: nat -> nat, posts: seq<seq<Post>>) returns (ran: seq<Event>)
      requires Valid() && clock <= uptime(0)
      requires forall i: nat, j: nat :: i <= j ==> uptime(i) <= uptime(j)
      modifies this
      ensures Valid()
      ensures ran == Dispatch(old(Events()), uptime, posts).ran
      ensures Events() == Dispatch(old(Events()), uptime, posts).kept
    {
      ghost var s0 := Events();
      ghost var p := Pass([], s0, [], []);
      var k := 0;
      var prev := head;
      var node := head;
      ran := [];
      while node.Some?
        invariant Valid() && k == Visited(p) && ran == p.ran && clock <= uptime(k)
        invariant Events() == p.kept + p.rest
        invariant node == (if |p.kept| < |ids| then Some(ids[|p.kept|]) else None)
        invariant prev == (if |p.kept| == 0 then node else Some(ids[|p.kept| - 1]))
        invariant Finish(p, uptime, posts) == Dispatch(s0, uptime, posts)
        decreases Remaining(p, posts)
      {
        ghost var p0 := p;
        var run;
        run, prev, node, p := Visit(uptime, posts, k, |ran|, prev.value, node.value, p);
        StepShrinks(p0, uptime, posts);
        ran := ran + run;
        k := k + 1;
      }
    }

    /** The destructor, repaired: every node is deallocated, the last included. */
    method Destroy()
      requires Valid()
      modifies this
      ensures Valid() && nodes == map[] && head.None? && tail.None?
      ensures clock == old(clock)
    {
      while head.Some?
        invariant Valid()
        invariant clock == old(clock)
        decreases |ids|
      {
        var h := head.value;
        RemoveNode(h, h, 0);
      }
      assert nodes.Keys == {};
    }
  }
}
