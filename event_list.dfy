/** The values the event queue is built from and the laws of a dispatch pass:
    events and their readiness, the ordering contract, the linked heap of
    nodes that stands for `_head`, `_tail` and the `next` pointers, and the
    code as written over a heap that keeps freed cells. */
module EventList {
  import opened Common

  type NodeId = nat

  /** The opaque `callback_t fn` and `void *arg` of a scheduled call. */
  datatype Callback = Callback(fn: nat, arg: nat)

  /** The payload of `EventQueue::Event`: the callback, its delay in
      milliseconds and the uptime at which it was scheduled. */
  datatype Event = Event(callback: Callback, millis: uint32, startTime: nat)

  /** A list node: the event and its `next` pointer. */
  datatype Node = Node(event: Event, next: Option<NodeId>)

  /** `Event::elapsed`: the 64-bit uptime difference, cast to `uint32_t`. */
  function Elapsed(e: Event, now: nat): (r: uint32)
    ensures 0 <= now - e.startTime < 0x1_0000_0000 ==> r == now - e.startTime
  {
    (now - e.startTime) % 0x1_0000_0000
  }

  /** `Event::ready` */
  predicate Ready(e: Event, now: nat)
  {
    Elapsed(e, now) >= e.millis
  }

  /** Within the range of the 32-bit cast, an event is ready exactly when its
      delay has passed. */
  lemma ReadyIffDelayPassed(e: Event, now: nat)
    requires e.startTime <= now < e.startTime + 0x1_0000_0000
    ensures Ready(e, now) <==> now - e.startTime >= e.millis
  {
  }

  /** A `call` event, scheduled with no delay, is ready at once. */
  lemma CallReadyAtOnce(cb: Callback, start: nat, now: nat)
    ensures Ready(Event(cb, 0, start), now)
  {
  }

  /** A `call_in(ms)` event is not ready before `ms` milliseconds have passed. */
  lemma CallInNotEarly(cb: Callback, ms: uint32, start: nat, now: nat)
    requires start <= now < start + ms
    ensures !Ready(Event(cb, ms, start), now)
  {
  }

  /** The events of `s` that are ready at `now`, in queue order: what one pass runs. */
  function ReadyPart(s: seq<Event>, now: nat): (r: seq<Event>)
    ensures |r| <= |s|
  {
    if |s| == 0 then []
    else ReadyPart(s[..|s| - 1], now) + (if Ready(s[|s| - 1], now) then [s[|s| - 1]] else [])
  }

  /** The events of `s` that are not ready at `now`, in queue order: what a pass leaves. */
  function Waiting(s: seq<Event>, now: nat): (r: seq<Event>)
    ensures |r| <= |s|
  {
    if |s| == 0 then []
    else Waiting(s[..|s| - 1], now) + (if Ready(s[|s| - 1], now) then [] else [s[|s| - 1]])
  }

  lemma {:induction false} ReadyPartAppend(a: seq<Event>, b: seq<Event>, now: nat)
    ensures ReadyPart(a + b, now) == ReadyPart(a, now) + ReadyPart(b, now)
    ensures Waiting(a + b, now) == Waiting(a, now) + Waiting(b, now)
    decreases |b|
  {
    if |b| == 0 {
      assert a + b == a;
    } else {
      var b', x := b[..|b| - 1], b[|b| - 1];
      assert (a + b)[..|a + b| - 1] == a + b' && (a + b)[|a + b| - 1] == x;
      ReadyPartAppend(a, b', now);
      var r := if Ready(x, now) then [x] else [];
      var w := if Ready(x, now) then [] else [x];
      assert ReadyPart(a + b, now) == (ReadyPart(a, now) + ReadyPart(b', now)) + r;
      assert Waiting(a + b, now) == (Waiting(a, now) + Waiting(b', now)) + w;
    }
  }

  /** A pass runs exactly the ready events and keeps exactly the others: every
      event of the queue is either run or kept, and none is both or lost. */
  lemma {:induction false} PassPartition(s: seq<Event>, now: nat)
    ensures multiset(ReadyPart(s, now)) + multiset(Waiting(s, now)) == multiset(s)
    ensures forall e :: e in ReadyPart(s, now) <==> e in s && Ready(e, now)
    ensures forall e :: e in Waiting(s, now) <==> e in s && !Ready(e, now)
  {
    if |s| > 0 {
      PassPartition(s[..|s| - 1], now);
      assert s == s[..|s| - 1] + [s[|s| - 1]];
    }
  }

  /** The stable-removal law, in the form the ordering contract needs: two ready
      events run in the order they were queued, with exactly the ready events
      between them run in between. */
  lemma ReadyOrder(s: seq<Event>, now: nat, i: nat, j: nat)
    requires i < j < |s| && Ready(s[i], now) && Ready(s[j], now)
    ensures ReadyPart(s, now)
      == ReadyPart(s[..i], now) + [s[i]] + ReadyPart(s[i + 1..j], now) + [s[j]] + ReadyPart(s[j + 1..], now)
  {
    assert s == s[..i] + [s[i]] + s[i + 1..j] + [s[j]] + s[j + 1..];
    ReadyPartAppend(s[..i] + [s[i]] + s[i + 1..j] + [s[j]], s[j + 1..], now);
    ReadyPartAppend(s[..i] + [s[i]] + s[i + 1..j], [s[j]], now);
    ReadyPartAppend(s[..i] + [s[i]], s[i + 1..j], now);
    ReadyPartAppend(s[..i], [s[i]], now);
    assert ReadyPart([s[i]], now) == [s[i]] by { assert [s[i]][..0] == []; }
    assert ReadyPart([s[j]], now) == [s[j]] by { assert [s[j]][..0] == []; }
  }

  /** The index of the first pass, among passes at the given times, at which `e`
      is ready; `|times|` when it is ready at none. */
  function FirstPass(e: Event, times: seq<nat>): (p: nat)
    ensures p <= |times|
  {
    if |times| == 0 then 0
    else if Ready(e, times[0]) then 0
    else 1 + FirstPass(e, times[1..])
  }

  /** The events of `s` that first become ready at pass `p`, in arrival order. */
  function PassGroup(s: seq<Event>, times: seq<nat>, p: nat): seq<Event>
  {
    if |s| == 0 then []
    else
      PassGroup(s[..|s| - 1], times, p)
        + (if FirstPass(s[|s| - 1], times) == p then [s[|s| - 1]] else [])
  }

  /** The ordering contract: the groups of passes `p`, `p + 1`, ..., in pass order. */
  function ByReadiness(s: seq<Event>, times: seq<nat>, p: nat): seq<Event>
    decreases |times| - p
  {
    if p >= |times| then [] else PassGroup(s, times, p) + ByReadiness(s, times, p + 1)
  }

  /** What passes at the given times run, in order, starting from queue `s` with
      nothing added in between. */
  function Schedule(s: seq<Event>, times: seq<nat>): seq<Event>
    decreases |times|
  {
    if |times| == 0 then []
    else ReadyPart(s, times[0]) + Schedule(Waiting(s, times[0]), times[1..])
  }

  lemma {:induction false} PassGroupFirst(s: seq<Event>, times: seq<nat>)
    requires |times| > 0
    ensures PassGroup(s, times, 0) == ReadyPart(s, times[0])
  {
    if |s| > 0 {
      PassGroupFirst(s[..|s| - 1], times);
    }
  }

  lemma {:induction false} PassGroupLater(s: seq<Event>, times: seq<nat>, p: nat)
    requires |times| > 0
    ensures PassGroup(s, times, p + 1) == PassGroup(Waiting(s, times[0]), times[1..], p)
  {
    if |s| > 0 {
      var init, last := s[..|s| - 1], s[|s| - 1];
      PassGroupLater(init, times, p);
      var w := Waiting(init, times[0]);
      assert PassGroup(s, times, p + 1)
        == PassGroup(init, times, p + 1) + (if FirstPass(last, times) == p + 1 then [last] else []);
      if !Ready(last, times[0]) {
        assert Waiting(s, times[0]) == w + [last];
        assert FirstPass(last, times) == 1 + FirstPass(last, times[1..]);
        assert (w + [last])[..|w + [last]| - 1] == w && (w + [last])[|w + [last]| - 1] == last;
        assert PassGroup(w + [last], times[1..], p)
          == PassGroup(w, times[1..], p) + (if FirstPass(last, times[1..]) == p then [last] else []);
      } else {
        assert Waiting(s, times[0]) == w;
        assert FirstPass(last, times) == 0;
      }
    }
  }

  lemma {:induction false} ByReadinessShift(s: seq<Event>, times: seq<nat>, p: nat)
    requires |times| > 0
    ensures ByReadiness(s, times, p + 1) == ByReadiness(Waiting(s, times[0]), times[1..], p)
    decreases |times| - p
  {
    if p + 1 < |times| {
      PassGroupLater(s, times, p);
      ByReadinessShift(s, times, p + 1);
    }
  }

  /** The ordering contract of the queue's documentation: callbacks run in the
      order they become ready, and among those that become ready at the same
      pass, in the order they were scheduled. */
  lemma {:induction false} ScheduleOrder(s: seq<Event>, times: seq<nat>)
    ensures Schedule(s, times) == ByReadiness(s, times, 0)
    decreases |times|
  {
    if |times| > 0 {
      var w := Waiting(s, times[0]);
      calc {
        Schedule(s, times);
        ReadyPart(s, times[0]) + Schedule(w, times[1..]);
        { PassGroupFirst(s, times); ScheduleOrder(w, times[1..]); }
        PassGroup(s, times, 0) + ByReadiness(w, times[1..], 0);
        { ByReadinessShift(s, times, 0); }
        PassGroup(s, times, 0) + ByReadiness(s, times, 1);
        ByReadiness(s, times, 0);
      }
    }
  }

  /** No node appears twice in `ids`: each one is absent from the nodes before it. */
  ghost predicate Distinct(ids: seq<NodeId>)
    decreases |ids|
  {
    |ids| == 0 || (Absent(ids[|ids| - 1], ids[..|ids| - 1]) && Distinct(ids[..|ids| - 1]))
  }

  /** `x` is not in `s`. */
  ghost predicate Absent(x: NodeId, s: seq<NodeId>)
    decreases |s|
  {
    |s| == 0 || (s[|s| - 1] != x && Absent(x, s[..|s| - 1]))
  }

  lemma {:induction false} AbsentNotIn(x: NodeId, s: seq<NodeId>)
    ensures Absent(x, s) <==> x !in s
    decreases |s|
  {
    if |s| > 0 {
      AbsentNotIn(x, s[..|s| - 1]);
      assert s == s[..|s| - 1] + [s[|s| - 1]];
    }
  }

  /** The same, pairwise. */
  ghost predicate Unique(ids: seq<NodeId>)
  {
    forall i, j :: 0 <= i < j < |ids| ==> ids[i] != ids[j]
  }

  lemma {:induction false} DistinctUnique(ids: seq<NodeId>)
    ensures Distinct(ids) <==> Unique(ids)
    decreases |ids|
  {
    if |ids| > 0 {
      var init, x := ids[..|ids| - 1], ids[|ids| - 1];
      DistinctUnique(init);
      AbsentNotIn(x, init);
      assert forall i :: 0 <= i < |init| ==> init[i] == ids[i];
      if Unique(ids) {
        forall i | 0 <= i < |init| ensures init[i] != x {
          assert ids[i] != ids[|ids| - 1];
        }
      }
      if x !in init && Unique(init) {
        forall i, j | 0 <= i < j < |ids| ensures ids[i] != ids[j] {
          if j == |ids| - 1 {
            assert init[i] == ids[i];
          } else {
            assert init[i] != init[j];
          }
        }
      }
    }
  }

  /** Two positions of a distinct list hold different nodes. */
  lemma DistinctAt(ids: seq<NodeId>, i: nat, j: nat)
    requires Distinct(ids) && i < j < |ids|
    ensures ids[i] != ids[j]
  {
    DistinctUnique(ids);
  }

  /** `newId` is above every node identity of `ids`. */
  ghost predicate Below(ids: seq<NodeId>, newId: NodeId)
    decreases |ids|
  {
    |ids| == 0 || (ids[|ids| - 1] < newId && Below(ids[..|ids| - 1], newId))
  }

  /** The same, position by position. */
  ghost predicate AllBelow(ids: seq<NodeId>, newId: NodeId)
  {
    forall i :: 0 <= i < |ids| ==> ids[i] < newId
  }

  lemma {:induction false} BelowAll(ids: seq<NodeId>, newId: NodeId)
    ensures Below(ids, newId) <==> AllBelow(ids, newId)
    decreases |ids|
  {
    if |ids| > 0 {
      var init := ids[..|ids| - 1];
      BelowAll(init, newId);
      assert forall i :: 0 <= i < |init| ==> init[i] == ids[i];
    }
  }

  /** The identities on `ids`. */
  ghost function Elements(ids: seq<NodeId>): set<NodeId>
    decreases |ids|
  {
    if |ids| == 0 then {} else Elements(ids[..|ids| - 1]) + {ids[|ids| - 1]}
  }

  lemma {:induction false} ElementsIn(ids: seq<NodeId>)
    ensures forall x :: x in Elements(ids) <==> x in ids
    decreases |ids|
  {
    if |ids| > 0 {
      ElementsIn(ids[..|ids| - 1]);
      assert ids == ids[..|ids| - 1] + [ids[|ids| - 1]];
    }
  }

  /** Every node of `ids` is allocated and points to the one after it, the last
      one to `after`. */
  ghost predicate ChainTo(ids: seq<NodeId>, nodes: map<NodeId, Node>, after: Option<NodeId>)
    decreases |ids|
  {
    |ids| == 0
    || (ids[|ids| - 1] in nodes && nodes[ids[|ids| - 1]].next == after
        && ChainTo(ids[..|ids| - 1], nodes, Some(ids[|ids| - 1])))
  }

  /** The nodes of `ids` are linked in order, the last one to null. */
  ghost predicate Chained(ids: seq<NodeId>, nodes: map<NodeId, Node>)
  {
    ChainTo(ids, nodes, None)
  }

  /** The same, position by position. */
  ghost predicate Links(ids: seq<NodeId>, nodes: map<NodeId, Node>, after: Option<NodeId>)
  {
    (forall i :: 0 <= i < |ids| ==> ids[i] in nodes)
    && forall i {:trigger nodes[ids[i]]} :: 0 <= i < |ids| ==>
      nodes[ids[i]].next == (if i + 1 < |ids| then Some(ids[i + 1]) else after)
  }

  lemma {:induction false} ChainToLinks(ids: seq<NodeId>, nodes: map<NodeId, Node>, after: Option<NodeId>)
    ensures ChainTo(ids, nodes, after) <==> Links(ids, nodes, after)
    decreases |ids|
  {
    if |ids| > 0 {
      var init, last := ids[..|ids| - 1], ids[|ids| - 1];
      ChainToLinks(init, nodes, Some(last));
      assert forall i :: 0 <= i < |init| ==> init[i] == ids[i];
      if Links(ids, nodes, after) {
        forall i | 0 <= i < |init|
          ensures init[i] in nodes && nodes[init[i]].next == (if i + 1 < |init| then Some(init[i + 1]) else Some(last))
        {
          assert ids[i] in nodes && nodes[ids[i]].next == (if i + 1 < |ids| then Some(ids[i + 1]) else after);
        }
        var j := |ids| - 1;
        assert ids[j] in nodes && nodes[ids[j]].next == after;
      }
      if ChainTo(ids, nodes, after) {
        forall i | 0 <= i < |ids|
          ensures ids[i] in nodes && nodes[ids[i]].next == (if i + 1 < |ids| then Some(ids[i + 1]) else after)
        {
          if i < |init| {
            assert init[i] in nodes && nodes[init[i]].next == (if i + 1 < |init| then Some(init[i + 1]) else Some(last));
          }
        }
      }
    }
  }

  /** The node at position `j` and the one it points to. */
  lemma ChainAt(ids: seq<NodeId>, nodes: map<NodeId, Node>, j: nat)
    requires Chained(ids, nodes) && j < |ids|
    ensures ids[j] in nodes && nodes[ids[j]].next == (if j + 1 < |ids| then Some(ids[j + 1]) else None)
  {
    ChainToLinks(ids, nodes, None);
  }

  /** A well-formed list over the heap `nodes`, in order `ids`: the allocated
      nodes are exactly those on it, each once, `head` is its first node and
      `tail` its last (both null on an empty list), each node points to the one
      after it and the last to null, and `newId` is above every identity in use. */
  ghost predicate Linked(ids: seq<NodeId>, nodes: map<NodeId, Node>, head: Option<NodeId>,
                         tail: Option<NodeId>, newId: NodeId)
  {
    Distinct(ids) && Below(ids, newId) && nodes.Keys == Elements(ids) && Chained(ids, nodes)
    && head == (if |ids| == 0 then None else Some(ids[0]))
    && tail == (if |ids| == 0 then None else Some(ids[|ids| - 1]))
  }

  /** The events along `ids`. */
  ghost function EventsOf(ids: seq<NodeId>, nodes: map<NodeId, Node>): (s: seq<Event>)
    requires Elements(ids) <= nodes.Keys
    ensures |s| == |ids|
    decreases |ids|
  {
    if |ids| == 0 then [] else EventsOf(ids[..|ids| - 1], nodes) + [nodes[ids[|ids| - 1]].event]
  }

  lemma {:induction false} EventsAt(ids: seq<NodeId>, nodes: map<NodeId, Node>)
    requires Elements(ids) <= nodes.Keys
    ensures forall i :: 0 <= i < |ids| ==> ids[i] in nodes && EventsOf(ids, nodes)[i] == nodes[ids[i]].event
    decreases |ids|
  {
    if |ids| > 0 {
      var init := ids[..|ids| - 1];
      EventsAt(init, nodes);
      assert forall i :: 0 <= i < |init| ==> init[i] == ids[i];
    }
  }

  /** The event at position `i`. */
  lemma EventAt(ids: seq<NodeId>, nodes: map<NodeId, Node>, i: nat)
    requires Elements(ids) <= nodes.Keys && i < |ids|
    ensures ids[i] in nodes && EventsOf(ids, nodes)[i] == nodes[ids[i]].event
  {
    EventsAt(ids, nodes);
  }

  /** The heap after `append` links a new node `newId` holding `ev` after the
      last node of `ids`. */
  ghost function AppendNodes(nodes: map<NodeId, Node>, ids: seq<NodeId>, newId: NodeId, ev: Event): map<NodeId, Node>
    requires Chained(ids, nodes)
  {
    if |ids| == 0 then nodes[newId := Node(ev, None)]
    else
      var last := ids[|ids| - 1];
      nodes[last := nodes[last].(next := Some(newId))][newId := Node(ev, None)]
  }

  lemma AppendLinked(ids: seq<NodeId>, nodes: map<NodeId, Node>, newId: NodeId, ev: Event)
    requires Distinct(ids) && Below(ids, newId) && nodes.Keys == Elements(ids) && Chained(ids, nodes)
    ensures var nodes', ids' := AppendNodes(nodes, ids, newId, ev), ids + [newId];
      Distinct(ids') && Below(ids', newId + 1) && nodes'.Keys == Elements(ids') && Chained(ids', nodes')
      && EventsOf(ids', nodes') == EventsOf(ids, nodes) + [ev]
  {
    AppendIds(ids, newId);
    AppendClosed(ids, nodes, newId, ev);
    AppendChained(ids, nodes, newId, ev);
    var nodes', ids' := AppendNodes(nodes, ids, newId, ev), ids + [newId];
    assert ids'[..|ids|] == ids;
    EventsAt(ids, nodes);
    EventsAt(ids, nodes');
    assert EventsOf(ids, nodes') == EventsOf(ids, nodes);
  }

  lemma AppendIds(ids: seq<NodeId>, newId: NodeId)
    requires Distinct(ids) && Below(ids, newId)
    ensures Distinct(ids + [newId]) && Below(ids + [newId], newId + 1)
  {
    var ids' := ids + [newId];
    DistinctUnique(ids);
    BelowAll(ids, newId);
    assert forall i :: 0 <= i < |ids| ==> ids'[i] == ids[i] && ids[i] != newId;
    DistinctUnique(ids');
    BelowAll(ids', newId + 1);
  }

  lemma AppendClosed(ids: seq<NodeId>, nodes: map<NodeId, Node>, newId: NodeId, ev: Event)
    requires nodes.Keys == Elements(ids) && Chained(ids, nodes)
    ensures AppendNodes(nodes, ids, newId, ev).Keys == Elements(ids + [newId])
  {
    var ids' := ids + [newId];
    assert ids'[..|ids|] == ids;
    assert Elements(ids') == Elements(ids) + {newId};
  }

  lemma AppendChained(ids: seq<NodeId>, nodes: map<NodeId, Node>, newId: NodeId, ev: Event)
    requires Distinct(ids) && Below(ids, newId) && Chained(ids, nodes)
    ensures Chained(ids + [newId], AppendNodes(nodes, ids, newId, ev))
    ensures var nodes' := AppendNodes(nodes, ids, newId, ev);
      forall i :: 0 <= i < |ids| ==> ids[i] in nodes && ids[i] in nodes' && nodes'[ids[i]].event == nodes[ids[i]].event
    ensures newId in AppendNodes(nodes, ids, newId, ev) && AppendNodes(nodes, ids, newId, ev)[newId].event == ev
  {
    var nodes', ids' := AppendNodes(nodes, ids, newId, ev), ids + [newId];
    DistinctUnique(ids);
    BelowAll(ids, newId);
    forall i | 0 <= i < |ids'|
      ensures ids'[i] in nodes' && nodes'[ids'[i]].next == (if i + 1 < |ids'| then Some(ids'[i + 1]) else None)
      ensures i < |ids| ==> nodes'[ids[i]].event == nodes[ids[i]].event
    {
      if i < |ids| {
        ChainAt(ids, nodes, i);
        assert ids'[i] == ids[i] && ids[i] != newId;
        if i + 1 < |ids| {
          assert ids[i] != ids[|ids| - 1];
          assert ids'[i + 1] == ids[i + 1];
        }
      }
    }
    assert Links(ids', nodes', None);
    ChainToLinks(ids', nodes', None);
  }

  /** The heap after `removeNode` unlinks the node at position `k` of `ids`. */
  ghost function RemoveNodes(nodes: map<NodeId, Node>, ids: seq<NodeId>, k: nat): map<NodeId, Node>
    requires Chained(ids, nodes) && k < |ids|
  {
    ChainAt(ids, nodes, k);
    if k == 0 then nodes - {ids[0]}
    else
      ChainAt(ids, nodes, k - 1);
      nodes[ids[k - 1] := nodes[ids[k - 1]].(next := nodes[ids[k]].next)] - {ids[k]}
  }

  /** The index facts `removeNode`'s asserts give: with `prev == node` the node
      is the head, otherwise `prev` is the node just before it. */
  lemma RemoveIndex(ids: seq<NodeId>, nodes: map<NodeId, Node>, head: Option<NodeId>, prev: NodeId, k: nat)
    requires Distinct(ids) && nodes.Keys == Elements(ids) && Chained(ids, nodes)
    requires head == (if |ids| == 0 then None else Some(ids[0]))
    requires k < |ids|
    requires prev == ids[k] ==> head == Some(ids[k])
    requires prev != ids[k] ==> prev in nodes && nodes[prev].next == Some(ids[k])
    ensures prev == ids[k] ==> k == 0
    ensures prev != ids[k] ==> 0 < k && prev == ids[k - 1]
  {
    DistinctUnique(ids);
    if prev == ids[k] {
      assert ids[0] == ids[k];
    } else {
      ElementsIn(ids);
      assert prev in ids;
      var j :| 0 <= j < |ids| && ids[j] == prev;
      ChainAt(ids, nodes, j);
      assert j + 1 < |ids| && ids[j + 1] == ids[k];
      if j + 1 != k { assert false; }
    }
  }

  /** A removal keeps the list well formed; `head'` and `tail'` are the pointers
      after `removeNode` with the tail repaired. */
  lemma RemoveLinked(ids: seq<NodeId>, nodes: map<NodeId, Node>, head: Option<NodeId>, tail: Option<NodeId>,
                     newId: NodeId, k: nat, head': Option<NodeId>, tail': Option<NodeId>)
    requires Linked(ids, nodes, head, tail, newId)
    requires k < |ids|
    requires head' == (if k == 0 then (if 1 < |ids| then Some(ids[1]) else None) else head)
    requires tail' == (if tail == Some(ids[k]) then (if k == 0 then None else Some(ids[k - 1])) else tail)
    ensures Linked(ids[..k] + ids[k + 1..], RemoveNodes(nodes, ids, k), head', tail', newId)
    ensures ids[k] !in RemoveNodes(nodes, ids, k)
    ensures EventsOf(ids[..k] + ids[k + 1..], RemoveNodes(nodes, ids, k))
      == EventsOf(ids, nodes)[..k] + EventsOf(ids, nodes)[k + 1..]
  {
    RemoveIds(ids, newId, k);
    RemoveEvents(ids, nodes, k);
    RemoveEnds(ids, head, tail, k, if 1 < |ids| then Some(ids[1]) else None, head', tail');
  }

  /** The head and tail equations of `Linked` after a removal. */
  lemma RemoveEnds(ids: seq<NodeId>, head: Option<NodeId>, tail: Option<NodeId>, k: nat,
                   second: Option<NodeId>, head': Option<NodeId>, tail': Option<NodeId>)
    requires Distinct(ids) && k < |ids|
    requires head == Some(ids[0]) && tail == Some(ids[|ids| - 1])
    requires second == (if 1 < |ids| then Some(ids[1]) else None)
    requires head' == (if k == 0 then second else head)
    requires tail' == (if tail == Some(ids[k]) then (if k == 0 then None else Some(ids[k - 1])) else tail)
    ensures var ids' := ids[..k] + ids[k + 1..];
      head' == (if |ids'| == 0 then None else Some(ids'[0]))
      && tail' == (if |ids'| == 0 then None else Some(ids'[|ids'| - 1]))
  {
    var ids' := ids[..k] + ids[k + 1..];
    DistinctUnique(ids);
    if tail == Some(ids[k]) {
      assert ids[k] == ids[|ids| - 1];
      assert k == |ids| - 1;
      assert ids' == ids[..k];
    } else {
      assert k < |ids| - 1;
      assert ids'[|ids'| - 1] == ids[|ids| - 1];
    }
    if k == 0 {
      assert ids' == ids[1..];
    } else {
      assert ids'[0] == ids[0];
    }
  }

  lemma RemoveEvents(ids: seq<NodeId>, nodes: map<NodeId, Node>, k: nat)
    requires Chained(ids, nodes) && Distinct(ids) && nodes.Keys == Elements(ids) && k < |ids|
    ensures Chained(ids[..k] + ids[k + 1..], RemoveNodes(nodes, ids, k))
    ensures RemoveNodes(nodes, ids, k).Keys == Elements(ids[..k] + ids[k + 1..])
    ensures ids[k] !in RemoveNodes(nodes, ids, k)
    ensures EventsOf(ids[..k] + ids[k + 1..], RemoveNodes(nodes, ids, k))
      == EventsOf(ids, nodes)[..k] + EventsOf(ids, nodes)[k + 1..]
  {
    RemoveChained(ids, nodes, k);
    RemoveClosed(ids, nodes, k);
    var nodes', ids' := RemoveNodes(nodes, ids, k), ids[..k] + ids[k + 1..];
    var e, e' := EventsOf(ids, nodes), EventsOf(ids', nodes');
    EventsAt(ids, nodes);
    EventsAt(ids', nodes');
    assert forall i :: 0 <= i < |ids'| ==> ids'[i] == ids[if i < k then i else i + 1];
    assert forall i :: 0 <= i < |ids'| ==> e'[i] == e[if i < k then i else i + 1];
    assert e' == e[..k] + e[k + 1..];
  }

  lemma RemoveIds(ids: seq<NodeId>, newId: NodeId, k: nat)
    requires Distinct(ids) && Below(ids, newId) && k < |ids|
    ensures var ids' := ids[..k] + ids[k + 1..];
      Distinct(ids') && Below(ids', newId)
  {
    var ids' := ids[..k] + ids[k + 1..];
    DistinctUnique(ids);
    BelowAll(ids, newId);
    assert forall i :: 0 <= i < |ids'| ==> ids'[i] == ids[if i < k then i else i + 1];
    forall i, j | 0 <= i < j < |ids'| ensures ids'[i] != ids'[j] {
      assert ids[if i < k then i else i + 1] != ids[if j < k then j else j + 1];
    }
    DistinctUnique(ids');
    BelowAll(ids', newId);
  }

  lemma RemoveClosed(ids: seq<NodeId>, nodes: map<NodeId, Node>, k: nat)
    requires Chained(ids, nodes) && Distinct(ids) && nodes.Keys == Elements(ids) && k < |ids|
    ensures RemoveNodes(nodes, ids, k).Keys == Elements(ids[..k] + ids[k + 1..])
    ensures ids[k] !in RemoveNodes(nodes, ids, k)
  {
    RemoveKeys(ids, nodes, k);
    ElementsRemove(ids, k);
  }

  /** Unlinking a node deallocates it and only it. */
  lemma RemoveKeys(ids: seq<NodeId>, nodes: map<NodeId, Node>, k: nat)
    requires Chained(ids, nodes) && k < |ids|
    ensures RemoveNodes(nodes, ids, k).Keys == nodes.Keys - {ids[k]}
  {
    ChainAt(ids, nodes, k);
    if k > 0 {
      ChainAt(ids, nodes, k - 1);
    }
  }

  /** Deleting a position of a repetition-free list deletes exactly its element. */
  lemma ElementsRemove(ids: seq<NodeId>, k: nat)
    requires Distinct(ids) && k < |ids|
    ensures Elements(ids[..k] + ids[k + 1..]) == Elements(ids) - {ids[k]}
  {
    var a, x, b := ids[..k], ids[k], ids[k + 1..];
    NotElsewhere(ids, k);
    ElementsIn(ids);
    ElementsIn(a + b);
    assert ids == a + [x] + b;
    assert forall y :: y in ids <==> y in a || y == x || y in b;
  }

  /** In a repetition-free list, an element occurs neither before nor after its position. */
  lemma NotElsewhere(ids: seq<NodeId>, k: nat)
    requires Distinct(ids) && k < |ids|
    ensures ids[k] !in ids[..k] && ids[k] !in ids[k + 1..]
  {
    DistinctUnique(ids);
    forall i | 0 <= i < k
      ensures ids[..k][i] != ids[k]
    {
      assert ids[..k][i] == ids[i];
    }
    var b := ids[k + 1..];
    forall i | 0 <= i < |b|
      ensures b[i] != ids[k]
    {
      assert b[i] == ids[k + 1 + i];
    }
  }

  /** What one callback run during a pass puts on the queue: a `call` (delay 0)
      or a `call_in` request, in the order the callback makes them. */
  datatype Post = Post(callback: Callback, millis: uint32)

  /** The events `append` creates for the requests `post` at uptime `now`. */
  function Stamp(post: seq<Post>, now: nat): (r: seq<Event>)
    ensures |r| == |post|
    ensures forall i :: 0 <= i < |r| ==> r[i] == Event(post[i].callback, post[i].millis, now)
  {
    seq(|post|, i requires 0 <= i < |post| => Event(post[i].callback, post[i].millis, now))
  }

  /** What the `r`-th callback run in a pass appends when it runs at `now`:
      `posts` lists what the runs post, in the order they run, and runs beyond
      it post nothing. */
  function Posted(posts: seq<seq<Post>>, r: nat, now: nat): seq<Event>
  {
    if r < |posts| then Stamp(posts[r], now) else []
  }

  /** The number of events the runs from the `r`-th on post. */
  function PostsFrom(posts: seq<seq<Post>>, r: nat): nat
    decreases |posts| - r
  {
    if r < |posts| then |posts[r]| + PostsFrom(posts, r + 1) else 0
  }

  /** Where a pass stands, on the queue's contents: the events visited and
      kept, the list from the pass position on (ending with what callbacks have
      appended), the events run, and every event the callbacks appended. */
  datatype Pass = Pass(kept: seq<Event>, rest: seq<Event>, ran: seq<Event>, posted: seq<Event>)

  /** The number of nodes the pass has visited. */
  function Visited(p: Pass): nat
  {
    |p.kept| + |p.ran|
  }

  /** One step of the inner loop of `dispatch_forever`: the node at the pass
      position is judged by `ready()` at the uptime `clock(k)` read at the k-th
      visit. A ready node's callback runs, what it posts is appended at the
      tail, stamped with that uptime, and the node is unlinked; any other node
      is kept and the pass moves past it. */
  function Step(p: Pass, clock: nat -> nat, posts: seq<seq<Post>>): Pass
    requires |p.rest| > 0
  {
    var e, t := p.rest[0], clock(Visited(p));
    if Ready(e, t) then
      var added := Posted(posts, |p.ran|, t);
      Pass(p.kept, p.rest[1..] + added, p.ran + [e], p.posted + added)
    else Pass(p.kept + [e], p.rest[1..], p.ran, p.posted)
  }

  /** A step seen on the list contents `s` it starts from: the event at the
      pass position is the next to visit; a run removes it and appends what
      its callback posts, a keep moves the position past it. */
  lemma StepOn(p: Pass, clock: nat -> nat, posts: seq<seq<Post>>, s: seq<Event>)
    requires |p.rest| > 0 && s == p.kept + p.rest
    ensures var j, e, q := |p.kept|, p.rest[0], Step(p, clock, posts);
      j < |s| && s[j] == e
      && (Ready(e, clock(Visited(p))) ==>
            q.kept == p.kept && q.ran == p.ran + [e]
            && q.kept + q.rest == (s[..j] + s[j + 1..]) + Posted(posts, |p.ran|, clock(Visited(p))))
      && (!Ready(e, clock(Visited(p))) ==> q.kept == p.kept + [e] && q.ran == p.ran && q.kept + q.rest == s)
  {
    var j := |p.kept|;
    assert s[j] == p.rest[0];
    assert s[..j] == p.kept && s[j + 1..] == p.rest[1..];
    assert p.kept + p.rest == (p.kept + [p.rest[0]]) + p.rest[1..];
  }

  /** The steps left before the pass reaches the end of the list. */
  function Remaining(p: Pass, posts: seq<seq<Post>>): nat
  {
    |p.rest| + PostsFrom(posts, |p.ran|)
  }

  /** Each step brings the pass one node closer to the end of the list. */
  lemma StepShrinks(p: Pass, clock: nat -> nat, posts: seq<seq<Post>>)
    requires |p.rest| > 0
    ensures Remaining(Step(p, clock, posts), posts) == Remaining(p, posts) - 1
  {
  }

  /** The pass from `p` on, up to the end of the list. */
  function Finish(p: Pass, clock: nat -> nat, posts: seq<seq<Post>>): (q: Pass)
    ensures q.rest == []
    decreases Remaining(p, posts)
  {
    if |p.rest| == 0 then p
    else
      StepShrinks(p, clock, posts);
      Finish(Step(p, clock, posts), clock, posts)
  }

  /** One pass of `dispatch_forever` over the queue contents `s`. */
  function Dispatch(s: seq<Event>, clock: nat -> nat, posts: seq<seq<Post>>): (q: Pass)
    ensures q.rest == []
  {
    Finish(Pass([], s, [], []), clock, posts)
  }

  /** The events a pass state accounts for. */
  function Held(p: Pass): multiset<Event>
  {
    multiset(p.kept) + multiset(p.rest) + multiset(p.ran)
  }

  /** From any state on, the pass loses and duplicates nothing: when a state
      accounts for the queue `s` it started from and for every event appended
      so far, so does the end of the pass. */
  lemma {:induction false} FinishConserves(s: seq<Event>, p: Pass, clock: nat -> nat, posts: seq<seq<Post>>)
    requires Held(p) == multiset(s) + multiset(p.posted)
    ensures Held(Finish(p, clock, posts)) == multiset(s) + multiset(Finish(p, clock, posts).posted)
    decreases Remaining(p, posts)
  {
    if |p.rest| > 0 {
      StepShrinks(p, clock, posts);
      StepConserves(s, p, clock, posts);
      FinishConserves(s, Step(p, clock, posts), clock, posts);
    }
  }

  /** One step loses and duplicates nothing. */
  lemma StepConserves(s: seq<Event>, p: Pass, clock: nat -> nat, posts: seq<seq<Post>>)
    requires |p.rest| > 0 && Held(p) == multiset(s) + multiset(p.posted)
    ensures Held(Step(p, clock, posts)) == multiset(s) + multiset(Step(p, clock, posts).posted)
  {
    var e, t := p.rest[0], clock(Visited(p));
    assert p.rest == [e] + p.rest[1..];
    assert multiset(p.rest) == multiset{e} + multiset(p.rest[1..]);
    var q := Step(p, clock, posts);
    if Ready(e, t) {
      var added := Posted(posts, |p.ran|, t);
      assert multiset(q.rest) == multiset(p.rest[1..]) + multiset(added);
      assert multiset(q.ran) == multiset(p.ran) + multiset{e};
      assert multiset(q.posted) == multiset(p.posted) + multiset(added);
      assert q.kept == p.kept;
      assert Held(q) == Held(p) + multiset(added);
    } else {
      assert multiset(q.kept) == multiset(p.kept) + multiset{e};
    }
  }

  /** From any state on, the pass keeps no zero-delay event: such an event is
      ready whenever it is visited. */
  lemma {:induction false} FinishKeepsNoCall(p: Pass, clock: nat -> nat, posts: seq<seq<Post>>)
    requires forall e :: e in p.kept ==> e.millis != 0
    ensures forall e :: e in Finish(p, clock, posts).kept ==> e.millis != 0
    decreases Remaining(p, posts)
  {
    if |p.rest| > 0 {
      StepShrinks(p, clock, posts);
      FinishKeepsNoCall(Step(p, clock, posts), clock, posts);
    }
  }

  /** A pass loses and duplicates nothing: the events it runs and the events it
      keeps are, together, the queue it started from and every event its
      callbacks appended. A zero-delay event never waits for a later pass: one
      posted by a callback runs in the same pass. */
  lemma DispatchConserves(s: seq<Event>, clock: nat -> nat, posts: seq<seq<Post>>)
    ensures var q := Dispatch(s, clock, posts);
      multiset(q.ran) + multiset(q.kept) == multiset(s) + multiset(q.posted)
    ensures forall e :: e in Dispatch(s, clock, posts).kept ==> e.millis != 0
    ensures var q := Dispatch(s, clock, posts);
      forall e :: e in q.posted && e.millis == 0 ==> e in q.ran
  {
    var q := Dispatch(s, clock, posts);
    assert Held(Pass([], s, [], [])) == multiset(s) + multiset([]);
    FinishConserves(s, Pass([], s, [], []), clock, posts);
    FinishKeepsNoCall(Pass([], s, [], []), clock, posts);
    assert Held(q) == multiset(q.ran) + multiset(q.kept);
    forall e | e in q.posted && e.millis == 0
      ensures e in q.ran
    {
      assert e in multiset(q.posted);
      assert e in multiset(s) + multiset(q.posted);
      assert e in multiset(q.ran) + multiset(q.kept);
      assert e !in q.kept;
    }
  }

  /** With no callback posting anything and one uptime for the whole pass, a
      pass runs exactly the events ready at that uptime and keeps the others,
      each in queue order. */
  lemma DispatchFixed(s: seq<Event>, clock: nat -> nat, now: nat)
    requires forall k :: clock(k) == now
    ensures Dispatch(s, clock, []) == Pass(Waiting(s, now), [], ReadyPart(s, now), [])
  {
    assert s[..0] == [] && s[0..] == s;
    FinishFixed(s, clock, now, 0);
  }

  /** The same, from the state after the first `m` events. */
  lemma {:induction false} FinishFixed(s: seq<Event>, clock: nat -> nat, now: nat, m: nat)
    requires m <= |s| && forall k :: clock(k) == now
    ensures Finish(Pass(Waiting(s[..m], now), s[m..], ReadyPart(s[..m], now), []), clock, [])
      == Pass(Waiting(s, now), [], ReadyPart(s, now), [])
    decreases |s| - m
  {
    var p := Pass(Waiting(s[..m], now), s[m..], ReadyPart(s[..m], now), []);
    if m == |s| {
      assert s[..m] == s;
    } else {
      PassStep(s, m, now);
      assert s[m..][0] == s[m] && s[m..][1..] == s[m + 1..];
      assert Step(p, clock, []) == Pass(Waiting(s[..m + 1], now), s[m + 1..], ReadyPart(s[..m + 1], now), []);
      FinishFixed(s, clock, now, m + 1);
    }
  }

  /** With one uptime for the whole pass, callbacks posting or not, a pass runs
      exactly the ready events of the queue followed by everything its callbacks
      appended, and keeps the others, each in the order they joined the list:
      the posted events take their turn behind the events already queued. */
  lemma DispatchInOrder(s: seq<Event>, clock: nat -> nat, posts: seq<seq<Post>>, now: nat)
    requires forall k :: clock(k) == now
    ensures var q := Dispatch(s, clock, posts);
      q.kept == Waiting(s + q.posted, now) && q.ran == ReadyPart(s + q.posted, now)
  {
    assert [] + s == s + [];
    FinishInOrder(s, clock, posts, now, [], Pass([], s, [], []));
  }

  /** The same, from a state that has visited `v`: `v` followed by the rest of
      the list is the queue followed by what has been appended so far. */
  lemma {:induction false} FinishInOrder(s: seq<Event>, clock: nat -> nat, posts: seq<seq<Post>>, now: nat,
                                         v: seq<Event>, p: Pass)
    requires forall k :: clock(k) == now
    requires p.kept == Waiting(v, now) && p.ran == ReadyPart(v, now) && v + p.rest == s + p.posted
    ensures var q := Finish(p, clock, posts);
      q.kept == Waiting(s + q.posted, now) && q.ran == ReadyPart(s + q.posted, now)
    decreases Remaining(p, posts)
  {
    if |p.rest| == 0 {
      assert v == s + p.posted;
    } else {
      StepShrinks(p, clock, posts);
      StepInOrder(s, clock, posts, now, v, p);
      FinishInOrder(s, clock, posts, now, v + [p.rest[0]], Step(p, clock, posts));
    }
  }

  /** One step keeps that account, with the visited event added to `v`. */
  lemma StepInOrder(s: seq<Event>, clock: nat -> nat, posts: seq<seq<Post>>, now: nat, v: seq<Event>, p: Pass)
    requires forall k :: clock(k) == now
    requires |p.rest| > 0
    requires p.kept == Waiting(v, now) && p.ran == ReadyPart(v, now) && v + p.rest == s + p.posted
    ensures var e, q := p.rest[0], Step(p, clock, posts);
      q.kept == Waiting(v + [e], now) && q.ran == ReadyPart(v + [e], now) && (v + [e]) + q.rest == s + q.posted
  {
    var e, q := p.rest[0], Step(p, clock, posts);
    assert clock(Visited(p)) == now;
    ReadyPartAppend(v, [e], now);
    assert [e][..0] == [];
    assert p.rest == [e] + p.rest[1..];
    if Ready(e, now) {
      var added := Posted(posts, |p.ran|, now);
      assert q.rest == p.rest[1..] + added && q.posted == p.posted + added;
      assert (v + [e]) + q.rest == (v + p.rest) + added;
    } else {
      assert q.rest == p.rest[1..] && q.posted == p.posted;
      assert (v + [e]) + q.rest == v + p.rest;
    }
  }

  /** One more event examined by a pass. */
  lemma PassStep(s: seq<Event>, k: nat, now: nat)
    requires k < |s|
    ensures Ready(s[k], now) ==>
      (ReadyPart(s[..k + 1], now) == ReadyPart(s[..k], now) + [s[k]]
       && Waiting(s[..k + 1], now) == Waiting(s[..k], now))
    ensures !Ready(s[k], now) ==>
      (ReadyPart(s[..k + 1], now) == ReadyPart(s[..k], now)
       && Waiting(s[..k + 1], now) == Waiting(s[..k], now) + [s[k]])
  {
    assert s[..k + 1][..k] == s[..k];
  }

  lemma RemoveChained(ids: seq<NodeId>, nodes: map<NodeId, Node>, k: nat)
    requires Chained(ids, nodes) && Distinct(ids) && k < |ids|
    ensures Chained(ids[..k] + ids[k + 1..], RemoveNodes(nodes, ids, k))
    ensures var nodes' := RemoveNodes(nodes, ids, k);
      forall id :: id in nodes' && (k == 0 || id != ids[k - 1]) ==> nodes'[id] == nodes[id]
    ensures var nodes', ids' := RemoveNodes(nodes, ids, k), ids[..k] + ids[k + 1..];
      forall i :: 0 <= i < |ids'| ==> ids'[i] in nodes && ids'[i] in nodes' && nodes'[ids'[i]].event == nodes[ids'[i]].event
  {
    var nodes', ids' := RemoveNodes(nodes, ids, k), ids[..k] + ids[k + 1..];
    DistinctUnique(ids);
    assert forall i :: 0 <= i < |ids'| ==> ids'[i] == ids[if i < k then i else i + 1];
    forall i | 0 <= i < |ids'|
      ensures ids'[i] in nodes' && nodes'[ids'[i]].next == (if i + 1 < |ids'| then Some(ids'[i + 1]) else None)
      ensures ids'[i] in nodes && nodes'[ids'[i]].event == nodes[ids'[i]].event
    {
      if i + 1 < k {
        ChainAt(ids, nodes, i);
        assert ids'[i] == ids[i] && ids'[i + 1] == ids[i + 1];
        assert ids[i] != ids[k - 1] && ids[i] != ids[k];
        assert nodes'[ids[i]] == nodes[ids[i]];
      } else if i + 1 == k {
        ChainAt(ids, nodes, k);
        ChainAt(ids, nodes, k - 1);
        assert ids'[i] == ids[k - 1];
        assert ids[k - 1] != ids[k];
        assert nodes'[ids[k - 1]].next == nodes[ids[k]].next;
        if i + 1 < |ids'| {
          assert ids'[i + 1] == ids[k + 1];
        }
      } else {
        ChainAt(ids, nodes, i + 1);
        assert ids'[i] == ids[i + 1];
        assert ids[i + 1] != ids[k] && (k == 0 || ids[i + 1] != ids[k - 1]);
        assert nodes'[ids[i + 1]] == nodes[ids[i + 1]];
        if i + 1 < |ids'| {
          assert ids'[i + 1] == ids[i + 2];
        }
      }
    }
    assert Links(ids', nodes', None);
    ChainToLinks(ids', nodes', None);
  }


  /*
   * The code as written. A `Heap` holds every node ever allocated in `cells`;
   * `freed` are the ones deleted since. A freed cell keeps its last contents,
   * so a read through a dangling pointer sees what was there. Each function
   * returns None where one of the code's asserts fails.
   */

  datatype Heap = Heap(head: Option<NodeId>, tail: Option<NodeId>, cells: map<NodeId, Node>, freed: set<NodeId>)

  /** `append` as written: the new node's `next` is never set, so it holds
      whatever the allocator left there (`junk`). `id` is what `new` returns:
      a never used or a freed cell. */
  function AppendAsWritten(h: Heap, ev: Event, id: NodeId, junk: Option<NodeId>): Option<Heap>
    requires id !in h.cells || id in h.freed
  {
    if h.head.None? then
      if h.tail.Some? then None
      else Some(Heap(Some(id), Some(id), h.cells[id := Node(ev, junk)], h.freed - {id}))
    else if h.tail.None? || h.tail.value !in h.cells then None
    else
      var t := h.tail.value;
      var cells := h.cells[t := h.cells[t].(next := Some(id))];
      Some(Heap(h.head, Some(id), cells[id := Node(ev, junk)], h.freed - {id}))
  }

  /** `removeNode` as written: `_tail` is left alone even when the removed node is
      the tail. The result also says whether a freed cell was touched. */
  function RemoveNodeAsWritten(h: Heap, prev: NodeId, node: NodeId): (r: Option<(Heap, bool)>)
    ensures r.Some? ==> r.value.0.cells.Keys == h.cells.Keys
  {
    if prev !in h.cells || node !in h.cells then None
    else if prev == node then
      if h.head != Some(node) then None
      else Some((h.(head := h.cells[node].next, freed := h.freed + {node}), node in h.freed))
    else if h.cells[prev].next != Some(node) then None
    else
      Some((h.(cells := h.cells[prev := h.cells[prev].(next := h.cells[node].next)],
               freed := h.freed + {node}),
            prev in h.freed || node in h.freed))
  }

  /** The outcome of a pass as written: the heap afterwards, the events run, whether
      a freed cell was read or written, and whether the pass ended normally. */
  datatype PassAsWrittenResult = PassAsWrittenResult(heap: Heap, ran: seq<Event>, touchedFreed: bool, ok: bool)

  /** The inner loop of `dispatch_forever` as written, from `prev` and `node`: after
      a removal it still sets `prev = node` and reads `node->next` from the node it
      has just deleted. `fuel` bounds the number of steps followed. */
  function PassAsWritten(h: Heap, now: nat, prev: Option<NodeId>, node: Option<NodeId>, fuel: nat): PassAsWrittenResult
    decreases fuel
  {
    if node.None? then PassAsWrittenResult(h, [], false, true)
    else if fuel == 0 || prev.None? || node.value !in h.cells then PassAsWrittenResult(h, [], false, false)
    else
      var n := node.value;
      var ev := h.cells[n].event;
      if Ready(ev, now) then
        match RemoveNodeAsWritten(h, prev.value, n)
        case None => PassAsWrittenResult(h, [ev], n in h.freed, false)
        case Some((h1, touched)) =>
          var r := PassAsWritten(h1, now, node, h1.cells[n].next, fuel - 1);
          r.(ran := [ev] + r.ran, touchedFreed := true)
      else
        var r := PassAsWritten(h, now, node, h.cells[n].next, fuel - 1);
        r.(touchedFreed := r.touchedFreed || n in h.freed)
  }

  /** The destructor as written: it frees nodes while the head has a successor,
      so the last node is never freed. */
  function DestroyAsWritten(h: Heap, fuel: nat): Option<Heap>
  {
    if h.head.None? then (if h.tail.None? then Some(h) else None)
    else if h.tail.None? then None
    else Some(DestroyLoopAsWritten(h, fuel))
  }

  function DestroyLoopAsWritten(h: Heap, fuel: nat): Heap
    decreases fuel
  {
    if fuel == 0 || h.head.None? || h.head.value !in h.cells then h
    else
      var n := h.head.value;
      if h.cells[n].next.None? then h
      else DestroyLoopAsWritten(h.(head := h.cells[n].next, freed := h.freed + {n}), fuel - 1)
  }

  /** Two ready nodes: the pass as written runs both, but reads the first node
      after deleting it and leaves `_head` pointing at the deleted second node. */
  lemma DispatchAsWrittenDanglingHead()
    ensures var e := Event(Callback(0, 0), 0, 0);
      var h := Heap(Some(0), Some(1), map[0 := Node(e, Some(1)), 1 := Node(e, None)], {});
      var r := PassAsWritten(h, 0, Some(0), Some(0), 2);
      r.ok && r.ran == [e, e] && r.touchedFreed && r.heap.head == Some(1) && 1 in r.heap.freed
  {
    var e := Event(Callback(0, 0), 0, 0);
    var h := Heap(Some(0), Some(1), map[0 := Node(e, Some(1)), 1 := Node(e, None)], {});
    assert Ready(e, 0);
    var r1 := RemoveNodeAsWritten(h, 0, 0);
    assert r1.Some? && !r1.value.1;
    var h1 := r1.value.0;
    assert h1.head == Some(1) && h1.cells == h.cells && 0 in h1.freed;
    var r2 := RemoveNodeAsWritten(h1, 0, 1);
    assert r2.Some? && r2.value.1;
    var h2 := r2.value.0;
    assert h2.head == Some(1) && 1 in h2.freed && h2.cells[1].next.None?;
    var q := PassAsWritten(h1, 0, Some(0), Some(1), 1);
    assert q.heap == h2 && q.ran == [e] && q.ok;
  }

  /** Removing the only node as written leaves `_head` null but `_tail` pointing at
      the deleted node, so the next `append` fails its assert. */
  lemma RemoveAsWrittenStaleTail()
    ensures var e := Event(Callback(0, 0), 0, 0);
      var h := Heap(Some(0), Some(0), map[0 := Node(e, None)], {});
      var r := RemoveNodeAsWritten(h, 0, 0);
      r.Some? && r.value.0.head.None? && r.value.0.tail == Some(0) && 0 in r.value.0.freed
      && AppendAsWritten(r.value.0, e, 1, None).None?
  {
  }

  /** Appending to an empty queue as written: the new node's `next` is whatever
      the allocation held, so a pass over a queue of one waiting event walks off
      the list into memory that is not a node. */
  lemma AppendAsWrittenUnterminated()
    ensures var e := Event(Callback(0, 0), 10, 0);
      var h := Heap(None, None, map[], {});
      var r := AppendAsWritten(h, e, 0, Some(9));
      r.Some? && r.value.cells[0].next == Some(9)
      && !PassAsWritten(r.value, 0, Some(0), Some(0), 5).ok
  {
    var e := Event(Callback(0, 0), 10, 0);
    var r := AppendAsWritten(Heap(None, None, map[], {}), e, 0, Some(9));
    assert r.Some?;
    var h1 := r.value;
    assert h1.cells[0] == Node(e, Some(9)) && 9 !in h1.cells;
    assert !Ready(e, 0);
    assert !PassAsWritten(h1, 0, Some(0), Some(9), 4).ok;
  }

  /** The destructor as written frees nothing from a one-node queue: the node leaks. */
  lemma DestroyAsWrittenLeaks()
    ensures var e := Event(Callback(0, 0), 0, 0);
      var h := Heap(Some(0), Some(0), map[0 := Node(e, None)], {});
      var r := DestroyAsWritten(h, 10);
      r.Some? && 0 !in r.value.freed
  {
  }
}
