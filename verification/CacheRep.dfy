/**
 How the cache's own structures stand for the reference cache: list nodes with
 stored iterators for the recency order, memory blocks for the values, and wheel
 events plus generations for the deadlines.
 */
module CacheRep {
  import opened Basics
  import opened Memory
  import opened CacheSpec
  import opened TimingWheels
  import opened SlabAccounting

  /** A recency-list node.  Its identity is what a stored iterator refers to. */
  datatype Node = Node(id: nat, key: Key)

  /** A value's storage: the block and its exact size; the null block when the value is empty. */
  datatype CacheEntry = CacheEntry(data: nat, size: nat)

  datatype StoredEntry = StoredEntry(entry: CacheEntry, position: nat, generation: nat)

  type Entries = map<Key, StoredEntry>

  // ---- std::list operations on a stored iterator ----

  function IndexOf(nodes: seq<Node>, id: nat): (i: nat)
    ensures i <= |nodes|
    ensures i < |nodes| ==> nodes[i].id == id
    ensures i == |nodes| ==> forall j :: 0 <= j < |nodes| ==> nodes[j].id != id
  {
    if nodes == [] then 0
    else if nodes[0].id == id then 0
    else 1 + IndexOf(nodes[1..], id)
  }

  function EraseNode(nodes: seq<Node>, id: nat): seq<Node> {
    var i := IndexOf(nodes, id);
    if i < |nodes| then nodes[..i] + nodes[i + 1..] else nodes
  }

  function SpliceToFront(nodes: seq<Node>, id: nat): seq<Node> {
    var i := IndexOf(nodes, id);
    if i < |nodes| then [nodes[i]] + nodes[..i] + nodes[i + 1..] else nodes
  }

  // ---- Recency ----

  ghost predicate DistinctNodes(nodes: seq<Node>) {
    forall i, j :: 0 <= i < j < |nodes| ==> nodes[i].id != nodes[j].id
  }

  /** The list spells out the recency order, and every entry's iterator points at the node of its own key. */
  ghost predicate Recency(nodes: seq<Node>, entries: Entries, mru: seq<Key>, nextNode: nat) {
    && |nodes| == |mru|
    && DistinctNodes(nodes)
    && forall i :: 0 <= i < |nodes| ==>
         && nodes[i].key == mru[i] && nodes[i].id < nextNode
         && mru[i] in entries && entries[mru[i]].position == nodes[i].id
  }

  lemma PositionOf(nodes: seq<Node>, entries: Entries, mru: seq<Key>, nextNode: nat, key: Key)
    returns (i: nat)
    requires Recency(nodes, entries, mru, nextNode) && key in mru
    ensures i < |mru| && mru[i] == key && IndexOf(nodes, entries[key].position) == i
  {
    i :| i < |mru| && mru[i] == key;
    var j := IndexOf(nodes, entries[key].position);
    assert nodes[i].id == entries[key].position;
    assert j < |nodes| && nodes[j].id == nodes[i].id;
  }

  lemma {:induction false} RecencyErase(nodes: seq<Node>, entries: Entries, mru: seq<Key>, nextNode: nat, key: Key)
    requires Recency(nodes, entries, mru, nextNode) && NoDuplicates(mru) && key in mru
    ensures Recency(EraseNode(nodes, entries[key].position), entries - {key}, Without(mru, key), nextNode)
  {
    var i := PositionOf(nodes, entries, mru, nextNode, key);
    WithoutAt(mru, i);
    var nodes', mru' := nodes[..i] + nodes[i + 1..], mru[..i] + mru[i + 1..];
    forall j | 0 <= j < |nodes'|
      ensures && nodes'[j].key == mru'[j] && nodes'[j].id < nextNode
              && mru'[j] in entries - {key} && entries[mru'[j]].position == nodes'[j].id
    {
      var was := if j < i then j else j + 1;
      assert nodes'[j] == nodes[was] && mru'[j] == mru[was];
    }
  }

  lemma {:induction false} RecencySplice(nodes: seq<Node>, entries: Entries, mru: seq<Key>, nextNode: nat, key: Key)
    requires Recency(nodes, entries, mru, nextNode) && NoDuplicates(mru) && key in mru
    ensures Recency(SpliceToFront(nodes, entries[key].position), entries, [key] + Without(mru, key), nextNode)
    ensures SpliceToFront(nodes, entries[key].position)[0].id == entries[key].position
  {
    var i := PositionOf(nodes, entries, mru, nextNode, key);
    WithoutAt(mru, i);
    hide Without, IndexOf;
    RecencyMove(nodes, entries, mru, nextNode, i);
  }

  lemma RecencyMove(nodes: seq<Node>, entries: Entries, mru: seq<Key>, nextNode: nat, i: nat)
    requires Recency(nodes, entries, mru, nextNode) && i < |mru|
    ensures Recency([nodes[i]] + nodes[..i] + nodes[i + 1..], entries, [mru[i]] + (mru[..i] + mru[i + 1..]), nextNode)
  {
    var nodes', mru' := [nodes[i]] + nodes[..i] + nodes[i + 1..], [mru[i]] + (mru[..i] + mru[i + 1..]);
    forall j | 0 <= j < |nodes'| ensures nodes'[j] == nodes[MovedFrom(i, j)] && mru'[j] == mru[MovedFrom(i, j)] {
    }
  }

  /** Where the element at position `j` was before position `i` moved to the front. */
  function MovedFrom(i: nat, j: nat): nat {
    if j == 0 then i else if j <= i then j - 1 else j
  }

  lemma RecencyPush(nodes: seq<Node>, entries: Entries, mru: seq<Key>, nextNode: nat,
                    key: Key, stored: StoredEntry)
    requires Recency(nodes, entries, mru, nextNode) && key !in mru && stored.position == nextNode
    ensures Recency([Node(nextNode, key)] + nodes, entries[key := stored], [key] + mru, nextNode + 1)
  {
    var nodes', mru' := [Node(nextNode, key)] + nodes, [key] + mru;
    forall j | 0 <= j < |nodes'|
      ensures && nodes'[j].key == mru'[j] && nodes'[j].id < nextNode + 1
              && mru'[j] in entries[key := stored] && entries[key := stored][mru'[j]].position == nodes'[j].id
    {
      if 0 < j {
        assert nodes'[j] == nodes[j - 1] && mru'[j] == mru[j - 1];
      }
    }
  }

  lemma RecencyUpdate(nodes: seq<Node>, entries: Entries, mru: seq<Key>, nextNode: nat,
                      key: Key, stored: StoredEntry)
    requires Recency(nodes, entries, mru, nextNode) && key in entries && stored.position == entries[key].position
    ensures Recency(nodes, entries[key := stored], mru, nextNode)
  {
  }

  // ---- Values and the blocks that hold them ----

  type Blocks = map<nat, seq<Cell>>

  ghost predicate Holds(entry: CacheEntry, value: Bytes, blocks: Blocks) {
    && entry.size == |value|
    && if value == [] then entry.data == NULL
       else entry.data != NULL && entry.data in blocks && blocks[entry.data] == AsCells(value)
  }

  /**
   Each live block belongs to exactly one entry, except `spare`: the block of a
   value that an operation has allocated and not stored yet (NULL for none).
   */
  ghost predicate Owned(entries: Entries, items: map<Key, Item>, blocks: Blocks, owner: map<nat, Key>, spare: nat) {
    && (forall k :: k in entries <==> k in items)
    && (forall k :: k in entries ==> Holds(entries[k].entry, items[k].value, blocks))
    && (forall k :: k in entries && items[k].value != [] ==>
          entries[k].entry.data in owner && owner[entries[k].entry.data] == k)
    && (forall p :: p in owner ==>
          p != spare && owner[p] in entries && entries[owner[p]].entry.data == p && items[owner[p]].value != [])
    && (forall p :: p in blocks <==> p in owner || (p == spare && spare != NULL))
  }

  lemma OwnedRemove(entries: Entries, items: map<Key, Item>, blocks: Blocks, owner: map<nat, Key>,
                    spare: nat, key: Key)
    requires Owned(entries, items, blocks, owner, spare) && key in entries
    ensures var p := entries[key].entry.data;
            Owned(entries - {key}, items - {key}, blocks - {p}, owner - {p}, spare)
  {
    var p := entries[key].entry.data;
    forall k | k in entries && k != key ensures Holds(entries[k].entry, items[k].value, blocks - {p}) {
      assert Holds(entries[k].entry, items[k].value, blocks) && Holds(entries[key].entry, items[key].value, blocks);
    }
    assert Holds(entries[key].entry, items[key].value, blocks);
  }

  /** The spare block becomes the block of `key`, which held none. */
  lemma OwnedInsert(entries: Entries, items: map<Key, Item>, blocks: Blocks, owner: map<nat, Key>,
                    key: Key, stored: StoredEntry, item: Item)
    requires Owned(entries, items, blocks, owner, stored.entry.data) && key !in entries
    requires Holds(stored.entry, item.value, blocks)
    ensures Owned(entries[key := stored], items[key := item], blocks,
                  if item.value == [] then owner else owner[stored.entry.data := key], NULL)
  {
    var entries', items' := entries[key := stored], items[key := item];
    forall k | k in entries' ensures Holds(entries'[k].entry, items'[k].value, blocks) {
      if k != key {
        assert Holds(entries[k].entry, items[k].value, blocks);
      }
    }
    forall p | p in owner ensures p != NULL {
      assert Holds(entries[owner[p]].entry, items[owner[p]].value, blocks);
    }
  }

  /** The spare block and the block of `key` change places: what `replace_value` does by swapping. */
  lemma OwnedSwap(entries: Entries, items: map<Key, Item>, blocks: Blocks, owner: map<nat, Key>,
                  key: Key, entry: CacheEntry, generation: nat, item: Item)
    requires Owned(entries, items, blocks, owner, entry.data) && key in entries
    requires Holds(entry, item.value, blocks)
    ensures var was := entries[key];
            var owner' := owner - {was.entry.data};
            Owned(entries[key := StoredEntry(entry, was.position, generation)], items[key := item], blocks,
                  if item.value == [] then owner' else owner'[entry.data := key], was.entry.data)
  {
    var was := entries[key];
    var entries', items' := entries[key := StoredEntry(entry, was.position, generation)], items[key := item];
    assert Holds(was.entry, items[key].value, blocks);
    forall k | k in entries' ensures Holds(entries'[k].entry, items'[k].value, blocks) {
      if k != key {
        assert Holds(entries[k].entry, items[k].value, blocks);
      }
    }
    forall p | p in owner ensures p != NULL {
      assert Holds(entries[owner[p]].entry, items[owner[p]].value, blocks);
    }
  }

  /** A block that no entry owns can come and go. */
  lemma OwnedSpare(entries: Entries, items: map<Key, Item>, blocks: Blocks, blocks': Blocks,
                   owner: map<nat, Key>, spare: nat, spare': nat)
    requires Owned(entries, items, blocks, owner, spare)
    requires forall p :: p in owner ==> p in blocks' && p != spare' && blocks'[p] == blocks[p]
    requires forall p :: p in blocks' <==> p in owner || (p == spare' && spare' != NULL)
    ensures Owned(entries, items, blocks', owner, spare')
  {
    forall k | k in entries ensures Holds(entries[k].entry, items[k].value, blocks') {
      assert Holds(entries[k].entry, items[k].value, blocks);
    }
  }

  // ---- Deadlines, wheel events and generations ----

  /**
   Generations name accepted sets.  An entry's generation is the set that wrote its
   value; an event carries the generation of the set that armed it, its key, and a
   due tick that is the deadline of the value that set wrote.  So an event matches
   an entry only if one set did both.  A live value with a deadline has exactly one
   such event.  A generation beyond `written` has been drawn but not stored yet.
   */
  ghost predicate Timers(entries: Entries, items: map<Key, Item>, pending: multiset<Alarm>, source: nat,
                         written: seq<Write>) {
    && |written| <= source
    && (forall k :: k in entries ==>
          && k in items && 1 <= entries[k].generation <= |written|
          && written[entries[k].generation - 1] == Write(k, items[k]))
    && (forall a :: a in pending ==>
          && 1 <= a.generation <= source
          && (a.generation <= |written| ==>
                written[a.generation - 1].key == a.key && written[a.generation - 1].item.deadline == Some(a.due)))
    && (forall k :: k in entries && items[k].deadline.Some? ==>
          pending[Alarm(k, entries[k].generation, items[k].deadline.value)] == 1)
  }

  lemma TimersRemove(entries: Entries, items: map<Key, Item>, pending: multiset<Alarm>, source: nat,
                     written: seq<Write>, key: Key)
    requires Timers(entries, items, pending, source, written)
    ensures Timers(entries - {key}, items - {key}, pending, source, written)
  {
  }

  /** A new generation, with or without a new event, matches no entry yet. */
  lemma TimersArm(entries: Entries, items: map<Key, Item>, pending: multiset<Alarm>, source: nat,
                  written: seq<Write>, key: Key, due: nat)
    requires Timers(entries, items, pending, source, written)
    ensures Timers(entries, items, pending, source + 1, written)
    ensures Timers(entries, items, pending + multiset{Alarm(key, source + 1, due)}, source + 1, written)
  {
  }

  /** What the wheel knows about the newest generation: one event if a deadline was armed, none otherwise. */
  ghost predicate JustArmed(pending: multiset<Alarm>, generation: nat, key: Key, deadline: Option<nat>) {
    && (forall a :: a in pending && a.generation == generation ==> a.key == key && deadline == Some(a.due))
    && (deadline.Some? ==> pending[Alarm(key, generation, deadline.value)] == 1)
  }

  /** Storing the value makes its set the newest accepted one. */
  lemma TimersAssign(entries: Entries, items: map<Key, Item>, pending: multiset<Alarm>, source: nat,
                     written: seq<Write>, key: Key, stored: StoredEntry, item: Item)
    requires Timers(entries, items, pending, source, written) && source == |written| + 1
    requires stored.generation == source && JustArmed(pending, source, key, item.deadline)
    ensures Timers(entries[key := stored], items[key := item], pending, source, written + [Write(key, item)])
  {
  }

  /** Dropping an event that matches no entry disarms nothing. */
  lemma TimersDropStale(entries: Entries, items: map<Key, Item>, pending: multiset<Alarm>,
                        pending': multiset<Alarm>, source: nat, written: seq<Write>, stale: Alarm)
    requires Timers(entries, items, pending, source, written)
    requires stale.key in entries ==> entries[stale.key].generation != stale.generation
    requires forall a :: pending'[a] <= pending[a] && (a != stale ==> pending'[a] == pending[a])
    ensures Timers(entries, items, pending', source, written)
  {
  }

  // ---- Bytes ----

  /** Logical usage, live value bytes and live blocks, all in step with the reference cache. */
  ghost predicate Budget(model: Spec, usage: nat, m: Metrics, spareBytes: nat) {
    && usage == Total(ChargeBytes, model.mru, model.items)
    && m.usedBytes == Total(ValueBytes, model.mru, model.items) + spareBytes
    && m.allocationCount
       == m.deallocationCount + Total(NonEmptyValues, model.mru, model.items) + if spareBytes == 0 then 0 else 1
  }

  lemma {:induction false} TotalDrop(measure: Measure, model: Spec, key: Key)
    requires Listed(model) && key in model.items
    ensures Total(measure, model.mru, model.items)
         == Total(measure, Drop(model, key).mru, Drop(model, key).items) + Weigh(measure, key, model.items[key].value)
  {
    TotalWithout(measure, model.mru, model.items, key);
    WithoutMembers(model.mru, key);
    TotalFrame(measure, Without(model.mru, key), model.items, model.items - {key});
  }

  lemma {:induction false} TotalTouch(measure: Measure, model: Spec, key: Key)
    requires Listed(model) && key in model.items
    ensures Total(measure, Touch(model, key).mru, model.items) == Total(measure, model.mru, model.items)
  {
    TotalWithout(measure, model.mru, model.items, key);
    TotalFront(measure, key, Without(model.mru, key), model.items);
  }

  /** A key written to the front of the list weighs what its new value weighs. */
  lemma {:induction false} TotalAdmit(measure: Measure, mru: seq<Key>, items: map<Key, Item>, key: Key, item: Item)
    ensures Total(measure, [key] + Without(mru, key), items[key := item])
         == Total(measure, Without(mru, key), items) + Weigh(measure, key, item.value)
  {
    WithoutMembers(mru, key);
    TotalFront(measure, key, Without(mru, key), items[key := item]);
    TotalFrame(measure, Without(mru, key), items, items[key := item]);
  }

  // ---- The whole representation, and what each step does to it ----

  /** A cache's structures as one value; `pending` are the events in the wheel and those taken out but not handled yet. */
  datatype Rep = Rep(
    entries: Entries,
    nodes: seq<Node>,
    nextNode: nat,
    usage: nat,
    blocks: Blocks,
    metrics: Metrics,
    owner: map<nat, Key>,
    pending: multiset<Alarm>,
    source: nat)

  ghost function SpareBytes(blocks: Blocks, spare: nat): nat {
    if spare in blocks then |blocks[spare]| else 0
  }

  ghost predicate Represents(r: Rep, model: Spec, spare: nat) {
    && Listed(model)
    && Recency(r.nodes, r.entries, model.mru, r.nextNode)
    && Owned(r.entries, model.items, r.blocks, r.owner, spare)
    && Timers(r.entries, model.items, r.pending, r.source, model.written)
    && Budget(model, r.usage, r.metrics, SpareBytes(r.blocks, spare))
    && NULL !in r.blocks
    && (spare != NULL ==> 0 < SpareBytes(r.blocks, spare))
  }

  lemma EmptyRepresents(capacity: nat)
    ensures Represents(Rep(map[], [], 0, 0, map[], Metrics(0, 0, 0, 0, 0, 0, 0), map[], multiset{}, 0), Empty(capacity), NULL)
  {
  }

  lemma SameKeys(r: Rep, model: Spec, spare: nat)
    requires Represents(r, model, spare)
    ensures forall k :: k in r.entries <==> k in model.items
    ensures forall k :: k in r.entries <==> k in model.mru
    ensures NoDuplicates(model.mru)
  {
  }

  // Making a key most recently used.

  ghost function Touched(r: Rep, key: Key): Rep
    requires key in r.entries
  {
    r.(nodes := SpliceToFront(r.nodes, r.entries[key].position))
  }

  lemma TouchRepresents(r: Rep, model: Spec, spare: nat, key: Key)
    requires Represents(r, model, spare) && key in r.entries
    ensures Represents(Touched(r, key), Touch(model, key), spare)
  {
    hide Recency, Owned, Timers, Budget, Listed, SpareBytes, SpliceToFront, Without;
    SameKeys(r, model, spare);
    RecencySplice(r.nodes, r.entries, model.mru, r.nextNode, key);
    TouchListed(model, key);
    BudgetTouch(model, r.usage, r.metrics, SpareBytes(r.blocks, spare), key);
  }

  lemma BudgetTouch(model: Spec, usage: nat, m: Metrics, spareBytes: nat, key: Key)
    requires Budget(model, usage, m, spareBytes) && Listed(model) && key in model.items
    ensures Budget(Touch(model, key), usage, m, spareBytes)
  {
    hide Total, Listed, Without;
    TotalTouch(ChargeBytes, model, key);
    TotalTouch(ValueBytes, model, key);
    TotalTouch(NonEmptyValues, model, key);
  }

  // Removing an entry.

  ghost function Removed(r: Rep, key: Key, blocks: Blocks, metrics: Metrics): Rep
    requires key in r.entries && |key| + r.entries[key].entry.size <= r.usage
  {
    var stored := r.entries[key];
    r.(entries := r.entries - {key},
       nodes := EraseNode(r.nodes, stored.position),
       usage := r.usage - (|key| + stored.entry.size),
       blocks := blocks,
       metrics := metrics,
       owner := r.owner - {stored.entry.data})
  }

  /** What returning an entry's block to the allocator does: nothing at all for an empty value. */
  ghost predicate HandedBack(blocks: Blocks, m: Metrics, blocks': Blocks, m': Metrics, entry: CacheEntry) {
    && blocks' == blocks - {entry.data}
    && m'.usedBytes + entry.size == m.usedBytes
    && m'.allocationCount == m.allocationCount
    && m'.deallocationCount == m.deallocationCount + if entry.size == 0 then 0 else 1
  }

  /** An entry is exactly what the allocator expects to get back, and its charge is part of the usage. */
  lemma EntryIsReturnable(r: Rep, model: Spec, spare: nat, key: Key)
    requires Represents(r, model, spare) && key in r.entries
    ensures r.entries[key].entry.data != spare || r.entries[key].entry.data == NULL
    ensures var entry := r.entries[key].entry;
            && (entry.data == NULL <==> entry.size == 0)
            && key in model.items && entry.size == |model.items[key].value|
            && (entry.data != NULL ==> entry.data in r.blocks && |r.blocks[entry.data]| == entry.size)
            && |key| + entry.size <= r.usage
    ensures NULL !in r.blocks && r.blocks - {NULL} == r.blocks
  {
    hide Recency, Timers;
    assert Holds(r.entries[key].entry, model.items[key].value, r.blocks);
    TotalWithout(ChargeBytes, model.mru, model.items, key);
  }

  lemma BudgetRemove(model: Spec, usage: nat, m: Metrics, m': Metrics, spareBytes: nat, key: Key)
    requires Budget(model, usage, m, spareBytes) && Listed(model) && key in model.items
    requires var size := |model.items[key].value|;
             && m'.usedBytes + size == m.usedBytes
             && m'.allocationCount == m.allocationCount
             && m'.deallocationCount == m.deallocationCount + if size == 0 then 0 else 1
    ensures var charge := |key| + |model.items[key].value|;
            charge <= usage && Budget(Drop(model, key), usage - charge, m', spareBytes)
  {
    TotalDrop(ChargeBytes, model, key);
    TotalDrop(ValueBytes, model, key);
    TotalDrop(NonEmptyValues, model, key);
  }

  lemma RemoveRepresents(r: Rep, model: Spec, spare: nat, key: Key, blocks: Blocks, metrics: Metrics)
    requires Represents(r, model, spare) && key in r.entries
    requires HandedBack(r.blocks, r.metrics, blocks, metrics, r.entries[key].entry)
    ensures |key| + r.entries[key].entry.size <= r.usage
    ensures Represents(Removed(r, key, blocks, metrics), Drop(model, key), spare)
  {
    hide Recency, Owned, Timers, Budget, Listed;
    EntryIsReturnable(r, model, spare, key);
    SameKeys(r, model, spare);
    BudgetRemove(model, r.usage, r.metrics, metrics, SpareBytes(r.blocks, spare), key);
    DropListed(model, key);
    RemoveStructures(r, model, spare, key);
  }

  lemma {:induction false} RemoveStructures(r: Rep, model: Spec, spare: nat, key: Key)
    requires Represents(r, model, spare) && key in r.entries && key in model.mru
    ensures Recency(EraseNode(r.nodes, r.entries[key].position), r.entries - {key}, Without(model.mru, key), r.nextNode)
    ensures Owned(r.entries - {key}, model.items - {key}, r.blocks - {r.entries[key].entry.data},
                  r.owner - {r.entries[key].entry.data}, spare)
    ensures Timers(r.entries - {key}, model.items - {key}, r.pending, r.source, model.written)
  {
    RecencyErase(r.nodes, r.entries, model.mru, r.nextNode, key);
    OwnedRemove(r.entries, model.items, r.blocks, r.owner, spare, key);
    TimersRemove(r.entries, model.items, r.pending, r.source, model.written, key);
    hide Recency, Owned, Timers;
  }

  // A value allocated but not stored.

  lemma SpareRepresents(r: Rep, model: Spec, blocks: Blocks, metrics: Metrics, p: nat, value: Bytes)
    requires Represents(r, model, NULL)
    requires if value == [] then p == NULL && blocks == r.blocks && metrics == r.metrics
             else
               && p != NULL && p !in r.blocks && blocks == r.blocks[p := AsCells(value)]
               && metrics.usedBytes == r.metrics.usedBytes + |value|
               && metrics.allocationCount == r.metrics.allocationCount + 1
               && metrics.deallocationCount == r.metrics.deallocationCount
    ensures Represents(r.(blocks := blocks, metrics := metrics), model, p)
    ensures Holds(CacheEntry(p, |value|), value, blocks)
  {
    hide Recency, Timers, Listed;
    OwnedSpare(r.entries, model.items, r.blocks, blocks, r.owner, NULL, p);
  }

  lemma UnspareRepresents(r: Rep, model: Spec, spare: nat, blocks: Blocks, metrics: Metrics)
    requires Represents(r, model, spare)
    requires HandedBack(r.blocks, r.metrics, blocks, metrics, CacheEntry(spare, SpareBytes(r.blocks, spare)))
    ensures Represents(r.(blocks := blocks, metrics := metrics), model, NULL)
  {
    hide Recency, Timers, Listed;
    OwnedSpare(r.entries, model.items, r.blocks, blocks, r.owner, spare, NULL);
  }

  // A new generation, and the event it arms.

  ghost function WithAlarm(r: Rep, key: Key, deadline: Option<nat>): Rep {
    r.(source := r.source + 1,
       pending := if deadline.Some? then r.pending + multiset{Alarm(key, r.source + 1, deadline.value)} else r.pending)
  }

  lemma ArmRepresents(r: Rep, model: Spec, spare: nat, key: Key, deadline: Option<nat>)
    requires Represents(r, model, spare)
    ensures Represents(WithAlarm(r, key, deadline), model, spare)
    ensures JustArmed(WithAlarm(r, key, deadline).pending, r.source + 1, key, deadline)
  {
    hide Recency, Owned, Budget, Listed;
    TimersArm(r.entries, model.items, r.pending, r.source, model.written, key, if deadline.Some? then deadline.value else 0);
  }

  // Storing the value: as a new entry, or in place of the old one.

  ghost function Wrote(model: Spec, key: Key, item: Item, mru: seq<Key>): Spec {
    model.(items := model.items[key := item], mru := mru, written := model.written + [Write(key, item)])
  }

  ghost function Inserted(r: Rep, key: Key, entry: CacheEntry, value: Bytes): Rep {
    r.(entries := r.entries[key := StoredEntry(entry, r.nextNode, r.source)],
       nodes := [Node(r.nextNode, key)] + r.nodes,
       nextNode := r.nextNode + 1,
       usage := r.usage + |key| + |value|,
       owner := if value == [] then r.owner else r.owner[entry.data := key])
  }

  lemma BudgetInsert(model: Spec, usage: nat, m: Metrics, spareBytes: nat, key: Key, item: Item)
    requires Budget(model, usage, m, spareBytes) && key !in model.mru && spareBytes == |item.value|
    ensures Budget(Wrote(model, key, item, [key] + model.mru), usage + |key| + |item.value|, m, 0)
  {
    WithoutAbsent(model.mru, key);
    TotalAdmit(ChargeBytes, model.mru, model.items, key, item);
    TotalAdmit(ValueBytes, model.mru, model.items, key, item);
    TotalAdmit(NonEmptyValues, model.mru, model.items, key, item);
  }

  lemma InsertListed(model: Spec, key: Key, item: Item)
    requires Listed(model) && key !in model.items
    ensures Listed(Wrote(model, key, item, [key] + model.mru))
  {
  }

  lemma InsertRepresents(r: Rep, model: Spec, key: Key, entry: CacheEntry, item: Item)
    requires Represents(r, model, entry.data) && key !in r.entries && r.source == |model.written| + 1
    requires Holds(entry, item.value, r.blocks) && JustArmed(r.pending, r.source, key, item.deadline)
    ensures Represents(Inserted(r, key, entry, item.value), Wrote(model, key, item, [key] + model.mru), NULL)
  {
    hide Recency, Owned, Timers, Budget, Listed, JustArmed;
    var stored := StoredEntry(entry, r.nextNode, r.source);
    SameKeys(r, model, entry.data);
    RecencyPush(r.nodes, r.entries, model.mru, r.nextNode, key, stored);
    OwnedInsert(r.entries, model.items, r.blocks, r.owner, key, stored, item);
    TimersAssign(r.entries, model.items, r.pending, r.source, model.written, key, stored, item);
    InsertListed(model, key, item);
    BudgetInsert(model, r.usage, r.metrics, SpareBytes(r.blocks, entry.data), key, item);
  }

  ghost function Swapped(r: Rep, key: Key, entry: CacheEntry, value: Bytes): Rep
    requires key in r.entries && |key| + r.entries[key].entry.size <= r.usage
  {
    var was := r.entries[key];
    r.(entries := r.entries[key := StoredEntry(entry, was.position, r.source)],
       usage := r.usage - (|key| + was.entry.size) + (|key| + |value|),
       owner := if value == [] then r.owner - {was.entry.data}
                else (r.owner - {was.entry.data})[entry.data := key])
  }

  lemma {:induction false} TotalReplace(measure: Measure, mru: seq<Key>, items: map<Key, Item>, key: Key, item: Item)
    requires NoDuplicates(mru) && key in mru && key in items
    ensures Total(measure, mru, items[key := item]) + Weigh(measure, key, items[key].value)
         == Total(measure, mru, items) + Weigh(measure, key, item.value)
  {
    TotalWithout(measure, mru, items, key);
    TotalWithout(measure, mru, items[key := item], key);
    WithoutMembers(mru, key);
    TotalFrame(measure, Without(mru, key), items, items[key := item]);
  }

  lemma BudgetReplace(model: Spec, usage: nat, m: Metrics, spareBytes: nat, key: Key, item: Item)
    requires Budget(model, usage, m, spareBytes) && Listed(model) && key in model.items && spareBytes == |item.value|
    ensures var size := |model.items[key].value|;
            && |key| + size <= usage
            && Budget(Wrote(model, key, item, model.mru), usage - (|key| + size) + (|key| + |item.value|), m, size)
  {
    TotalReplace(ChargeBytes, model.mru, model.items, key, item);
    TotalReplace(ValueBytes, model.mru, model.items, key, item);
    TotalReplace(NonEmptyValues, model.mru, model.items, key, item);
    TotalWithout(ChargeBytes, model.mru, model.items, key);
  }

  /** The swapped-out block is spare until the replacement object that now holds it is destroyed. */
  lemma SwapRepresents(r: Rep, model: Spec, key: Key, entry: CacheEntry, item: Item)
    requires Represents(r, model, entry.data) && key in r.entries && r.source == |model.written| + 1
    requires Holds(entry, item.value, r.blocks) && JustArmed(r.pending, r.source, key, item.deadline)
    ensures |key| + r.entries[key].entry.size <= r.usage
    ensures Represents(Swapped(r, key, entry, item.value), Wrote(model, key, item, model.mru), r.entries[key].entry.data)
  {
    hide Recency, Owned, Timers, Budget, Listed, JustArmed;
    var was := r.entries[key];
    var stored := StoredEntry(entry, was.position, r.source);
    SameKeys(r, model, entry.data);
    EntryIsReturnable(r, model, entry.data, key);
    RecencyUpdate(r.nodes, r.entries, model.mru, r.nextNode, key, stored);
    OwnedSwap(r.entries, model.items, r.blocks, r.owner, key, entry, r.source, item);
    TimersAssign(r.entries, model.items, r.pending, r.source, model.written, key, stored, item);
    BudgetReplace(model, r.usage, r.metrics, |item.value|, key, item);
    ReplaceListed(model, key, item);
  }

  lemma ReplaceListed(model: Spec, key: Key, item: Item)
    requires Listed(model) && key in model.items
    ensures Listed(Wrote(model, key, item, model.mru))
  {
  }
}
