/** The list of devices, pipes and converters: doubly linked nodes on the heap.  The
    first node stands for the list; it also keeps the last node and the place of the
    one iterator. */
module EntityList {
  import opened Bytes

  // ----- The list as a value -----

  /** The entities, and where the iterator is. */
  datatype Walk<T> = Walk(items: seq<T>, at: Option<nat>)
  {
    predicate Proper() {
      at.Some? ==> at.value < |items|
    }

    function Current(): Option<T>
      requires Proper()
    {
      if at.Some? then Some(items[at.value]) else None
    }

    /** One place on: from the start when the iterator is nowhere, and nowhere after
        the last one. */
    function Up(): (w: Walk<T>)
      ensures w.items == items && (items != [] ==> w.Proper())
    {
      this.(at := if at.None? then Some(0) else if at.value + 1 < |items| then Some(at.value + 1) else None)
    }

    function Down(): (w: Walk<T>)
      requires items != []
      ensures w.items == items && (Proper() ==> w.Proper())
    {
      this.(at := if at.None? then Some(|items| - 1) else if at.value > 0 then Some(at.value - 1) else None)
    }
  }

  // ----- The list on the heap -----

  class Node<T> {
    const entity: T
    var next: Node?<T>
    var previous: Node?<T>
    var last: Node?<T>
    var iter: Node?<T>

    constructor (entity: T)
      ensures this.entity == entity && next == null && previous == null && last == null && iter == null
    {
      this.entity := entity;
      next, previous, last, iter := null, null, null, null;
    }
  }

  /** Each node points to its neighbours. */
  ghost predicate Linked<T>(nodes: seq<Node<T>>)
    reads nodes
  {
    && (forall i, k | 0 <= i < k < |nodes| :: nodes[i] != nodes[k])
    && (forall i, k | 0 <= i < |nodes| && k == i + 1 && k < |nodes| ::
          nodes[i].next == nodes[k] && nodes[k].previous == nodes[i])
    && (nodes != [] ==> nodes[0].previous == null && nodes[|nodes| - 1].next == null)
  }

  /** `list` is a list of these nodes, in this order. */
  ghost predicate Valid<T>(list: Node?<T>, nodes: seq<Node<T>>)
    reads nodes
  {
    && list == (if nodes == [] then null else nodes[0])
    && Linked(nodes)
    && (nodes != [] ==>
          && nodes[0].last == nodes[|nodes| - 1]
          && (nodes[0].iter == null || nodes[0].iter in nodes))
  }

  ghost function Entities<T>(nodes: seq<Node<T>>): seq<T> {
    seq(|nodes|, i requires 0 <= i < |nodes| => nodes[i].entity)
  }

  ghost function IndexOf<T>(nodes: seq<Node<T>>, node: Node<T>): (i: nat)
    requires node in nodes
    ensures i < |nodes| && nodes[i] == node
  {
    if nodes[0] == node then 0 else 1 + IndexOf(nodes[1..], node)
  }

  ghost function View<T>(list: Node?<T>, nodes: seq<Node<T>>): (w: Walk<T>)
    requires Valid(list, nodes)
    reads nodes
    ensures w.Proper() && w.items == Entities(nodes)
  {
    Walk(Entities(nodes), if list == null || list.iter == null then None else Some(IndexOf(nodes, list.iter)))
  }

  /** Put an entity in front: a new list, with the iterator nowhere. */
  method Append<T>(list: Node?<T>, entity: T, ghost nodes: seq<Node<T>>)
    returns (head: Node<T>, ghost now: seq<Node<T>>)
    requires Valid(list, nodes)
    modifies nodes
    ensures Valid(head, now) && fresh(head) && now == [head] + nodes
    ensures View(head, now) == Walk([entity] + Entities(nodes), None)
  {
    head := new Node(entity);
    head.next := list;
    if list == null {
      head.last := head;
    } else {
      list.previous := head;
      head.last := list.last;
    }
    now := [head] + nodes;
  }

  /** Put an entity at the end. */
  method Insert<T>(list: Node?<T>, entity: T, ghost nodes: seq<Node<T>>)
    returns (head: Node<T>, ghost now: seq<Node<T>>)
    requires Valid(list, nodes)
    modifies nodes
    ensures Valid(head, now) && (list != null ==> head == list)
    ensures |now| == |nodes| + 1 && now[..|nodes|] == nodes && fresh(now[|nodes|])
    ensures View(head, now) == Walk(Entities(nodes) + [entity], old(View(list, nodes).at))
  {
    hide IndexOf;
    var entry := new Node(entity);
    if list != null {
      entry.previous := list.last;
      list.last.next := entry;
      head := list;
    } else {
      head := entry;
    }
    head.last := entry;
    now := nodes + [entry];
    if list != null && list.iter != null {
      IndexInMore(nodes, entry, list.iter);
    }
  }

  lemma IndexInMore<T>(nodes: seq<Node<T>>, entry: Node<T>, node: Node<T>)
    requires node in nodes
    ensures node in nodes + [entry] && IndexOf(nodes + [entry], node) == IndexOf(nodes, node)
  {
    if nodes[0] != node {
      assert (nodes + [entry])[1..] == nodes[1..] + [entry];
      IndexInMore(nodes[1..], entry, node);
    }
  }

  lemma {:induction false} IndexIs<T>(nodes: seq<Node<T>>, i: nat)
    requires i < |nodes| && forall j, k | 0 <= j < k < |nodes| :: nodes[j] != nodes[k]
    ensures IndexOf(nodes, nodes[i]) == i
  {
    if i > 0 {
      IndexIs(nodes[1..], i - 1);
    }
  }

  method Reset<T>(list: Node?<T>, ghost nodes: seq<Node<T>>)
    requires Valid(list, nodes)
    modifies if list == null then {} else {list}
    ensures Valid(list, nodes) && View(list, nodes) == old(View(list, nodes)).(at := None)
  {
    if list != null {
      list.iter := null;
    }
  }

  method First<T>(list: Node?<T>, ghost nodes: seq<Node<T>>) returns (node: Node?<T>)
    requires Valid(list, nodes)
    modifies if list == null then {} else {list}
    ensures Valid(list, nodes) && node == list
    ensures list != null ==> View(list, nodes) == old(View(list, nodes)).(at := Some(0))
  {
    if list != null {
      list.iter := list;
    }
    node := list;
  }

  method Last<T>(list: Node?<T>, ghost nodes: seq<Node<T>>) returns (node: Node?<T>)
    requires Valid(list, nodes)
    modifies if list == null then {} else {list}
    ensures Valid(list, nodes) && node == (if list == null then null else nodes[|nodes| - 1])
    ensures list != null ==> View(list, nodes) == old(View(list, nodes)).(at := Some(|nodes| - 1))
  {
    if list == null {
      return null;
    }
    IndexIs(nodes, |nodes| - 1);
    list.iter := list.last;
    return list.last;
  }

  /** The node at the iterator's place. */
  ghost function At<T>(nodes: seq<Node<T>>, at: Option<nat>): Node?<T>
    requires at.Some? ==> at.value < |nodes|
  {
    if at.Some? then nodes[at.value] else null
  }

  method Up<T>(list: Node?<T>, ghost nodes: seq<Node<T>>) returns (node: Node?<T>)
    requires Valid(list, nodes)
    modifies if list == null then {} else {list}
    ensures Valid(list, nodes)
    ensures list == null ==> node == null
    ensures list != null ==> View(list, nodes) == old(View(list, nodes)).Up() && node == At(nodes, View(list, nodes).at)
  {
    if list == null {
      return null;
    }
    ghost var at := View(list, nodes).at;
    if list.iter != null {
      assert at.value + 1 < |nodes| ==> list.iter.next == nodes[at.value + 1];
      if at.value + 1 < |nodes| { IndexIs(nodes, at.value + 1); }
      list.iter := list.iter.next;
    } else {
      list.iter := list;
    }
    return list.iter;
  }

  method Down<T>(list: Node?<T>, ghost nodes: seq<Node<T>>) returns (node: Node?<T>)
    requires Valid(list, nodes)
    modifies if list == null then {} else {list}
    ensures Valid(list, nodes)
    ensures list == null ==> node == null
    ensures list != null ==> View(list, nodes) == old(View(list, nodes)).Down() && node == At(nodes, View(list, nodes).at)
  {
    if list == null {
      return null;
    }
    ghost var at := View(list, nodes).at;
    if list.iter != null {
      assert at.value > 0 ==> list.iter.previous == nodes[at.value - 1];
      if at.value > 0 { IndexIs(nodes, at.value - 1); }
      list.iter := list.iter.previous;
    } else {
      IndexIs(nodes, |nodes| - 1);
      list.iter := list.last;
    }
    return list.iter;
  }

  /** One place on, and the entity there. */
  method Next<T>(list: Node?<T>, ghost nodes: seq<Node<T>>) returns (entity: Option<T>)
    requires Valid(list, nodes)
    modifies if list == null then {} else {list}
    ensures Valid(list, nodes)
    ensures list == null ==> entity == None
    ensures list != null ==>
      View(list, nodes) == old(View(list, nodes)).Up() && entity == View(list, nodes).Current()
  {
    if list == null {
      return None;
    }
    ghost var at := View(list, nodes).at;
    var entry: Node?<T>;
    if list.iter == null {
      entry := list;
    } else {
      assert at.value + 1 < |nodes| ==> list.iter.next == nodes[at.value + 1];
      if at.value + 1 < |nodes| { IndexIs(nodes, at.value + 1); }
      entry := list.iter.next;
    }
    entity := None;
    if entry != null {
      entity := Some(entry.entity);
    }
    list.iter := entry;
  }

  method Previous<T>(list: Node?<T>, ghost nodes: seq<Node<T>>) returns (entity: Option<T>)
    requires Valid(list, nodes)
    modifies if list == null then {} else {list}
    ensures Valid(list, nodes)
    ensures list == null ==> entity == None
    ensures list != null ==>
      View(list, nodes) == old(View(list, nodes)).Down() && entity == View(list, nodes).Current()
  {
    if list == null {
      return None;
    }
    ghost var at := View(list, nodes).at;
    var entry: Node?<T>;
    if list.iter == null {
      IndexIs(nodes, |nodes| - 1);
      entry := list.last;
    } else {
      assert at.value > 0 ==> list.iter.previous == nodes[at.value - 1];
      if at.value > 0 { IndexIs(nodes, at.value - 1); }
      entry := list.iter.previous;
    }
    entity := None;
    if entry != null {
      entity := Some(entry.entity);
    }
    list.iter := entry;
  }

  function Reversed<T>(s: seq<T>): seq<T> {
    seq(|s|, i requires 0 <= i < |s| => s[|s| - 1 - i])
  }

  /** What is done to a node. */
  datatype Use<T> = Read(node: Node<T>) | Freed(node: Node<T>)

  /** A node is freed once, and not touched any more. */
  ghost predicate NoUseAfterFree<T>(uses: seq<Use<T>>) {
    forall i, j | 0 <= i < j < |uses| :: uses[i].Freed? ==> uses[i].node != uses[j].node
  }

  ghost predicate FreedIn<T>(uses: seq<Use<T>>, freed: seq<Node<T>>) {
    forall i | 0 <= i < |uses| :: uses[i].Freed? ==> uses[i].node in freed
  }

  lemma OneMoreFreed<T>(uses: seq<Use<T>>, freed: seq<Node<T>>, entry: Node<T>)
    requires NoUseAfterFree(uses) && FreedIn(uses, freed) && entry !in freed
    ensures NoUseAfterFree(uses + [Read(entry), Freed(entry)])
    ensures FreedIn(uses + [Read(entry), Freed(entry)], freed + [entry])
  {}

  /** Destroy the list: `visited` are the entities given to the callback, `freed` the
      nodes freed after them, and `uses` all that is done to nodes. */
  method Destroy<T>(list: Node?<T>, ghost nodes: seq<Node<T>>)
    returns (visited: seq<T>, ghost freed: seq<Node<T>>, ghost uses: seq<Use<T>>)
    requires Valid(list, nodes)
    ensures visited == Reversed(Entities(nodes)) && freed == Reversed(nodes)
    ensures NoUseAfterFree(uses) && forall node <- nodes :: Freed(node) in uses
  {
    visited, freed, uses := [], [], [];
    if list == null {
      return;
    }
    ghost var n := |nodes|;
    uses := [Read(list)];
    var entry := list.last;
    while entry != null
      invariant 0 <= n <= |nodes| && entry == (if n == 0 then null else nodes[n - 1])
      invariant |freed| == |visited| == |nodes| - n
      invariant forall i | 0 <= i < |freed| :: freed[i] == nodes[|nodes| - 1 - i] && visited[i] == freed[i].entity
      invariant entry != null ==> entry !in freed
      invariant NoUseAfterFree(uses) && FreedIn(uses, freed)
      invariant forall i | n <= i < |nodes| :: Freed(nodes[i]) in uses
      decreases n
    {
      var previous := entry.previous;
      visited := visited + [entry.entity];
      OneMoreFreed(uses, freed, entry);
      freed, uses := freed + [entry], uses + [Read(entry), Freed(entry)];
      n := n - 1;
      entry := previous;
    }
  }

  // ----- Building -----

  datatype Op<T> = Inserted(entity: T) | Appended(entity: T)

  /** The entities after a sequence of operations on an empty list. */
  function Built<T>(ops: seq<Op<T>>): seq<T> {
    if ops == [] then []
    else
      match ops[|ops| - 1]
      case Inserted(e) => Built(ops[..|ops| - 1]) + [e]
      case Appended(e) => [e] + Built(ops[..|ops| - 1])
  }

  function InsertedOf<T>(ops: seq<Op<T>>): seq<T> {
    if ops == [] then []
    else InsertedOf(ops[..|ops| - 1]) + if ops[|ops| - 1].Inserted? then [ops[|ops| - 1].entity] else []
  }

  function AppendedOf<T>(ops: seq<Op<T>>): seq<T> {
    if ops == [] then []
    else AppendedOf(ops[..|ops| - 1]) + if ops[|ops| - 1].Appended? then [ops[|ops| - 1].entity] else []
  }

  /** First what was appended, the last one first, then what was inserted, in order. */
  lemma {:induction false} OrderOfList<T>(ops: seq<Op<T>>)
    ensures Built(ops) == Reversed(AppendedOf(ops)) + InsertedOf(ops)
  {
    if ops != [] {
      OrderOfList(ops[..|ops| - 1]);
      var e := ops[|ops| - 1].entity;
      var appended := AppendedOf(ops[..|ops| - 1]);
      assert Reversed(appended + [e]) == [e] + Reversed(appended);
      assert appended + [] == appended;
    }
  }

  /** The operations on the heap build that list. */
  method Build<T>(ops: seq<Op<T>>) returns (list: Node?<T>, ghost nodes: seq<Node<T>>)
    ensures Valid(list, nodes) && fresh(nodes)
    ensures View(list, nodes) == Walk(Built(ops), None)
  {
    list, nodes := null, [];
    for i := 0 to |ops|
      invariant Valid(list, nodes) && fresh(nodes)
      invariant View(list, nodes) == Walk(Built(ops[..i]), None)
    {
      assert ops[..i + 1][..i] == ops[..i];
      match ops[i] {
        case Inserted(e) => list, nodes := Insert(list, e, nodes);
        case Appended(e) => list, nodes := Append(list, e, nodes);
      }
    }
    assert ops[..|ops|] == ops;
  }

  // ----- Walking -----

  function After<T>(w: Walk<T>, n: nat): (t: Walk<T>)
    requires w.Proper() && w.items != []
    ensures t.Proper() && t.items == w.items
    decreases n
  {
    if n == 0 then w else After(w.Up(), n - 1)
  }

  /** What n calls of next return. */
  function Visits<T>(w: Walk<T>, n: nat): seq<Option<T>>
    requires w.Proper() && w.items != []
    decreases n
  {
    if n == 0 then [] else [w.Up().Current()] + Visits(w.Up(), n - 1)
  }

  function Somes<T>(items: seq<T>): seq<Option<T>> {
    seq(|items|, i requires 0 <= i < |items| => Some(items[i]))
  }

  /** The place after the iterator's. */
  function Start<T>(w: Walk<T>): nat {
    if w.at.None? then 0 else w.at.value + 1
  }

  /** A walk visits every entity behind the iterator once, in order, then nothing; then
      it starts again from the first. */
  lemma {:induction false} WalkVisits<T>(w: Walk<T>)
    requires w.Proper() && w.items != [] && Start(w) <= |w.items|
    ensures var n := |w.items| - Start(w) + 1;
      Visits(w, n) == Somes(w.items[Start(w)..]) + [None] && After(w, n) == w.(at := None)
    decreases |w.items| - Start(w)
  {
    var n := |w.items| - Start(w) + 1;
    if Start(w) < |w.items| {
      WalkVisits(w.Up());
      assert Somes(w.items[Start(w)..]) == [Some(w.items[Start(w)])] + Somes(w.items[Start(w) + 1..]);
    } else {
      assert Visits(w, 1) == [w.Up().Current()] + Visits(w.Up(), 0);
      assert After(w, 1) == After(w.Up(), 0);
    }
  }

  /** From a reset list it visits every entity. */
  lemma WalkVisitsAll<T>(items: seq<T>)
    requires items != []
    ensures Visits(Walk(items, None), |items| + 1) == Somes(items) + [None]
    ensures After(Walk(items, None), |items| + 1) == Walk(items, None)
  {
    hide Visits, After, Somes;
    var w := Walk(items, None);
    assert Start(w) == 0;
    WalkVisits(w);
    assert items[0..] == items;
  }

  /** After first, which puts the iterator on the first entity, a walk with next leaves
      that entity out. */
  lemma WalkAfterFirst<T>(items: seq<T>)
    requires items != []
    ensures Visits(Walk(items, Some(0)), |items|) == Somes(items[1..]) + [None]
  {
    hide Visits, After, Somes;
    var w := Walk(items, Some(0));
    assert Start(w) == 1;
    WalkVisits(w);
  }

  /** Down undoes up, and up undoes down, also around the ends. */
  lemma UpAndDown<T>(w: Walk<T>)
    requires w.Proper() && w.items != []
    ensures w.Up().Down() == w && w.Down().Up() == w
  {}
}
