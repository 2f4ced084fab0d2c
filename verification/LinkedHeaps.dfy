/** The pointer-linked binary heap (libuv: src/heap-inl.h). Nodes are named by their addresses; `mem` is the memory that holds their
    links. The heap is a complete binary tree: `at` names the node at each position of the tree, where position 1 is the root and
    the children of position p are 2p and 2p + 1, and `pos` is its inverse.
 */
module LinkedHeaps {
  import opened InternalKeys

  datatype Links = Links(left: Option<nat>, right: Option<nat>, parent: Option<nat>)

  type Memory = map<nat, Links>

  /** The comparison function that callers pass along: true if the first node is less than the second. */
  type Less = (nat, nat) -> bool

  // ---------------------------------------------------------------- the shape

  function At(at: map<nat, nat>, p: nat): Option<nat> {
    if p in at then Some(at[p]) else None
  }

  predicate NodeOk(mem: Memory, at: map<nat, nat>, p: nat) {
    match p in at
    case true => at[p] in mem && mem[at[p]] == Links(At(at, 2 * p), At(at, 2 * p + 1), At(at, p / 2))
    case false => true
  }

  /** The links are those of the complete tree. */
  ghost predicate Laid(mem: Memory, min: Option<nat>, at: map<nat, nat>) {
    match min == At(at, 1)
    case true => forall p: nat {:trigger NodeOk(mem, at, p)} :: NodeOk(mem, at, p)
    case false => false
  }

  ghost predicate Inverse(at: map<nat, nat>, pos: map<nat, nat>) {
    && (forall p :: p in at ==> at[p] in pos && pos[at[p]] == p)
    && (forall x :: x in pos ==> pos[x] in at && at[pos[x]] == x)
  }

  ghost predicate Full(at: map<nat, nat>, n: nat) {
    forall p: nat :: p in at <==> 1 <= p <= n
  }

  ghost predicate Shape(mem: Memory, min: Option<nat>, n: nat, at: map<nat, nat>, pos: map<nat, nat>) {
    match Laid(mem, min, at)
    case true => Inverse(at, pos) && Full(at, n)
    case false => false
  }

  // ---------------------------------------------------------------- swapping two positions

  function Swapped(at: map<nat, nat>, p: nat, c: nat): map<nat, nat>
    requires p in at && c in at
  {
    at[p := at[c]][c := at[p]]
  }

  /** The inverse of a layout in which the nodes `x` and `y` changed places. */
  function PosSwapped(pos: map<nat, nat>, x: nat, y: nat): map<nat, nat>
    requires x in pos && y in pos
  {
    pos[x := pos[y]][y := pos[x]]
  }

  lemma SwapInverse(at: map<nat, nat>, pos: map<nat, nat>, p: nat, c: nat)
    requires Inverse(at, pos) && p in at && c in at
    ensures Inverse(Swapped(at, p, c), PosSwapped(pos, at[p], at[c]))
  {
  }

  /** What the stores of heap_node_swap leave in memory, in three parts: the two nodes, the parent links of the nodes below them,
      the link of the node above. */
  function Exchanged(mem: Memory, parent: nat, child: nat): Memory
    requires parent in mem && child in mem
  {
    var t := mem[parent];
    mem[parent := mem[child].(parent := Some(child))]
       [child := if t.left == Some(child) then t.(left := Some(parent)) else t.(right := Some(parent))]
  }

  function Sibling(t: Links, child: nat): Option<nat> {
    if t.left == Some(child) then t.right else t.left
  }

  function WithParent(mem: Memory, x: Option<nat>, parent: nat): Memory
    requires x.Some? ==> x.value in mem
  {
    if x.Some? then mem[x.value := mem[x.value].(parent := Some(parent))] else mem
  }

  function Adopted(mem: Memory, sibling: Option<nat>, left: Option<nat>, right: Option<nat>, parent: nat, child: nat): Memory
    requires (sibling.Some? ==> sibling.value in mem) && (left.Some? ==> left.value in mem) && (right.Some? ==> right.value in mem)
  {
    WithParent(WithParent(WithParent(mem, sibling, child), left, parent), right, parent)
  }

  function Rehung(mem: Memory, above: Option<nat>, parent: nat, child: nat): Memory
    requires above.Some? ==> above.value in mem
  {
    if above.None? then mem
    else if mem[above.value].left == Some(parent) then mem[above.value := mem[above.value].(left := Some(child))]
    else mem[above.value := mem[above.value].(right := Some(child))]
  }

  predicate Within(mem: Memory, x: Option<nat>) { x.Some? ==> x.value in mem }

  predicate Elsewhere(x: Option<nat>, parent: nat, child: nat) { x != Some(parent) && x != Some(child) }

  /** The nodes that a swap touches exist, and those below are neither the parent nor the child. */
  predicate Near(mem: Memory, parent: nat, child: nat) {
    match parent in mem && child in mem && parent != child
    case true =>
      var t, u := mem[parent], mem[child];
      && Within(mem, Sibling(t, child)) && Within(mem, t.parent) && Within(mem, u.left) && Within(mem, u.right)
      && Elsewhere(Sibling(t, child), parent, child) && Elsewhere(u.left, parent, child) && Elsewhere(u.right, parent, child)
      && Elsewhere(t.parent, parent, child)
    case false => false
  }

  function SwapMemory(mem: Memory, parent: nat, child: nat): Memory
    requires Near(mem, parent, child)
  {
    var t, u := mem[parent], mem[child];
    Rehung(Adopted(Exchanged(mem, parent, child), Sibling(t, child), u.left, u.right, parent, child), t.parent, parent, child)
  }

  lemma AdoptKeepsTwo(mem: Memory, sibling: Option<nat>, left: Option<nat>, right: Option<nat>, parent: nat, child: nat)
    requires Within(mem, sibling) && Within(mem, left) && Within(mem, right) && parent in mem && child in mem
    requires Elsewhere(sibling, parent, child) && Elsewhere(left, parent, child) && Elsewhere(right, parent, child)
    ensures Adopted(mem, sibling, left, right, parent, child)[parent] == mem[parent]
    ensures Adopted(mem, sibling, left, right, parent, child)[child] == mem[child]
  {
  }

  /** The nodes around a parent at position `p` and its child at `c`. */
  predicate Around(mem: Memory, at: map<nat, nat>, p: nat, c: nat) {
    match p in at && c in at && c / 2 == p && p > 0
    case true =>
      && NodeOk(mem, at, p) && NodeOk(mem, at, c) && NodeOk(mem, at, p / 2)
      && NodeOk(mem, at, 2 * p) && NodeOk(mem, at, 2 * p + 1) && NodeOk(mem, at, 2 * c) && NodeOk(mem, at, 2 * c + 1)
    case false => false
  }

  lemma AroundIsNear(mem: Memory, at: map<nat, nat>, pos: map<nat, nat>, p: nat, c: nat)
    requires Inverse(at, pos) && Around(mem, at, p, c)
    ensures Near(mem, at[p], at[c])
    ensures Sibling(mem[at[p]], at[c]) == At(at, if c == 2 * p then 2 * p + 1 else 2 * p)
  {
  }

  function Exchange(x: Option<nat>, parent: nat, child: nat): Option<nat> {
    if x == Some(parent) then Some(child) else if x == Some(child) then Some(parent) else x
  }

  /** The links of a node, with the names of parent and child exchanged. */
  function ExchangeAll(x: Links, parent: nat, child: nat): Links {
    Links(Exchange(x.left, parent, child), Exchange(x.right, parent, child), Exchange(x.parent, parent, child))
  }

  /** The swap exchanges the names in the two nodes themselves, */
  lemma SwapsTwo(mem: Memory, at: map<nat, nat>, pos: map<nat, nat>, p: nat, c: nat)
    requires Inverse(at, pos) && Around(mem, at, p, c) && Near(mem, at[p], at[c])
    ensures at[p] in SwapMemory(mem, at[p], at[c]) && at[c] in SwapMemory(mem, at[p], at[c])
    ensures SwapMemory(mem, at[p], at[c])[at[c]] == ExchangeAll(mem[at[p]], at[p], at[c])
    ensures SwapMemory(mem, at[p], at[c])[at[p]] == ExchangeAll(mem[at[c]], at[p], at[c])
  {
    var parent, child := at[p], at[c];
    var t, u := mem[parent], mem[child];
    AdoptKeepsTwo(Exchanged(mem, parent, child), Sibling(t, child), u.left, u.right, parent, child);
  }

  /** in the parent links of the nodes below them, */
  lemma SwapsBelow(mem: Memory, at: map<nat, nat>, pos: map<nat, nat>, p: nat, c: nat, q: nat)
    requires Inverse(at, pos) && Around(mem, at, p, c) && NodeOk(mem, at, q) && q in at && q != p && q != c
    requires Near(mem, at[p], at[c])
    ensures var t, u := mem[at[p]], mem[at[c]];
            var mem' := Adopted(Exchanged(mem, at[p], at[c]), Sibling(t, at[c]), u.left, u.right, at[p], at[c]);
            at[q] in mem' && mem'[at[q]] == mem[at[q]].(parent := Exchange(mem[at[q]].parent, at[p], at[c]))
  {
    AroundIsNear(mem, at, pos, p, c);
  }

  /** and in the node above. */
  lemma SwapsRest(mem: Memory, at: map<nat, nat>, pos: map<nat, nat>, p: nat, c: nat, q: nat)
    requires Inverse(at, pos) && Around(mem, at, p, c) && NodeOk(mem, at, q) && q in at && q != p && q != c
    requires Near(mem, at[p], at[c])
    ensures at[q] in SwapMemory(mem, at[p], at[c])
    ensures SwapMemory(mem, at[p], at[c])[at[q]] == ExchangeAll(mem[at[q]], at[p], at[c])
  {
    SwapsBelow(mem, at, pos, p, c, q);
  }

  lemma SwapLays(mem: Memory, min: Option<nat>, at: map<nat, nat>, pos: map<nat, nat>, n: nat, p: nat, c: nat)
    requires Inverse(at, pos) && Laid(mem, min, at) && Around(mem, at, p, c) && Full(at, n)
    ensures Near(mem, at[p], at[c])
    ensures Laid(SwapMemory(mem, at[p], at[c]), if mem[at[p]].parent.None? then Some(at[c]) else min, Swapped(at, p, c))
  {
    AroundIsNear(mem, at, pos, p, c);
    SwapsTwo(mem, at, pos, p, c);
    var mem' := SwapMemory(mem, at[p], at[c]);
    forall q: nat ensures NodeOk(mem', Swapped(at, p, c), q) {
      assert NodeOk(mem, at, q);
      if q in at && q != p && q != c { SwapsRest(mem, at, pos, p, c, q); }
      ExchangeLays(mem, mem', at, pos, p, c, q);
    }
  }

  lemma ExchangeAt(at: map<nat, nat>, pos: map<nat, nat>, p: nat, c: nat, q: nat)
    requires Inverse(at, pos) && p in at && c in at
    ensures At(Swapped(at, p, c), q) == Exchange(At(at, q), at[p], at[c])
  {
  }

  /** A memory in which the two names are exchanged throughout is the memory of the exchanged layout. */
  lemma ExchangeLays(mem: Memory, mem': Memory, at: map<nat, nat>, pos: map<nat, nat>, p: nat, c: nat, q: nat)
    requires Inverse(at, pos) && p in at && c in at && NodeOk(mem, at, q)
    requires q in at ==> Swapped(at, p, c)[q] in mem' && mem'[Swapped(at, p, c)[q]] == ExchangeAll(mem[at[q]], at[p], at[c])
    ensures NodeOk(mem', Swapped(at, p, c), q)
  {
    ExchangeAt(at, pos, p, c, 2 * q);
    ExchangeAt(at, pos, p, c, 2 * q + 1);
    ExchangeAt(at, pos, p, c, q / 2);
  }

  // ---------------------------------------------------------------- a new last node

  /** A place that holds a pointer to a node. */
  datatype Slot = Root | LeftOf(node: nat) | RightOf(node: nat)

  predicate SlotIn(mem: Memory, slot: Slot) { slot.Root? || slot.node in mem }

  function Load(mem: Memory, min: Option<nat>, slot: Slot): Option<nat>
    requires SlotIn(mem, slot)
  {
    match slot
    case Root => min
    case LeftOf(x) => mem[x].left
    case RightOf(x) => mem[x].right
  }

  function StoreIn(mem: Memory, slot: Slot, x: Option<nat>): Memory
    requires SlotIn(mem, slot)
  {
    match slot
    case Root => mem
    case LeftOf(y) => mem[y := mem[y].(left := x)]
    case RightOf(y) => mem[y := mem[y].(right := x)]
  }

  /** The place that leads to position `q`. */
  function SlotFor(at: map<nat, nat>, q: nat): Slot
    requires q / 2 in at || q <= 1
  {
    if q <= 1 then Root else if q % 2 == 0 then LeftOf(at[q / 2]) else RightOf(at[q / 2])
  }

  lemma GrowLays(mem: Memory, min: Option<nat>, at: map<nat, nat>, pos: map<nat, nat>, n: nat, x: nat)
    requires Laid(mem, min, at) && Inverse(at, pos) && Full(at, n) && x !in pos
    ensures SlotIn(mem, SlotFor(at, n + 1))
    ensures var slot := SlotFor(at, n + 1);
            var mem' := StoreIn(mem[x := Links(None, None, At(at, (n + 1) / 2))], slot, Some(x));
            Laid(mem', if slot.Root? then Some(x) else min, at[n + 1 := x])
  {
    var slot := SlotFor(at, n + 1);
    assert NodeOk(mem, at, (n + 1) / 2);
    var mem', at' := StoreIn(mem[x := Links(None, None, At(at, (n + 1) / 2))], slot, Some(x)), at[n + 1 := x];
    forall q: nat ensures NodeOk(mem', at', q) {
      assert NodeOk(mem, at, q);
    }
  }

  lemma GrowInverse(at: map<nat, nat>, pos: map<nat, nat>, n: nat, x: nat)
    requires Inverse(at, pos) && Full(at, n) && x !in pos
    ensures Inverse(at[n + 1 := x], pos[x := n + 1]) && Full(at[n + 1 := x], n + 1)
  {
  }

  // ---------------------------------------------------------------- no last node, and a node in place of another

  lemma CutLays(mem: Memory, min: Option<nat>, at: map<nat, nat>, pos: map<nat, nat>, n: nat)
    requires Laid(mem, min, at) && Inverse(at, pos) && Full(at, n) && n > 0
    ensures SlotIn(mem, SlotFor(at, n))
    ensures Laid(StoreIn(mem, SlotFor(at, n), None), if n == 1 then None else min, at - {n})
    ensures Inverse(at - {n}, pos - {at[n]}) && Full(at - {n}, n - 1)
  {
    assert NodeOk(mem, at, n / 2);
    forall q: nat ensures NodeOk(StoreIn(mem, SlotFor(at, n), None), at - {n}, q) {
      assert NodeOk(mem, at, q);
    }
  }

  /** The node `x` takes over the links of `y`, whose neighbours now lead to `x`. */
  function Replaced(mem: Memory, x: nat, y: nat): Memory
    requires y in mem && Within(mem, mem[y].left) && Within(mem, mem[y].right) && Within(mem, mem[y].parent)
  {
    var t := mem[y];
    Rehung(WithParent(WithParent(mem[x := t], t.left, x), t.right, x), t.parent, y, x)
  }

  lemma ReplaceLays(mem: Memory, min: Option<nat>, at: map<nat, nat>, pos: map<nat, nat>, n: nat, r: nat, x: nat)
    requires Laid(mem, min, at) && Inverse(at, pos) && Full(at, n) && r in at && x !in pos
    ensures at[r] in mem && Within(mem, mem[at[r]].left) && Within(mem, mem[at[r]].right) && Within(mem, mem[at[r]].parent)
    ensures Elsewhere(mem[at[r]].left, at[r], x) && Elsewhere(mem[at[r]].right, at[r], x)
    ensures Laid(Replaced(mem, x, at[r]), if mem[at[r]].parent.None? then Some(x) else min, at[r := x])
  {
    assert NodeOk(mem, at, r) && NodeOk(mem, at, 2 * r) && NodeOk(mem, at, 2 * r + 1) && NodeOk(mem, at, r / 2);
    var mem', at' := Replaced(mem, x, at[r]), at[r := x];
    forall q: nat ensures NodeOk(mem', at', q) {
      assert NodeOk(mem, at, q);
      if q in at && q != r { ReplacesOne(mem, at, pos, r, x, q); }
    }
  }

  lemma ReplacesOne(mem: Memory, at: map<nat, nat>, pos: map<nat, nat>, r: nat, x: nat, q: nat)
    requires Inverse(at, pos) && r in at && r > 0 && x !in pos && NodeOk(mem, at, q) && q in at && q != r
    requires NodeOk(mem, at, r) && NodeOk(mem, at, 2 * r) && NodeOk(mem, at, 2 * r + 1) && NodeOk(mem, at, r / 2)
    requires at[r] in mem && Within(mem, mem[at[r]].left) && Within(mem, mem[at[r]].right) && Within(mem, mem[at[r]].parent)
    ensures NodeOk(Replaced(mem, x, at[r]), at[r := x], q)
  {
  }

  lemma ReplaceInverse(at: map<nat, nat>, pos: map<nat, nat>, n: nat, r: nat, x: nat)
    requires Inverse(at, pos) && Full(at, n) && r in at && x !in pos
    ensures Inverse(at[r := x], (pos - {at[r]})[x := r]) && Full(at[r := x], n)
  {
  }

  // ---------------------------------------------------------------- the order

  /** A strict weak order: nodes may be equivalent. */
  ghost predicate Orders(less: Less) {
    && (forall a, b :: less(a, b) ==> !less(b, a))
    && (forall a, b, c :: less(a, b) ==> less(a, c) || less(c, b))
  }

  /** The node at `p` is not less than the one at `q`. */
  predicate Above(less: Less, at: map<nat, nat>, q: nat, p: nat) {
    q in at && p in at ==> !less(at[p], at[q])
  }

  /** No node is less than its parent. */
  ghost predicate Ordered(less: Less, at: map<nat, nat>) {
    forall p: nat :: Above(less, at, p / 2, p)
  }

  /** The same, apart from the node at `r`: its children still are not less than its parent. */
  ghost predicate ExceptAt(less: Less, at: map<nat, nat>, r: nat) {
    && (forall p: nat :: p != r && p / 2 != r ==> Above(less, at, p / 2, p))
    && (forall p: nat :: p / 2 == r ==> Above(less, at, r / 2, p))
  }

  /** The same, where the node at `r` is in order with its children. */
  ghost predicate ExceptUp(less: Less, at: map<nat, nat>, r: nat) {
    && (forall p: nat :: p != r ==> Above(less, at, p / 2, p))
    && (forall p: nat :: p / 2 == r ==> Above(less, at, r / 2, p))
  }

  /** The first node is a least one. */
  lemma {:induction false} RootIsLeast(less: Less, at: map<nat, nat>, n: nat, p: nat)
    requires Orders(less) && Ordered(less, at) && Full(at, n) && p in at
    ensures 1 in at && !less(at[p], at[1])
  {
    if p > 1 {
      RootIsLeast(less, at, n, p / 2);
      assert Above(less, at, p / 2, p);
    }
  }

  /** Moving a node below its lesser child. */
  lemma SwapDown(less: Less, at: map<nat, nat>, r: nat, c: nat)
    requires Orders(less) && ExceptAt(less, at, r) && r > 0 && r in at && c in at && c / 2 == r && less(at[c], at[r])
    requires forall p: nat :: p / 2 == r ==> Above(less, at, c, p)
    ensures ExceptAt(less, Swapped(at, r, c), c)
  {
    var at' := Swapped(at, r, c);
    forall p: nat | p != c && p / 2 != c ensures Above(less, at', p / 2, p) {
      assert Above(less, at, r / 2, c) && (p != r && p / 2 != r ==> Above(less, at, p / 2, p));
      assert p / 2 == r ==> Above(less, at, c, p);
    }
    forall p: nat | p / 2 == c ensures Above(less, at', c / 2, p) {
      assert Above(less, at, p / 2, p);
    }
  }

  /** Moving a node above its parent. */
  lemma SwapUp(less: Less, at: map<nat, nat>, r: nat)
    requires Orders(less) && ExceptUp(less, at, r) && r / 2 > 0 && r in at && r / 2 in at && less(at[r], at[r / 2])
    ensures ExceptUp(less, Swapped(at, r / 2, r), r / 2)
  {
    var g := r / 2;
    var at' := Swapped(at, g, r);
    forall p: nat | p != g ensures Above(less, at', p / 2, p) {
      assert Above(less, at, p / 2, p) || p == r;
      assert p / 2 == r ==> Above(less, at, g, p);
    }
    forall p: nat | p / 2 == g ensures Above(less, at', g / 2, p) {
      assert Above(less, at, g / 2, g);
      assert p != r ==> Above(less, at, g, p);
    }
  }

  lemma GrowOrder(less: Less, at: map<nat, nat>, n: nat, x: nat)
    requires Ordered(less, at) && Full(at, n)
    ensures ExceptUp(less, at[n + 1 := x], n + 1)
  {
    var at' := at[n + 1 := x];
    forall p: nat | p != n + 1 ensures Above(less, at', p / 2, p) {
      assert Above(less, at, p / 2, p);
    }
  }

  lemma CutOrder(less: Less, at: map<nat, nat>, n: nat)
    requires Ordered(less, at)
    ensures Ordered(less, at - {n})
  {
    var at' := at - {n};
    forall p: nat ensures Above(less, at', p / 2, p) {
      assert Above(less, at, p / 2, p);
    }
  }

  lemma ReplaceOrder(less: Less, at: map<nat, nat>, r: nat, x: nat)
    requires Orders(less) && Ordered(less, at) && r in at && r > 0
    ensures ExceptAt(less, at[r := x], r)
  {
    var at' := at[r := x];
    forall p: nat | p != r && p / 2 != r ensures Above(less, at', p / 2, p) {
      assert Above(less, at, p / 2, p);
    }
    forall p: nat | p / 2 == r ensures Above(less, at', r / 2, p) {
      assert Above(less, at, p / 2, p) && Above(less, at, r / 2, r);
    }
  }

  // ---------------------------------------------------------------- the way to a position

  function Ancestor(q: nat, k: nat): nat {
    if k == 0 then q else Ancestor(q, k - 1) / 2
  }

  /** The lowest `k` bits of `q`, the lowest one first. */
  function Path(q: nat, k: nat): nat {
    if k == 0 then 0 else 2 * Path(q, k - 1) + Ancestor(q, k - 1) % 2
  }

  class LinkedHeap {
    var min: Option<nat>
    var nelts: nat
    var mem: Memory
    ghost var at: map<nat, nat>
    ghost var pos: map<nat, nat>

    ghost predicate Valid()
      reads this
    {
      Shape(mem, min, nelts, at, pos)
    }

    constructor ()
      ensures Valid() && nelts == 0 && pos == map[]
    {
      min, nelts, mem, at, pos := None, 0, map[], map[], map[];
    }

    method SetParent(x: Option<nat>, parent: nat)
      requires x.Some? ==> x.value in mem
      modifies this`mem
      ensures mem == if x.Some? then old(mem)[x.value := old(mem)[x.value].(parent := Some(parent))] else old(mem)
    {
      if x.Some? {
        mem := mem[x.value := mem[x.value].(parent := Some(parent))];
      }
    }

    /** Exchange a node with its child, link by link. */
    method NodeSwap(parent: nat, child: nat, ghost p: nat, ghost c: nat)
      requires Valid() && p in at && c in at && c / 2 == p && p > 0 && at[p] == parent && at[c] == child
      modifies this`min, this`mem, this`at, this`pos
      ensures Valid() && at == Swapped(old(at), p, c) && pos == PosSwapped(old(pos), parent, child)
    {
      assert NodeOk(mem, at, p) && NodeOk(mem, at, c) && NodeOk(mem, at, p / 2);
      assert NodeOk(mem, at, 2 * p) && NodeOk(mem, at, 2 * p + 1) && NodeOk(mem, at, 2 * c) && NodeOk(mem, at, 2 * c + 1);
      SwapLays(mem, min, at, pos, nelts, p, c);
      SwapInverse(at, pos, p, c);
      at, pos := Swapped(at, p, c), PosSwapped(pos, parent, child);
      SwapLinks(parent, child);
    }

    method SwapLinks(parent: nat, child: nat)
      requires Near(mem, parent, child)
      modifies this`min, this`mem
      ensures mem == SwapMemory(old(mem), parent, child)
      ensures min == if old(mem)[parent].parent.None? then Some(child) else old(min)
    {
      ghost var t, u := mem[parent], mem[child];
      mem := mem[parent := mem[child]][child := mem[parent]];
      mem := mem[parent := mem[parent].(parent := Some(child))];
      var sibling;
      if mem[child].left == Some(child) {
        mem := mem[child := mem[child].(left := Some(parent))];
        sibling := mem[child].right;
      } else {
        mem := mem[child := mem[child].(right := Some(parent))];
        sibling := mem[child].left;
      }
      assert mem == Exchanged(old(mem), parent, child) && sibling == Sibling(t, child);
      AdoptKeepsTwo(mem, sibling, u.left, u.right, parent, child);
      SetParent(sibling, child);
      SetParent(mem[parent].left, parent);
      SetParent(mem[parent].right, parent);
      assert mem == Adopted(Exchanged(old(mem), parent, child), Sibling(t, child), u.left, u.right, parent, child);
      var above := mem[child].parent;
      if above == None {
        min := Some(child);
      } else if mem[above.value].left == Some(parent) {
        mem := mem[above.value := mem[above.value].(left := Some(child))];
      } else {
        mem := mem[above.value := mem[above.value].(right := Some(child))];
      }
    }

    /** While the node is less than its parent, exchange them. */
    method WalkUp(node: nat, less: Less)
      requires Valid() && node in pos && Orders(less) && ExceptUp(less, at, pos[node])
      modifies this`min, this`mem, this`at, this`pos
      ensures Valid() && Ordered(less, at) && pos.Keys == old(pos.Keys)
    {
      assert NodeOk(mem, at, pos[node]);
      while mem[node].parent.Some? && less(node, mem[node].parent.value)
        invariant Valid() && node in pos && pos.Keys == old(pos.Keys) && ExceptUp(less, at, pos[node]) && NodeOk(mem, at, pos[node])
        decreases pos[node]
      {
        SwapUp(less, at, pos[node]);
        NodeSwap(mem[node].parent.value, node, pos[node] / 2, pos[node]);
        assert NodeOk(mem, at, pos[node]);
      }
    }

    /** While the node is greater than a child, exchange it with its smallest child. */
    method WalkDown(node: nat, less: Less)
      requires Valid() && node in pos && Orders(less) && ExceptAt(less, at, pos[node])
      modifies this`min, this`mem, this`at, this`pos
      ensures Valid() && pos.Keys == old(pos.Keys) && node in pos && ExceptUp(less, at, pos[node])
    {
      while true
        invariant Valid() && node in pos && pos.Keys == old(pos.Keys) && ExceptAt(less, at, pos[node])
        decreases nelts - pos[node]
      {
        var smallest := SmallestOf(node, less);
        if smallest == node {
          break;
        }
        SwapDown(less, at, pos[node], pos[smallest]);
        NodeSwap(node, smallest, pos[node], pos[smallest]);
      }
    }

    /** The node or one of its children, such that none of them is less. */
    method SmallestOf(node: nat, less: Less) returns (smallest: nat)
      requires Valid() && node in pos && Orders(less)
      ensures smallest in pos && (smallest != node ==> pos[smallest] / 2 == pos[node] && less(smallest, node))
      ensures forall p: nat :: p / 2 == pos[node] ==> Above(less, at, pos[smallest], p)
    {
      assert NodeOk(mem, at, pos[node]);
      smallest := node;
      if mem[node].left.Some? && less(mem[node].left.value, smallest) {
        smallest := mem[node].left.value;
      }
      if mem[node].right.Some? && less(mem[node].right.value, smallest) {
        smallest := mem[node].right.value;
      }
    }

    /** Follow the bits of `target` below the highest one from the root: to the right at each one, to the left at each zero. */
    method FindSlot(target: nat) returns (parent: Slot, child: Slot)
      requires Valid() && 1 <= target <= nelts + 1
      ensures child == SlotFor(at, target) && parent == SlotFor(at, if target == 1 then 1 else target / 2)
      ensures SlotIn(mem, parent) && Load(mem, min, parent) == At(at, if target == 1 then 1 else target / 2)
      ensures SlotIn(mem, child) && Load(mem, min, child) == At(at, target)
    {
      var path, k, n := 0, 0, target;
      while n >= 2
        invariant n >= 1 && n == Ancestor(target, k) && path == Path(target, k)
      {
        path := 2 * path + n % 2;
        n := n / 2;
        k := k + 1;
      }
      parent, child := Root, Root;
      ghost var q := 1;
      SlotLeads(mem, min, at, nelts, 1);
      while k > 0
        invariant 1 <= q <= target && q == Ancestor(target, k) && path == Path(target, k)
        invariant child == SlotFor(at, q) && parent == SlotFor(at, if q == 1 then 1 else q / 2)
        invariant SlotIn(mem, child) && Load(mem, min, child) == At(at, q)
        invariant SlotIn(mem, parent) && Load(mem, min, parent) == At(at, if q == 1 then 1 else q / 2)
      {
        PathStep(target, k);
        parent := child;
        var x := Load(mem, min, child).value;
        q := Ancestor(target, k - 1);
        child := if path % 2 == 1 then RightOf(x) else LeftOf(x);
        SlotLeads(mem, min, at, nelts, q);
        path := path / 2;
        k := k - 1;
      }
    }

    /** Insert a node at the first free position and walk it up. */
    method Insert(node: nat, less: Less)
      requires Valid() && Orders(less) && Ordered(less, at) && node !in pos
      modifies this
      ensures Valid() && Ordered(less, at) && pos.Keys == old(pos.Keys) + {node} && nelts == old(nelts) + 1
    {
      Append(node);
      GrowOrder(less, old(at), old(nelts), node);
      WalkUp(node, less);
    }

    method Append(node: nat)
      requires Valid() && node !in pos
      modifies this
      ensures Valid() && at == old(at)[nelts := node] && pos == old(pos)[node := nelts] && nelts == old(nelts) + 1
    {
      GrowLays(mem, min, at, pos, nelts, node);
      GrowInverse(at, pos, nelts, node);
      var child := NewNode(node);
      if child.Root? { min := Some(node); }
      mem := StoreIn(mem, child, Some(node));
      nelts := nelts + 1;
      at, pos := at[nelts := node], pos[node := nelts];
    }

    /** A node that points to its parent to be, and the place that will point to it. */
    method NewNode(node: nat) returns (child: Slot)
      requires Valid() && node !in pos
      modifies this`mem
      ensures child == SlotFor(at, nelts + 1) && mem == old(mem)[node := Links(None, None, At(at, (nelts + 1) / 2))]
    {
      var parent;
      parent, child := FindSlot(nelts + 1);
      assert parent.Root? || parent.node in pos;
      mem := mem[node := Links(None, None, None)];
      mem := mem[node := mem[node].(parent := Load(mem, min, parent))];
    }

    /** Remove a node, wherever it is: the last node takes its place, and walks down, then up. */
    method Remove(node: nat, less: Less)
      requires Valid() && Orders(less) && Ordered(less, at) && (nelts > 0 ==> node in pos)
      modifies this
      ensures Valid() && Ordered(less, at) && pos.Keys == old(pos.Keys) - {node}
      ensures nelts == if old(nelts) == 0 then 0 else old(nelts) - 1
    {
      if nelts == 0 {
        return;
      }
      ghost var r := pos[node];
      CutOrder(less, at, nelts);
      var child := CutLast();
      if child == node {
        return;
      }
      ReplaceOrder(less, at, r, child);
      Replace(node, child);
      WalkDown(child, less);
      WalkUp(child, less);
    }

    /** Unlink the last node. */
    method CutLast() returns (child: nat)
      requires Valid() && nelts > 0
      modifies this
      ensures Valid() && nelts == old(nelts) - 1 && child == old(at)[old(nelts)] && at == old(at) - {old(nelts)} && pos == old(pos) - {child}
    {
      CutLays(mem, min, at, pos, nelts);
      var parent, max := FindSlot(nelts);
      child := Load(mem, min, max).value;
      at, pos := at - {nelts}, pos - {child};
      nelts := nelts - 1;
      mem := StoreIn(mem, max, None);
      if max.Root? { min := None; }
    }

    /** Put a node that is in no heap in the place of another. */
    method Replace(node: nat, child: nat)
      requires Valid() && node in pos && child !in pos
      modifies this`min, this`mem, this`at, this`pos
      ensures Valid() && at == old(at)[old(pos)[node] := child] && pos == (old(pos) - {node})[child := old(pos)[node]]
    {
      ReplaceLays(mem, min, at, pos, nelts, pos[node], child);
      ReplaceInverse(at, pos, nelts, pos[node], child);
      at, pos := at[pos[node] := child], (pos - {node})[child := pos[node]];
      ReplaceLinks(node, child);
    }

    method ReplaceLinks(node: nat, child: nat)
      requires node in mem && Within(mem, mem[node].left) && Within(mem, mem[node].right) && Within(mem, mem[node].parent)
      requires child != node && Elsewhere(mem[node].left, node, child) && Elsewhere(mem[node].right, node, child)
      modifies this`min, this`mem
      ensures mem == Replaced(old(mem), child, node) && min == if old(mem)[node].parent.None? then Some(child) else old(min)
    {
      mem := mem[child := mem[node]];
      SetParent(mem[child].left, child);
      SetParent(mem[child].right, child);
      var above := mem[node].parent;
      if above.None? {
        min := Some(child);
      } else if mem[above.value].left == Some(node) {
        mem := mem[above.value := mem[above.value].(left := Some(child))];
      } else {
        mem := mem[above.value := mem[above.value].(right := Some(child))];
      }
    }

    method Min(less: Less) returns (m: Option<nat>)
      requires Valid() && Orders(less) && Ordered(less, at)
      ensures m.None? <==> pos.Keys == {}
      ensures m.Some? ==> m.value in pos && forall x :: x in pos ==> !less(x, m.value)
    {
      m := min;
      if m.Some? {
        forall x | x in pos ensures !less(x, m.value) { RootIsLeast(less, at, nelts, pos[x]); }
      }
    }
  }

  lemma SlotLeads(mem: Memory, min: Option<nat>, at: map<nat, nat>, n: nat, q: nat)
    requires Laid(mem, min, at) && Full(at, n) && 1 <= q <= n + 1
    ensures SlotIn(mem, SlotFor(at, q)) && Load(mem, min, SlotFor(at, q)) == At(at, q)
  {
    assert NodeOk(mem, at, q / 2);
  }

  /** The lowest bit of the path leads one step back from an ancestor. */
  lemma PathStep(q: nat, k: nat)
    requires k > 0
    ensures Ancestor(q, k - 1) == 2 * Ancestor(q, k) + Path(q, k) % 2 && Path(q, k) / 2 == Path(q, k - 1)
    ensures Ancestor(q, k - 1) <= q
  {
    AncestorSmall(q, k - 1);
    HalfStep(Ancestor(q, k - 1), Path(q, k - 1));
  }

  lemma HalfStep(a: nat, b: nat)
    ensures a == 2 * (a / 2) + (2 * b + a % 2) % 2 && (2 * b + a % 2) / 2 == b
  {
  }

  lemma {:induction false} AncestorSmall(q: nat, k: nat)
    ensures Ancestor(q, k) <= q
  {
    if k > 0 { AncestorSmall(q, k - 1); }
  }
}
