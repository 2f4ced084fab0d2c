/** The skip list with lock-free readers (db/skiplist.h). One writer inserts by separate link stores, bottom level first;
    any number of searches interleave with them load by load. Each atomic load or store is one step.

    Keys are unique, so a node is named by its key.
 */
module SkipList {
  import opened InternalKeys

  type Key = InternalKey

  const MAX_HEIGHT: nat := 12

  datatype Ref = Head | Node(key: Key)

  predicate After(x: Ref, k: Key) {
    x.Head? || Before(x.key, k)
  }

  /** Whether a search for `target` goes on past `k`; no target means the end of the list. */
  predicate Passes(target: Option<Key>, k: Key) {
    target.None? || Before(k, target.value)
  }

  // ---------------------------------------------------------------- the list

  /** The links, the height readers start from, and (for specification) the keys linked at each level. */
  datatype List = List(next: map<(Ref, nat), Option<Key>>, maxHeight: nat, keys: seq<set<Key>>)

  predicate Linked(keys: set<Key>, x: Ref) {
    x.Head? || x.key in keys
  }

  /** `n` is the first key after `x`. */
  ghost predicate IsNext(keys: set<Key>, x: Ref, n: Option<Key>) {
    match n
    case None => forall k :: k in keys ==> !After(x, k)
    case Some(k) => k in keys && After(x, k) && forall j :: j in keys && After(x, j) ==> AtMost(k, j)
  }

  /** Every link of a level leads to the next key of that level. */
  ghost predicate LevelOk(next: map<(Ref, nat), Option<Key>>, l: nat, keys: set<Key>) {
    forall x :: Linked(keys, x) ==> (x, l) in next && IsNext(keys, x, next[(x, l)])
  }

  ghost predicate ListOk(list: List) {
    && |list.keys| == MAX_HEIGHT && 1 <= list.maxHeight <= MAX_HEIGHT
    && (forall l :: 0 <= l < MAX_HEIGHT ==> LevelOk(list.next, l, list.keys[l]))
    && (forall l :: 0 < l < MAX_HEIGHT ==> list.keys[l] <= list.keys[l - 1])
    && (forall l :: list.maxHeight <= l < MAX_HEIGHT ==> list.keys[l] == {})
  }

  // ---------------------------------------------------------------- searching

  /** A search in progress or finished: where it stands, and at which level. */
  datatype Search =
    | Unstarted(target: Option<Key>)
    | At(target: Option<Key>, x: Ref, level: nat)
    | Found(target: Option<Key>, before: Ref, next: Option<Key>)

  /** One load and the comparison after it (the loop body of FindGreaterOrEqual, FindLessThan and FindLast). */
  function Look(r: Search, n: Option<Key>): Search
    requires r.At?
  {
    if n.Some? && Passes(r.target, n.value) then r.(x := Node(n.value))
    else if r.level == 0 then Found(r.target, r.x, n)
    else r.(level := r.level - 1)
  }

  ghost predicate SearchOk(keys: seq<set<Key>>, r: Search)
    requires |keys| == MAX_HEIGHT
  {
    r.At? ==> r.level < MAX_HEIGHT && Linked(keys[r.level], r.x) && (r.x.Node? ==> Passes(r.target, r.x.key))
  }

  /** The neighbours of `target` in a set: the last key before it (or the head) and the first key not before it. */
  ghost predicate Neighbours(keys: set<Key>, target: Option<Key>, before: Ref, next: Option<Key>) {
    && Linked(keys, before) && (before.Node? ==> Passes(target, before.key))
    && (next.Some? ==> next.value in keys && !Passes(target, next.value))
    && forall k :: k in keys ==>
         if Passes(target, k) then before.Node? && AtMost(k, before.key) else next.Some? && AtMost(next.value, k)
  }

  lemma LookKeepsSearch(list: List, r: Search)
    requires ListOk(list) && SearchOk(list.keys, r) && r.At?
    ensures (r.x, r.level) in list.next
    ensures SearchOk(list.keys, Look(r, list.next[(r.x, r.level)]))
    ensures Look(r, list.next[(r.x, r.level)]).Found? ==>
              Neighbours(list.keys[0], r.target, r.x, list.next[(r.x, r.level)])
  {
    assert LevelOk(list.next, r.level, list.keys[r.level]);
  }

  /** The search with nobody else running; `prev` collects the node at which it left each level. */
  method FindGreaterOrEqual(list: List, target: Option<Key>) returns (before: Ref, next: Option<Key>, prev: seq<Ref>)
    requires ListOk(list)
    ensures Neighbours(list.keys[0], target, before, next)
    ensures |prev| == list.maxHeight
    ensures forall l :: 0 <= l < list.maxHeight ==> (prev[l], l) in list.next && Neighbours(list.keys[l], target, prev[l], list.next[(prev[l], l)])
  {
    var x, level := Head, list.maxHeight - 1;
    prev := seq(list.maxHeight, _ => Head);
    while true
      invariant 0 <= level < list.maxHeight == |prev|
      invariant SearchOk(list.keys, At(target, x, level))
      invariant forall l :: level < l < list.maxHeight ==>
                  (prev[l], l) in list.next && Neighbours(list.keys[l], target, prev[l], list.next[(prev[l], l)])
      decreases level, set k | k in list.keys[level] && After(x, k)
    {
      assert LevelOk(list.next, level, list.keys[level]);
      next := list.next[(x, level)];
      if next.Some? && Passes(target, next.value) {
        ghost var ahead := set k | k in list.keys[level] && After(x, k);
        ghost var left := set k | k in list.keys[level] && After(Node(next.value), k);
        assert next.value in ahead && next.value !in left && left <= ahead;
        x := Node(next.value);
      } else {
        prev := prev[level := x];
        if level == 0 {
          return x, next, prev;
        }
        level := level - 1;
      }
    }
  }

  // ---------------------------------------------------------------- inserting

  /** An insert in progress: levels below `i` are linked; `own` says the new node's link at level `i` is set. */
  datatype Writer = Idle | Inserting(key: Key, height: nat, prev: seq<Ref>, i: nat, own: bool)

  /** `p` is the node after which `key` belongs at level `l`. */
  ghost predicate Precedes(list: List, l: nat, p: Ref, key: Key)
    requires |list.keys| == MAX_HEIGHT && l < MAX_HEIGHT
  {
    && Linked(list.keys[l], p) && After(p, key) && key !in list.keys[l]
    && forall k :: k in list.keys[l] && Before(k, key) ==> p.Node? && AtMost(k, p.key)
  }

  ghost predicate WriterOk(list: List, w: Writer)
    requires |list.keys| == MAX_HEIGHT
  {
    w.Inserting? ==>
      && 1 <= w.height <= MAX_HEIGHT && w.height <= list.maxHeight && w.i < w.height == |w.prev|
      && (forall l :: 0 <= l < w.i ==> w.key in list.keys[l])
      && (forall l :: w.i <= l < w.height ==> Precedes(list, l, w.prev[l], w.key))
      && (forall l :: w.height <= l < MAX_HEIGHT ==> w.key !in list.keys[l])
      && (w.own ==> (w.prev[w.i], w.i) in list.next && (Node(w.key), w.i) in list.next
                    && list.next[(Node(w.key), w.i)] == list.next[(w.prev[w.i], w.i)])
  }

  datatype State = State(list: List, writer: Writer, readers: seq<Search>)

  ghost predicate Inv(s: State) {
    && ListOk(s.list) && WriterOk(s.list, s.writer)
    && forall i :: 0 <= i < |s.readers| ==> SearchOk(s.list.keys, s.readers[i])
  }

  datatype Step =
    | Begin(key: Key, height: nat, prev: seq<Ref>)   // the search is done, the height drawn and published
    | SetOwn                                          // store the predecessor's link in the new node, at the next level
    | Publish                                         // store the new node in the predecessor's link at that level
    | Start(reader: nat)                              // load the height of the list
    | Load(reader: nat)                               // load one link

  function Max(a: nat, b: nat): nat { if a < b then b else a }

  /** The writer alone changes the list, so its own search and the height update form one step. */
  ghost predicate DoBegin(s: State, s': State, key: Key, height: nat, prev: seq<Ref>) {
    && s.writer.Idle? && |s.list.keys| == MAX_HEIGHT && key !in s.list.keys[0] && 1 <= height <= MAX_HEIGHT == |prev|
    && (forall l :: 0 <= l < height ==>
          if l < s.list.maxHeight then (prev[l], l) in s.list.next && Neighbours(s.list.keys[l], Some(key), prev[l], s.list.next[(prev[l], l)])
          else prev[l] == Head)
    && s' == s.(list := s.list.(maxHeight := Max(s.list.maxHeight, height)), writer := Inserting(key, height, prev[..height], 0, false))
  }

  ghost predicate DoSetOwn(s: State, s': State) {
    && s.writer.Inserting? && !s.writer.own && s.writer.i < |s.writer.prev|
    && var w := s.writer;
       && (w.prev[w.i], w.i) in s.list.next
       && s' == s.(list := s.list.(next := s.list.next[(Node(w.key), w.i) := s.list.next[(w.prev[w.i], w.i)]]), writer := w.(own := true))
  }

  ghost predicate DoPublish(s: State, s': State) {
    && s.writer.Inserting? && s.writer.own && s.writer.i < |s.writer.prev| && s.writer.i < |s.list.keys|
    && var w, list := s.writer, s.list;
       s' == s.(list := list.(next := list.next[(w.prev[w.i], w.i) := Some(w.key)], keys := list.keys[w.i := list.keys[w.i] + {w.key}]),
                writer := if w.i + 1 < w.height then w.(i := w.i + 1, own := false) else Idle)
  }

  ghost predicate DoStart(s: State, s': State, i: nat) {
    && i < |s.readers| && s.readers[i].Unstarted? && s.list.maxHeight > 0
    && s' == s.(readers := s.readers[i := At(s.readers[i].target, Head, s.list.maxHeight - 1)])
  }

  ghost predicate DoLoad(s: State, s': State, i: nat) {
    && i < |s.readers| && s.readers[i].At? && (s.readers[i].x, s.readers[i].level) in s.list.next
    && s' == s.(readers := s.readers[i := Look(s.readers[i], s.list.next[(s.readers[i].x, s.readers[i].level)])])
  }

  ghost predicate Next(s: State, step: Step, s': State) {
    match step
    case Begin(key, height, prev) => DoBegin(s, s', key, height, prev)
    case SetOwn => DoSetOwn(s, s')
    case Publish => DoPublish(s, s')
    case Start(i) => DoStart(s, s', i)
    case Load(i) => DoLoad(s, s', i)
  }

  // ---------------------------------------------------------------- each step keeps the list in order

  lemma BeginKeepsInv(s: State, s': State, key: Key, height: nat, prev: seq<Ref>)
    requires Inv(s) && DoBegin(s, s', key, height, prev)
    ensures Inv(s')
  {
    NotInAnyLevel(s.list, key);
  }

  lemma {:induction false} NotAbove(list: List, key: Key, l: nat)
    requires ListOk(list) && key !in list.keys[0] && l < MAX_HEIGHT
    ensures key !in list.keys[l]
  {
    if l > 0 { NotAbove(list, key, l - 1); }
  }

  lemma NotInAnyLevel(list: List, key: Key)
    requires ListOk(list) && key !in list.keys[0]
    ensures forall l :: 0 <= l < MAX_HEIGHT ==> key !in list.keys[l]
  {
    forall l | 0 <= l < MAX_HEIGHT ensures key !in list.keys[l] { NotAbove(list, key, l); }
  }

  lemma SetOwnKeepsInv(s: State, s': State)
    requires Inv(s) && DoSetOwn(s, s')
    ensures Inv(s')
  {
    var w := s.writer;
    forall l | 0 <= l < MAX_HEIGHT ensures LevelOk(s'.list.next, l, s'.list.keys[l]) {
      assert LevelOk(s.list.next, l, s.list.keys[l]);
      assert l == w.i ==> w.key !in s.list.keys[l];
    }
  }

  /** Linking a key after its predecessor keeps the level in order. */
  lemma PublishedLevel(next: map<(Ref, nat), Option<Key>>, l: nat, keys: set<Key>, p: Ref, key: Key)
    requires LevelOk(next, l, keys) && Linked(keys, p) && After(p, key) && key !in keys
    requires forall k :: k in keys && Before(k, key) ==> p.Node? && AtMost(k, p.key)
    requires (Node(key), l) in next && next[(Node(key), l)] == next[(p, l)]
    ensures LevelOk(next[(p, l) := Some(key)], l, keys + {key})
  {
    var next', keys' := next[(p, l) := Some(key)], keys + {key};
    forall x | Linked(keys', x) ensures (x, l) in next' && IsNext(keys', x, next'[(x, l)]) {
      assert IsNext(keys, p, next[(p, l)]);
      if x != p && x != Node(key) {
        assert IsNext(keys, x, next[(x, l)]);
      }
    }
  }

  lemma OtherLevel(next: map<(Ref, nat), Option<Key>>, l: nat, m: nat, keys: set<Key>, p: Ref, n: Option<Key>)
    requires LevelOk(next, l, keys) && l != m
    ensures LevelOk(next[(p, m) := n], l, keys)
  {
  }

  lemma PublishKeepsList(s: State, s': State)
    requires ListOk(s.list) && WriterOk(s.list, s.writer) && DoPublish(s, s')
    ensures ListOk(s'.list)
  {
    var w, list := s.writer, s.list;
    forall l | 0 <= l < MAX_HEIGHT ensures LevelOk(s'.list.next, l, s'.list.keys[l]) {
      assert LevelOk(list.next, l, list.keys[l]);
      if l == w.i {
        PublishedLevel(list.next, l, list.keys[l], w.prev[l], w.key);
      } else {
        OtherLevel(list.next, l, w.i, list.keys[l], w.prev[w.i], Some(w.key));
      }
    }
  }

  lemma PublishKeepsInv(s: State, s': State)
    requires Inv(s) && DoPublish(s, s')
    ensures Inv(s')
  {
    PublishKeepsList(s, s');
    assert forall l :: 0 <= l < MAX_HEIGHT ==> s.list.keys[l] <= s'.list.keys[l];
  }

  lemma StepKeepsInv(s: State, step: Step, s': State)
    requires Inv(s) && Next(s, step, s')
    ensures Inv(s')
  {
    match step
    case Begin(key, height, prev) => BeginKeepsInv(s, s', key, height, prev);
    case SetOwn => SetOwnKeepsInv(s, s');
    case Publish => PublishKeepsInv(s, s');
    case Start(_) =>
    case Load(i) => LookKeepsSearch(s.list, s.readers[i]);
  }

  // ---------------------------------------------------------------- the insert loop

  /** The list as an object, changed in place by one writer. */
  class Lists {
    var list: List

    constructor ()
      ensures ListOk(list) && forall l :: 0 <= l < MAX_HEIGHT ==> list.keys[l] == {}
    {
      list := EmptyList();
    }

    /** Find the predecessors, raise the height, then link the new node level by level. The list is in order after every
        single store, so a reader never sees it otherwise. `height` is the drawn height. */
    method Insert(key: Key, height: nat)
      requires ListOk(list) && key !in list.keys[0] && 1 <= height <= MAX_HEIGHT
      modifies this
      ensures ListOk(list) && list.maxHeight == Max(old(list.maxHeight), height)
      ensures forall l :: 0 <= l < MAX_HEIGHT ==> list.keys[l] == old(list.keys[l]) + if l < height then {key} else {}
    {
      var _, _, prev := FindGreaterOrEqual(list, Some(key));
      if height > list.maxHeight {
        prev := prev + seq(height - list.maxHeight, _ => Head);
        list := list.(maxHeight := height);
      }
      prev := prev[..height];
      ghost var start := list;
      NotInAnyLevel(list, key);
      assert WriterOk(list, Inserting(key, height, prev, 0, false));
      for i := 0 to height
        invariant ListOk(list) && list.maxHeight == start.maxHeight
        invariant i < height ==> WriterOk(list, Inserting(key, height, prev, i, false))
        invariant forall l :: 0 <= l < MAX_HEIGHT ==> list.keys[l] == start.keys[l] + if l < i then {key} else {}
      {
        LinkLevel(key, height, prev, i);
      }
    }

    /** The two stores that link the new node at level `i`. */
    method LinkLevel(key: Key, height: nat, prev: seq<Ref>, i: nat)
      requires i < height && ListOk(list) && WriterOk(list, Inserting(key, height, prev, i, false))
      modifies this
      ensures ListOk(list) && list.maxHeight == old(list.maxHeight)
      ensures i + 1 < height ==> WriterOk(list, Inserting(key, height, prev, i + 1, false))
      ensures list.keys == old(list.keys)[i := old(list.keys[i]) + {key}]
    {
      ghost var s := State(list, Inserting(key, height, prev, i, false), []);
      assert LevelOk(list.next, i, list.keys[i]) && Precedes(list, i, prev[i], key);
      list := list.(next := list.next[(Node(key), i) := list.next[(prev[i], i)]]);
      ghost var s1 := State(list, Inserting(key, height, prev, i, true), []);
      SetOwnKeepsInv(s, s1);
      list := list.(next := list.next[(prev[i], i) := Some(key)], keys := list.keys[i := list.keys[i] + {key}]);
      PublishKeepsInv(s1, State(list, if i + 1 < height then Inserting(key, height, prev, i + 1, false) else Idle, []));
    }

    method Contains(key: Key) returns (found: bool)
      requires ListOk(list)
      ensures found <==> key in list.keys[0]
    {
      var _, next, _ := FindGreaterOrEqual(list, Some(key));
      found := next == Some(key);
    }
  }

  /** Only the head, all its links null. */
  function EmptyList(): (list: List)
    ensures ListOk(list) && forall l :: 0 <= l < MAX_HEIGHT ==> list.keys[l] == {}
  {
    var next: map<(Ref, nat), Option<Key>> := map l: nat | l < MAX_HEIGHT :: (Head, l) := None;
    var list := List(next, 1, seq(MAX_HEIGHT, _ => {}));
    assert forall l :: 0 <= l < MAX_HEIGHT ==> LevelOk(list.next, l, list.keys[l]) by {
      forall l | 0 <= l < MAX_HEIGHT ensures LevelOk(list.next, l, list.keys[l]) {
        assert (Head, l) in list.next;
      }
    }
    list
  }

  // ---------------------------------------------------------------- runs

  ghost predicate Init(s: State) {
    s.list == EmptyList() && s.writer.Idle? && forall i :: 0 <= i < |s.readers| ==> s.readers[i].Unstarted?
  }

  ghost predicate StepAt(states: seq<State>, steps: seq<Step>, j: nat) {
    j + 1 < |states| && j < |steps| && Next(states[j], steps[j], states[j + 1])
  }

  ghost predicate IsRun(states: seq<State>, steps: seq<Step>) {
    |states| == |steps| + 1 && Init(states[0]) && forall j :: 0 <= j < |steps| ==> StepAt(states, steps, j)
  }

  /** In every reachable state every level is in order and is a sublist of the level below. */
  lemma {:induction false} RunKeepsInv(states: seq<State>, steps: seq<Step>, j: nat)
    requires IsRun(states, steps) && j < |states|
    ensures Inv(states[j])
  {
    if j > 0 {
      RunKeepsInv(states, steps, j - 1);
      assert StepAt(states, steps, j - 1);
      StepKeepsInv(states[j - 1], steps[j - 1], states[j]);
    }
  }

  lemma {:induction false} KeysStay(states: seq<State>, steps: seq<Step>, a: nat, j: nat)
    requires IsRun(states, steps) && a <= j < |states|
    ensures |states[a].list.keys| == |states[j].list.keys| == MAX_HEIGHT && states[a].list.keys[0] <= states[j].list.keys[0]
  {
    RunKeepsInv(states, steps, j);
    if a < j {
      KeysStay(states, steps, a, j - 1);
      assert StepAt(states, steps, j - 1);
      StepKeepsKeys(states[j - 1], steps[j - 1], states[j]);
    }
  }

  lemma StepKeepsKeys(s: State, step: Step, s': State)
    requires |s.list.keys| == |s'.list.keys| == MAX_HEIGHT && Next(s, step, s')
    ensures s.list.keys[0] <= s'.list.keys[0]
  {
  }

  /** A search that finishes gives exactly the neighbours of its target among the keys linked at that moment, however it
      interleaved with inserts; in particular it never goes past a key that was there at any earlier moment. */
  lemma SearchIsExact(states: seq<State>, steps: seq<Step>, a: nat, j: nat, i: nat)
    requires IsRun(states, steps) && a <= j < |steps| && steps[j] == Load(i)
    requires i < |states[j + 1].readers| && states[j + 1].readers[i].Found?
    ensures var r := states[j + 1].readers[i];
            && |states[a].list.keys| == |states[j].list.keys| == MAX_HEIGHT
            && Neighbours(states[j].list.keys[0], r.target, r.before, r.next)
            && (forall k :: k in states[a].list.keys[0] && !Passes(r.target, k) ==> r.next.Some? && AtMost(r.next.value, k))
            && (forall k :: k in states[a].list.keys[0] && Passes(r.target, k) ==> r.before.Node? && AtMost(k, r.before.key))
  {
    RunKeepsInv(states, steps, j);
    assert StepAt(states, steps, j);
    LookKeepsSearch(states[j].list, states[j].readers[i]);
    KeysStay(states, steps, a, j);
  }
}
