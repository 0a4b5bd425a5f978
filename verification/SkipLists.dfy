/** The memtable's skip list: links published one at a time while readers search concurrently. */
module SkipLists {
  import opened Traces
  import opened Wrappers

  // Only the order of keys matters.
  type Key = real

  const MAX_HEIGHT: nat := 12

  /** A node: the head, or the node of a key. */
  datatype Ptr = Head | At(key: Key)

  predicate After(p: Ptr, k: Key) {
    p.Head? || p.key < k
  }

  /** The pointers of each level; `linked` records which keys each level's list holds. */
  datatype List = List(maxHeight: nat, next: seq<map<Ptr, Option<Key>>>, linked: seq<set<Key>>)

  // -------------------------------------------------------------- one level

  predicate OnLevel(keys: set<Key>, p: Ptr) {
    p.Head? || p.key in keys
  }

  /** `n` is the first key after `p`, if there is one. */
  ghost predicate IsNext(keys: set<Key>, p: Ptr, n: Option<Key>) {
    && (n.Some? ==> n.value in keys && After(p, n.value))
    && forall k :: k in keys && After(p, k) ==> n.Some? && n.value <= k
  }

  /** Following the pointers from the head visits exactly `keys`, in order. */
  ghost predicate LevelOk(keys: set<Key>, next: map<Ptr, Option<Key>>) {
    forall p :: OnLevel(keys, p) ==> p in next && IsNext(keys, p, next[p])
  }

  /** `p` is where `k` belongs: the last node before it. */
  ghost predicate IsPrev(keys: set<Key>, next: map<Ptr, Option<Key>>, p: Ptr, k: Key) {
    OnLevel(keys, p) && After(p, k) && p in next && (next[p].None? || k < next[p].value)
  }

  lemma LinkOwnKeeps(keys: set<Key>, next: map<Ptr, Option<Key>>, k: Key, n: Option<Key>)
    requires LevelOk(keys, next) && k !in keys
    ensures LevelOk(keys, next[At(k) := n])
  {
  }

  lemma PublishKeeps(keys: set<Key>, next: map<Ptr, Option<Key>>, p: Ptr, k: Key)
    requires LevelOk(keys, next) && IsPrev(keys, next, p, k) && k !in keys
    requires At(k) in next && next[At(k)] == next[p]
    ensures LevelOk(keys + {k}, next[p := Some(k)])
  {
    var next2 := next[p := Some(k)];
    forall q | OnLevel(keys + {k}, q)
      ensures q in next2 && IsNext(keys + {k}, q, next2[q])
    {
      if q != At(k) {
        assert OnLevel(keys, q) && IsNext(keys, q, next[q]);
      }
      assert IsNext(keys, p, next[p]);
    }
  }

  // -------------------------------------------------------------- all levels

  /** Every level is a sorted list, each a part of the one below it; unused levels are empty. */
  ghost predicate ListOk(s: List) {
    && |s.next| == |s.linked| == MAX_HEIGHT && 1 <= s.maxHeight <= MAX_HEIGHT
    && (forall l :: 0 <= l < MAX_HEIGHT ==> LevelOk(s.linked[l], s.next[l]))
    && (forall l :: 0 <= l < MAX_HEIGHT - 1 ==> Below(s, l))
    && forall l :: s.maxHeight <= l < MAX_HEIGHT ==> s.linked[l] == {}
  }

  ghost predicate Below(s: List, l: nat)
    requires l + 1 < |s.linked|
  {
    s.linked[l + 1] <= s.linked[l]
  }

  /** What the list holds. */
  function Contents(s: List): set<Key>
    requires |s.linked| > 0
  {
    s.linked[0]
  }

  function Empty(): List {
    List(1, seq(MAX_HEIGHT, i => map[Head := None]), seq(MAX_HEIGHT, i => {}))
  }

  lemma EmptyOk()
    ensures ListOk(Empty()) && Contents(Empty()) == {}
  {
  }

  lemma {:induction false} LevelsNest(s: List, l: nat, m: nat)
    requires ListOk(s) && l <= m < MAX_HEIGHT
    ensures s.linked[m] <= s.linked[l]
    decreases m
  {
    if l < m {
      LevelsNest(s, l, m - 1);
      assert Below(s, m - 1);
    }
  }

  // --------------------------------------------------------------- the writer

  /**
   * An insertion under way: `level` is the next level to publish, `own` whether the new node's own
   * link there is set.
   */
  datatype Writer = Idle | Inserting(key: Key, height: nat, prev: seq<Ptr>, level: nat, own: bool)

  /** The node is linked below `level` and nowhere else, and its places from `level` up are still right. */
  ghost predicate WriterOk(s: List, w: Writer) {
    w.Inserting? ==>
      && ListOk(s) && w.level < w.height <= s.maxHeight && |w.prev| >= w.height
      && (forall l :: 0 <= l < w.level ==> w.key in s.linked[l])
      && (forall l :: w.level <= l < MAX_HEIGHT ==> w.key !in s.linked[l])
      && (forall l :: w.level <= l < w.height ==> IsPrev(s.linked[l], s.next[l], w.prev[l], w.key))
      && (w.own ==> At(w.key) in s.next[w.level] && s.next[w.level][At(w.key)] == s.next[w.level][w.prev[w.level]])
  }

  function Max(a: nat, b: nat): nat {
    if a < b then b else a
  }

  ghost predicate StartInsert(s: List, key: Key, height: nat, prev: seq<Ptr>, s2: List, w2: Writer) {
    && |s.next| == |s.linked| == MAX_HEIGHT && key !in Contents(s) && 1 <= height <= MAX_HEIGHT && |prev| == MAX_HEIGHT
    && (forall l :: 0 <= l < height ==>
          if l < s.maxHeight then IsPrev(s.linked[l], s.next[l], prev[l], key) else prev[l] == Head)
    && s2 == s.(maxHeight := Max(s.maxHeight, height)) && w2 == Inserting(key, height, prev, 0, false)
  }

  /** The links the writer's next store touches exist. */
  predicate CanStore(s: List, w: Writer) {
    w.Inserting? && w.level < |s.next| == |s.linked| && w.level < |w.prev| && w.prev[w.level] in s.next[w.level]
  }

  /** The new node's own link at the level; no reader can reach the node there yet. */
  function SetOwn(s: List, w: Writer): List
    requires CanStore(s, w)
  {
    s.(next := s.next[w.level := s.next[w.level][At(w.key) := s.next[w.level][w.prev[w.level]]]])
  }

  /** The release store that makes the node visible at the level. */
  function Publish(s: List, w: Writer): List
    requires CanStore(s, w)
  {
    s.(next := s.next[w.level := s.next[w.level][w.prev[w.level] := Some(w.key)]],
       linked := s.linked[w.level := s.linked[w.level] + {w.key}])
  }

  function AfterPublish(w: Writer): Writer
    requires w.Inserting?
  {
    if w.level + 1 == w.height then Idle else w.(level := w.level + 1, own := false)
  }

  lemma StartKeeps(s: List, key: Key, height: nat, prev: seq<Ptr>, s2: List, w2: Writer)
    requires ListOk(s) && StartInsert(s, key, height, prev, s2, w2)
    ensures ListOk(s2) && WriterOk(s2, w2) && s2.linked == s.linked
  {
    forall l | 0 <= l < MAX_HEIGHT
      ensures key !in s.linked[l]
    {
      LevelsNest(s, 0, l);
    }
    forall l | s.maxHeight <= l < height
      ensures IsPrev(s2.linked[l], s2.next[l], Head, key)
    {
      assert LevelOk(s.linked[l], s.next[l]) && OnLevel(s.linked[l], Head);
      assert IsNext(s.linked[l], Head, s.next[l][Head]);
    }
    assert forall l :: 0 <= l < MAX_HEIGHT - 1 ==> Below(s, l) ==> Below(s2, l);
  }

  lemma SetOwnKeeps(s: List, w: Writer)
    requires ListOk(s) && w.Inserting? && WriterOk(s, w)
    ensures CanStore(s, w) && ListOk(SetOwn(s, w)) && WriterOk(SetOwn(s, w), w.(own := true))
            && SetOwn(s, w).linked == s.linked
  {
    var s2 := SetOwn(s, w);
    LinkOwnKeeps(s.linked[w.level], s.next[w.level], w.key, s.next[w.level][w.prev[w.level]]);
    assert forall l :: 0 <= l < MAX_HEIGHT - 1 ==> Below(s, l) ==> Below(s2, l);
    forall l | w.level <= l < w.height
      ensures IsPrev(s2.linked[l], s2.next[l], w.prev[l], w.key)
    {
      assert IsPrev(s.linked[l], s.next[l], w.prev[l], w.key);
    }
  }

  /** Publishing at one level keeps every level sorted and nested, and adds the key to that level alone. */
  lemma PublishStepKeeps(s: List, w: Writer)
    requires ListOk(s) && w.Inserting? && w.own && WriterOk(s, w)
    ensures CanStore(s, w) && ListOk(Publish(s, w)) && WriterOk(Publish(s, w), AfterPublish(w))
    ensures forall l :: 0 <= l < MAX_HEIGHT ==>
              Publish(s, w).linked[l] == s.linked[l] + if l == w.level then {w.key} else {}
  {
    var s2 := Publish(s, w);
    PublishKeeps(s.linked[w.level], s.next[w.level], w.prev[w.level], w.key);
    forall l | 0 <= l < MAX_HEIGHT - 1
      ensures Below(s2, l)
    {
      assert Below(s, l);
    }
    forall l | w.level + 1 <= l < w.height
      ensures IsPrev(s2.linked[l], s2.next[l], w.prev[l], w.key)
    {
      assert IsPrev(s.linked[l], s.next[l], w.prev[l], w.key);
    }
  }

  // -------------------------------------------------------------- the readers

  /**
   * A search under way, or finished with the node it stopped at and the link it last loaded.
   * A target of None is after every key: the search for the last node.
   */
  datatype Reader =
    | Searching(target: Option<Key>, x: Ptr, level: nat)
    | Found(target: Option<Key>, x: Ptr, next: Option<Key>)

  predicate BeforeTarget(k: Key, target: Option<Key>) {
    target.None? || k < target.value
  }

  /** The node the search stands on is before the target and linked at the level it searches. */
  ghost predicate ReaderOk(s: List, r: Reader)
    requires ListOk(s)
  {
    match r
    case Searching(target, x, level) => level < MAX_HEIGHT && OnLevel(s.linked[level], x)
        && (x.At? ==> BeforeTarget(x.key, target))
    case Found(target, x, _) => OnLevel(s.linked[0], x) && (x.At? ==> BeforeTarget(x.key, target))
  }

  /** One load of a link, and what the search does with it. */
  function Load(s: List, r: Reader): Reader
    requires r.Searching? && r.level < |s.next| && r.x in s.next[r.level]
  {
    var next := s.next[r.level][r.x];
    if next.Some? && BeforeTarget(next.value, r.target) then Searching(r.target, At(next.value), r.level)
    else if r.level == 0 then Found(r.target, r.x, next)
    else Searching(r.target, r.x, r.level - 1)
  }

  lemma LoadKeeps(s: List, r: Reader)
    requires ListOk(s) && r.Searching? && ReaderOk(s, r)
    ensures r.x in s.next[r.level] && ReaderOk(s, Load(s, r)) && Load(s, r).target == r.target
  {
    assert LevelOk(s.linked[r.level], s.next[r.level]);
    assert IsNext(s.linked[r.level], r.x, s.next[r.level][r.x]);
    if r.level > 0 {
      assert Below(s, r.level - 1);
    }
  }

  /**
   * The answer of a search: `next` is the first key at or after the target, `x` the last node
   * before it, among `keys`.
   */
  ghost predicate Exact(keys: set<Key>, target: Option<Key>, x: Ptr, next: Option<Key>) {
    && OnLevel(keys, x) && (x.At? ==> BeforeTarget(x.key, target))
    && (forall k :: k in keys && BeforeTarget(k, target) ==> x.At? && k <= x.key)
    && (next.Some? ==> next.value in keys && !BeforeTarget(next.value, target))
    && forall k :: k in keys && !BeforeTarget(k, target) ==> next.Some? && next.value <= k
  }

  /** A search that finishes is exact for the list as it is at its last load. */
  lemma FoundIsExact(s: List, r: Reader)
    requires ListOk(s) && r.Searching? && ReaderOk(s, r) && r.x in s.next[r.level] && Load(s, r).Found?
    ensures Exact(Contents(s), r.target, Load(s, r).x, Load(s, r).next)
  {
    assert LevelOk(s.linked[0], s.next[0]);
    assert IsNext(s.linked[0], r.x, s.next[0][r.x]);
  }

  /** Readers are not disturbed by lists that only grow. */
  lemma GrowthKeepsReader(s: List, s2: List, r: Reader)
    requires ListOk(s) && ListOk(s2) && ReaderOk(s, r)
    requires forall l :: 0 <= l < MAX_HEIGHT ==> s.linked[l] <= s2.linked[l]
    ensures ReaderOk(s2, r)
  {
  }

  // -------------------------------------------- one writer and many readers

  datatype System = System(list: List, writer: Writer, readers: map<nat, Reader>)

  datatype Event =
    | StartInserting(key: Key, height: nat, prev: seq<Ptr>)
    | LinkOwn
    | PublishLevel
    | BeginSearch(reader: nat, target: Option<Key>, level: nat)
    | LoadLink(loader: nat)

  ghost predicate Next(a: System, e: Event, b: System) {
    match e
    case StartInserting(key, height, prev) =>
      a.writer.Idle? && StartInsert(a.list, key, height, prev, b.list, b.writer) && b.readers == a.readers
    case LinkOwn =>
      && CanStore(a.list, a.writer) && !a.writer.own
      && b == a.(list := SetOwn(a.list, a.writer), writer := a.writer.(own := true))
    case PublishLevel =>
      && CanStore(a.list, a.writer) && a.writer.own
      && b == a.(list := Publish(a.list, a.writer), writer := AfterPublish(a.writer))
    case BeginSearch(i, target, level) =>
      // The height a reader sees may be stale, so it may start at any level.
      level < MAX_HEIGHT && b == a.(readers := a.readers[i := Searching(target, Head, level)])
    case LoadLink(i) =>
      && i in a.readers && a.readers[i].Searching? && a.readers[i].level < |a.list.next|
      && a.readers[i].x in a.list.next[a.readers[i].level]
      && b == a.(readers := a.readers[i := Load(a.list, a.readers[i])])
  }

  ghost predicate SystemOk(a: System) {
    ListOk(a.list) && WriterOk(a.list, a.writer) && forall i :: i in a.readers ==> ReaderOk(a.list, a.readers[i])
  }

  ghost predicate Grows(s: List, s2: List) {
    |s.linked| == |s2.linked| == MAX_HEIGHT && forall l :: 0 <= l < MAX_HEIGHT ==> s.linked[l] <= s2.linked[l]
  }

  lemma WriterStepKeeps(a: System, e: Event, b: System)
    requires SystemOk(a) && Next(a, e, b) && (e.StartInserting? || e.LinkOwn? || e.PublishLevel?)
    ensures ListOk(b.list) && WriterOk(b.list, b.writer) && Grows(a.list, b.list) && b.readers == a.readers
  {
    match e
    case StartInserting(key, height, prev) => StartKeeps(a.list, key, height, prev, b.list, b.writer);
    case LinkOwn => SetOwnKeeps(a.list, a.writer);
    case PublishLevel => PublishStepKeeps(a.list, a.writer);
  }

  /** Every step, of the writer or of any reader, keeps the lists sorted and nested and every search on course. */
  lemma NextKeepsOk(a: System, e: Event, b: System)
    requires SystemOk(a) && Next(a, e, b)
    ensures SystemOk(b) && Grows(a.list, b.list)
  {
    if e.BeginSearch? {
      forall i | i in b.readers
        ensures ReaderOk(b.list, b.readers[i])
      {
      }
    } else if e.LoadLink? {
      LoadKeeps(a.list, a.readers[e.loader]);
    } else {
      WriterStepKeeps(a, e, b);
      forall i | i in b.readers
        ensures ReaderOk(b.list, b.readers[i])
      {
        GrowthKeepsReader(a.list, b.list, a.readers[i]);
      }
    }
  }

  /** Only the first publication of an insertion changes the contents: it adds the key. */
  lemma ContentsChange(a: System, e: Event, b: System)
    requires SystemOk(a) && Next(a, e, b)
    ensures Contents(b.list) == Contents(a.list) + if e.PublishLevel? && a.writer.level == 0 then {a.writer.key} else {}
  {
    match e
    case StartInserting(key, height, prev) => StartKeeps(a.list, key, height, prev, b.list, b.writer);
    case LinkOwn => SetOwnKeeps(a.list, a.writer);
    case PublishLevel => PublishStepKeeps(a.list, a.writer);
    case BeginSearch(_, _, _) =>
    case LoadLink(_) =>
  }

  /** A writer that is idle again has linked its key on every level up to its height. */
  lemma InsertionCompletes(a: System, b: System)
    requires SystemOk(a) && Next(a, PublishLevel, b) && b.writer.Idle?
    ensures forall l :: 0 <= l < a.writer.height ==> a.writer.key in b.list.linked[l]
    ensures a.writer.key in Contents(b.list)
  {
    PublishStepKeeps(a.list, a.writer);
  }

  ghost predicate IsRun(states: seq<System>, events: seq<Event>) {
    Trace(states, events, Next) && states[0] == System(Empty(), Idle, map[])
  }

  lemma OkIsKept()
    ensures forall a, e, b :: SystemOk(a) && Next(a, e, b) ==> SystemOk(b)
  {
    forall a, e, b | SystemOk(a) && Next(a, e, b)
      ensures SystemOk(b)
    {
      NextKeepsOk(a, e, b);
    }
  }

  lemma RunIsOk(states: seq<System>, events: seq<Event>, n: nat)
    requires IsRun(states, events) && n <= |events|
    ensures SystemOk(states[n])
  {
    EmptyOk();
    OkIsKept();
    Induct(states, events, Next, SystemOk, n);
  }

  lemma {:induction false} RunGrows(states: seq<System>, events: seq<Event>, m: nat, n: nat)
    requires IsRun(states, events) && m <= n <= |events|
    ensures SystemOk(states[m]) && SystemOk(states[n]) && Contents(states[m].list) <= Contents(states[n].list)
    decreases n
  {
    RunIsOk(states, events, m);
    RunIsOk(states, events, n);
    if m < n {
      RunGrows(states, events, m, n - 1);
      assert StepAt(states, events, Next, n - 1);
      NextKeepsOk(states[n - 1], events[n - 1], states[n]);
    }
  }

  /**
   * Under any interleaving with insertions, a search that finishes at step `n` gives the exact
   * answer for the keys linked at that moment: all keys there when it began, or at any earlier
   * step `m`, are among them, and none has left by any later step `p`.
   */
  lemma SearchIsExact(states: seq<System>, events: seq<Event>, m: nat, n: nat, p: nat)
    requires IsRun(states, events) && m <= n < p <= |events| && events[n].LoadLink?
    requires events[n].loader in states[n + 1].readers && states[n + 1].readers[events[n].loader].Found?
    ensures SystemOk(states[m]) && SystemOk(states[n]) && SystemOk(states[p])
    ensures var r := states[n + 1].readers[events[n].loader]; Exact(Contents(states[n].list), r.target, r.x, r.next)
    ensures Contents(states[m].list) <= Contents(states[n].list) <= Contents(states[p].list)
  {
    RunGrows(states, events, m, n);
    RunGrows(states, events, n, p);
    assert StepAt(states, events, Next, n);
    FoundIsExact(states[n].list, states[n].readers[events[n].loader]);
  }

  // ------------------------------------------------------------ the code

  ghost function Beyond(keys: set<Key>, p: Ptr): set<Key> {
    set k | k in keys && After(p, k)
  }

  lemma Distance(keys: set<Key>, p: Ptr, k: Key)
    requires k in keys && After(p, k)
    ensures Beyond(keys, At(k)) < Beyond(keys, p)
  {
    assert k in Beyond(keys, p) && k !in Beyond(keys, At(k));
    assert forall x :: x in Beyond(keys, At(k)) ==> x in Beyond(keys, p);
  }

  class SkipList {
    var maxHeight: nat
    var next: seq<map<Ptr, Option<Key>>>
    ghost var linked: seq<set<Key>>

    ghost function View(): List
      reads this
    {
      List(maxHeight, next, linked)
    }

    constructor ()
      ensures ListOk(View()) && Contents(View()) == {}
    {
      maxHeight, next, linked := 1, seq(MAX_HEIGHT, i => map[Head := None]), seq(MAX_HEIGHT, i => {});
    }

    /** The search loop shared by the three searches; records where it went down each level. */
    method Search(target: Option<Key>) returns (x: Ptr, found: Option<Key>, prev: seq<Ptr>)
      requires ListOk(View())
      ensures Exact(Contents(View()), target, x, found)
      ensures |prev| == MAX_HEIGHT
      ensures target.Some? ==> forall l :: 0 <= l < maxHeight ==>
                LastBefore(linked[l], next[l], prev[l], target.value)
    {
      ghost var s := View();
      x := Head;
      var level := maxHeight - 1;
      prev := seq(MAX_HEIGHT, i => Head);
      while true
        invariant 0 <= level < maxHeight && |prev| == MAX_HEIGHT && ReaderOk(s, Searching(target, x, level))
        invariant target.Some? ==> forall l :: level < l < maxHeight ==>
                    LastBefore(linked[l], next[l], prev[l], target.value)
        decreases level, Beyond(linked[level], x)
      {
        LoadKeeps(s, Searching(target, x, level));
        found := next[level][x];
        assert IsNext(linked[level], x, found);
        if found.Some? && BeforeTarget(found.value, target) {
          Distance(linked[level], x, found.value);
          x := At(found.value);
        } else {
          prev := prev[level := x];
          if level == 0 {
            FoundIsExact(s, Searching(target, x, 0));
            return;
          }
          level := level - 1;
        }
      }
    }

    /** The first key at or after `key`. */
    method FindGreaterOrEqual(key: Key) returns (found: Option<Key>)
      requires ListOk(View())
      ensures found.Some? ==> found.value in Contents(View()) && found.value >= key
      ensures forall k :: k in Contents(View()) && k >= key ==> found.Some? && found.value <= k
    {
      var x, prev;
      x, found, prev := Search(Some(key));
    }

    /** The last node before `key`, the head if there is none; an iterator steps back with it. */
    method FindLessThan(key: Key) returns (x: Ptr)
      requires ListOk(View())
      ensures OnLevel(Contents(View()), x) && After(x, key)
      ensures forall k :: k in Contents(View()) && k < key ==> x.At? && k <= x.key
    {
      var found, prev;
      x, found, prev := Search(Some(key));
    }

    /** The last node of the list, the head if the list is empty. */
    method FindLast() returns (x: Ptr)
      requires ListOk(View())
      ensures OnLevel(Contents(View()), x)
      ensures forall k :: k in Contents(View()) ==> x.At? && k <= x.key
    {
      var found, prev;
      x, found, prev := Search(None);
    }

    method Contains(key: Key) returns (r: bool)
      requires ListOk(View())
      ensures r <==> key in Contents(View())
    {
      var found := FindGreaterOrEqual(key);
      r := found.Some? && found.value == key;
    }

    /** Where a new key belongs on each level; levels not in use yet start at the head. */
    method FindPlace(key: Key, height: nat) returns (prev: seq<Ptr>)
      requires ListOk(View()) && key !in Contents(View()) && 1 <= height <= MAX_HEIGHT
      ensures |prev| == MAX_HEIGHT
      ensures forall l :: 0 <= l < height ==>
                if l < maxHeight then IsPrev(linked[l], next[l], prev[l], key) else prev[l] == Head
    {
      var x, found;
      x, found, prev := Search(Some(key));
      forall l | 0 <= l < maxHeight
        ensures IsPrev(linked[l], next[l], prev[l], key)
      {
        LevelsNest(View(), 0, l);
        LastBeforeIsPrev(linked[l], next[l], prev[l], key);
      }
      if height > maxHeight {
        for i := maxHeight to height
          invariant |prev| == MAX_HEIGHT && forall l :: maxHeight <= l < i ==> prev[l] == Head
          invariant forall l :: 0 <= l < maxHeight ==> IsPrev(linked[l], next[l], prev[l], key)
        {
          prev := prev[i := Head];
        }
      }
    }

    /** Sets the new node's own link at one level, then publishes the node there. */
    method LinkLevel(key: Key, prev: seq<Ptr>, i: nat, ghost w: Writer)
      requires ListOk(View()) && WriterOk(View(), w) && w.Inserting? && !w.own
      requires w.key == key && w.prev == prev && w.level == i
      modifies `next, `linked
      ensures ListOk(View()) && WriterOk(View(), AfterPublish(w))
      ensures linked == old(linked)[i := old(linked)[i] + {key}]
    {
      SetOwnKeeps(View(), w);
      next := next[i := next[i][At(key) := next[i][prev[i]]]];
      PublishStepKeeps(View(), w.(own := true));
      next := next[i := next[i][prev[i] := Some(key)]];
      linked := linked[i := linked[i] + {key}];
    }

    /** Links a new node of the given height, level by level from the bottom. */
    method Insert(key: Key, height: nat)
      requires ListOk(View()) && key !in Contents(View()) && 1 <= height <= MAX_HEIGHT
      modifies this
      ensures ListOk(View()) && Contents(View()) == old(Contents(View())) + {key}
      ensures forall l :: 0 <= l < MAX_HEIGHT ==> linked[l] == old(linked)[l] + if l < height then {key} else {}
    {
      var prev := FindPlace(key, height);
      ghost var s := View();
      if height > maxHeight {
        maxHeight := height;
      }
      ghost var w := Inserting(key, height, prev, 0, false);
      StartKeeps(s, key, height, prev, View(), w);
      var i := 0;
      while i < height
        invariant i <= height && ListOk(View()) && WriterOk(View(), w)
        invariant i < height ==> w == Inserting(key, height, prev, i, false)
        invariant forall l :: 0 <= l < MAX_HEIGHT ==> linked[l] == old(linked)[l] + if l < i then {key} else {}
      {
        LinkLevel(key, prev, i, w);
        w := AfterPublish(w);
        i := i + 1;
      }
    }
  }

  /** `p` is the last node of the level before `k`; `k` itself may follow. */
  ghost predicate LastBefore(keys: set<Key>, next: map<Ptr, Option<Key>>, p: Ptr, k: Key) {
    OnLevel(keys, p) && After(p, k) && p in next && (next[p].None? || k <= next[p].value)
  }

  lemma LastBeforeIsPrev(keys: set<Key>, next: map<Ptr, Option<Key>>, p: Ptr, k: Key)
    requires LevelOk(keys, next) && LastBefore(keys, next, p, k) && k !in keys
    ensures IsPrev(keys, next, p, k)
  {
    assert IsNext(keys, p, next[p]);
  }
}
