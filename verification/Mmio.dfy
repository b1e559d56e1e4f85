/** The index of memory-mapped I/O ranges: ordered trees searched by overlap, and the per-vcpu
    hint in front of them (src/lib/mem.c).

    The red-black tree is an ordered binary tree of any shape: what a search finds is shown to
    depend on the ranges it holds only.  Accesses take the lock for reading, changes for
    writing, so each operation is one step. */
module Mmio {
  const U64 := 0x1_0000_0000_0000_0000

  datatype Option<T> = None | Some(value: T)

  /** struct mmio_rb_range; `entry` tells allocated entries apart, and `name` and `immutable`
      are the registration's name and MEM_F_IMMUTABLE. */
  datatype Range = Range(entry: nat, base: nat, end: nat, name: nat, immutable: bool)

  datatype Tree = Leaf | Node(left: Tree, range: Range, right: Tree)

  function Ranges(t: Tree): set<Range> {
    match t
    case Leaf => {}
    case Node(l, r, u) => Ranges(l) + {r} + Ranges(u)
  }

  /** mmio_rb_range_compare as a three-way result. */
  predicate Before(a: Range, b: Range) { a.end < b.base }
  predicate Overlap(a: Range, b: Range) { !Before(a, b) && !Before(b, a) }
  predicate Holds(r: Range, addr: nat) { r.base <= addr <= r.end }

  ghost predicate Ordered(t: Tree) {
    match t
    case Leaf => true
    case Node(l, r, u) =>
      && Ordered(l) && Ordered(u) && r.base <= r.end
      && (forall x :: x in Ranges(l) ==> Before(x, r)) && (forall x :: x in Ranges(u) ==> Before(r, x))
  }

  /** RB_FIND. */
  function Find(t: Tree, key: Range): Option<Range> {
    match t
    case Leaf => None
    case Node(l, r, u) =>
      if Before(key, r) then Find(l, key) else if Before(r, key) then Find(u, key) else Some(r)
  }

  function Point(addr: nat): Range { Range(0, addr, addr, 0, false) }

  /** mmio_rb_lookup. */
  function Lookup(t: Tree, addr: nat): Option<Range> { Find(t, Point(addr)) }

  /** RB_INSERT of a range that Find does not find; rebalancing apart. */
  function Insert(t: Tree, new_: Range): Tree {
    match t
    case Leaf => Node(Leaf, new_, Leaf)
    case Node(l, r, u) =>
      if Before(new_, r) then Node(Insert(l, new_), r, u)
      else if Before(r, new_) then Node(l, r, Insert(u, new_))
      else t
  }

  /** One path of the search decides about all ranges of the tree. */
  lemma {:induction false} FindIff(t: Tree, key: Range)
    requires Ordered(t) && key.base <= key.end
    ensures Find(t, key).None? <==> forall x :: x in Ranges(t) ==> !Overlap(x, key)
    ensures Find(t, key).Some? ==> Find(t, key).value in Ranges(t) && Overlap(Find(t, key).value, key)
  {
    match t
    case Leaf =>
    case Node(l, r, u) =>
      FindIff(l, key);
      FindIff(u, key);
      if Before(key, r) {
        assert forall x :: x in Ranges(u) ==> Before(key, x);
      } else if Before(r, key) {
        assert forall x :: x in Ranges(l) ==> Before(x, key);
      } else {
        assert r in Ranges(t) && Overlap(r, key);
      }
  }

  lemma {:induction false} Proper(t: Tree, x: Range)
    requires Ordered(t) && x in Ranges(t)
    ensures x.base <= x.end
  {
    match t
    case Node(l, r, u) =>
      if x in Ranges(l) { Proper(l, x); } else if x in Ranges(u) { Proper(u, x); }
  }

  /** Ranges of a tree never overlap one another. */
  lemma {:induction false} Disjoint(t: Tree, x: Range, y: Range)
    requires Ordered(t) && x in Ranges(t) && y in Ranges(t) && Overlap(x, y)
    ensures x == y
  {
    match t
    case Node(l, r, u) =>
      if x in Ranges(l) && y in Ranges(l) { Disjoint(l, x, y); }
      if x in Ranges(u) && y in Ranges(u) { Disjoint(u, x, y); }
  }

  /** A lookup finds the range that holds the address, whatever the tree's shape. */
  lemma {:induction false} LookupIff(t: Tree, addr: nat, r: Range)
    requires Ordered(t)
    ensures Lookup(t, addr) == Some(r) <==> r in Ranges(t) && Holds(r, addr)
  {
    var key := Point(addr);
    FindIff(t, key);
    if r in Ranges(t) && Holds(r, addr) {
      assert Overlap(r, key);
      var f := Find(t, key).value;
      Disjoint(t, f, r);
    }
  }

  lemma {:induction false} InsertOk(t: Tree, new_: Range)
    requires Ordered(t) && new_.base <= new_.end && Find(t, new_).None?
    ensures Ordered(Insert(t, new_)) && Ranges(Insert(t, new_)) == Ranges(t) + {new_}
  {
    match t
    case Leaf =>
    case Node(l, r, u) =>
      if Before(new_, r) { InsertOk(l, new_); } else { InsertOk(u, new_); }
  }

  // ----- removal -----

  /** The first range and the tree without it. */
  function PopFirst(t: Tree): (Range, Tree)
    requires t.Node?
  {
    if t.left.Leaf? then (t.range, t.right)
    else
      var (r, l) := PopFirst(t.left);
      (r, Node(l, t.range, t.right))
  }

  /** RB_REMOVE of an entry; rebalancing apart. */
  function Remove(t: Tree, key: Range): Tree {
    match t
    case Leaf => Leaf
    case Node(l, r, u) =>
      if Before(key, r) then Node(Remove(l, key), r, u)
      else if Before(r, key) then Node(l, r, Remove(u, key))
      else if u.Leaf? then l
      else
        var (s, v) := PopFirst(u);
        Node(l, s, v)
  }

  lemma {:induction false} PopFirstOk(t: Tree)
    requires Ordered(t) && t.Node?
    ensures var (r, u) := PopFirst(t);
      && Ordered(u) && r in Ranges(t) && Ranges(u) == Ranges(t) - {r} && r.base <= r.end
      && forall x :: x in Ranges(u) ==> Before(r, x)
  {
    if t.left.Node? {
      PopFirstOk(t.left);
      var (r, l) := PopFirst(t.left);
      assert r !in Ranges(t.right) && r != t.range;
    } else {
      assert t.range !in Ranges(t.right);
    }
  }

  lemma {:induction false} RemoveOk(t: Tree, key: Range)
    requires Ordered(t) && key in Ranges(t)
    ensures Ordered(Remove(t, key)) && Ranges(Remove(t, key)) == Ranges(t) - {key}
  {
    match t
    case Node(l, r, u) =>
      Proper(t, key);
      if Before(key, r) {
        RemoveOk(l, key);
        assert key !in Ranges(u);
      } else if Before(r, key) {
        RemoveOk(u, key);
        assert key !in Ranges(l);
      } else {
        Disjoint(t, key, r);
        assert key !in Ranges(l) && key !in Ranges(u);
        if u.Node? { PopFirstOk(u); }
      }
  }

  // ----- registering and unregistering -----

  /** Abort is a failed assertion. */
  datatype Error = Ok | EExist | ENoEnt | Abort

  /** register_mem_int: nothing happens, and that is success, if the base is already covered. */
  function Registered(t: Tree, new_: Range): (Error, Tree) {
    if Lookup(t, new_.base).Some? then (Ok, t)
    else if Find(t, new_).Some? then (EExist, t)
    else (Ok, Insert(t, new_))
  }

  /** What unregister_mem asserts of the entry it found. */
  predicate Own(x: Range, mine: Range) {
    x.name == mine.name && x.base == mine.base && x.end == mine.end && !x.immutable
  }

  /** unregister_mem of a range the caller calls its own. */
  function Unregistered(t: Tree, mine: Range): (Error, Tree) {
    match Lookup(t, mine.base)
    case None => (ENoEnt, t)
    case Some(x) => if Own(x, mine) then (Ok, Remove(t, x)) else (Abort, t)
  }

  /** Exactly when a range is added, refused or silently ignored. */
  lemma {:induction false} RegisteredIff(t: Tree, new_: Range)
    requires Ordered(t) && new_.base <= new_.end
    ensures var (err, u) := Registered(t, new_);
      var covered := exists x :: x in Ranges(t) && Holds(x, new_.base);
      var clash := exists x :: x in Ranges(t) && Overlap(x, new_);
      && Ordered(u) && (err == EExist <==> clash && !covered) && (err == Ok <==> covered || !clash)
      && Ranges(u) == if clash then Ranges(t) else Ranges(t) + {new_}
  {
    FindIff(t, Point(new_.base));
    FindIff(t, new_);
    if Lookup(t, new_.base).Some? {
      var x := Lookup(t, new_.base).value;
      assert x in Ranges(t) && Overlap(x, new_) && Holds(x, new_.base);
    } else if Find(t, new_).None? {
      InsertOk(t, new_);
    } else {
      assert Overlap(Find(t, new_).value, new_);
      assert forall x :: x in Ranges(t) ==> !Overlap(x, Point(new_.base));
      assert forall x :: x in Ranges(t) && Holds(x, new_.base) ==> Overlap(x, Point(new_.base));
    }
  }

  /** mr_end, a 64-bit sum. */
  function EndOf(base: nat, size: nat): nat { (base + size - 1) % U64 }

  lemma {:induction false} EndOfIff(base: nat, size: nat)
    requires base < U64 && size < U64
    ensures base <= EndOf(base, size) <==> (size == 0 ==> base == 0) && base + size <= U64
  {
  }

  lemma {:induction false} InsertImproper(t: Tree, new_: Range)
    requires Insert(t, new_) != t && new_.base > new_.end
    ensures !Ordered(Insert(t, new_))
  {
    match t
    case Leaf =>
    case Node(l, r, u) => if Before(new_, r) { InsertImproper(l, new_); } else { InsertImproper(u, new_); }
  }

  /** Registration keeps the order exactly if the range it adds is not empty and does not wrap. */
  lemma {:induction false} RegisterKeepsIff(t: Tree, new_: Range)
    requires Ordered(t)
    ensures Ordered(Registered(t, new_).1) <==> Registered(t, new_).1 == t || new_.base <= new_.end
  {
    if new_.base <= new_.end {
      RegisteredIff(t, new_);
    } else if Registered(t, new_).1 != t {
      InsertImproper(t, new_);
    }
  }

  /** A range of size 0 is accepted by an empty index, at any base but 0. */
  lemma {:induction false} EmptyBreaks(entry: nat, base: nat, name: nat)
    requires 0 < base < U64
    ensures var (err, t) := Registered(Leaf, Range(entry, base, EndOf(base, 0), name, false)); err == Ok && !Ordered(t)
  {
    EndOfIff(base, 0);
    RegisterKeepsIff(Leaf, Range(entry, base, EndOf(base, 0), name, false));
  }

  /** The assertions fail exactly if the range that holds the base is not the caller's own; no
      range is unregistered twice, and no other one goes. */
  lemma {:induction false} UnregisteredIff(t: Tree, mine: Range)
    requires Ordered(t)
    ensures var (err, u) := Unregistered(t, mine);
      && Ordered(u) && err != EExist
      && (err == Abort <==> exists x :: x in Ranges(t) && Holds(x, mine.base) && !Own(x, mine))
      && (err == ENoEnt <==> forall x :: x in Ranges(t) ==> !Holds(x, mine.base))
      && (forall x :: x in Ranges(u) <==> x in Ranges(t) && !(err == Ok && Holds(x, mine.base)))
  {
    FindIff(t, Point(mine.base));
    assert forall x :: Holds(x, mine.base) <==> Overlap(x, Point(mine.base));
    match Lookup(t, mine.base)
    case None =>
    case Some(f) =>
      LookupIff(t, mine.base, f);
      forall x | x in Ranges(t) && Holds(x, mine.base) ensures x == f { LookupIff(t, mine.base, x); }
      RemoveOk(t, f);
  }

  /** A caller that registers a range, is told Ok, and unregisters it later runs into the
      assertion exactly if someone else's range, or an immutable one, held its base. */
  lemma {:induction false} RegisterThenUnregister(t: Tree, mine: Range)
    requires Ordered(t) && mine.base <= mine.end && !mine.immutable && Registered(t, mine).0 == Ok
    ensures Unregistered(Registered(t, mine).1, mine).0 == Abort <==>
            exists x :: x in Ranges(t) && Holds(x, mine.base) && !Own(x, mine)
  {
    RegisteredIff(t, mine);
    var u := Registered(t, mine).1;
    UnregisteredIff(u, mine);
    assert Own(mine, mine) && Overlap(mine, mine);
    assert forall x :: x in Ranges(t) && Holds(x, mine.base) ==> Overlap(x, mine);
  }

  /** Two registrations and an unregistration: the second range begins inside the first. */
  lemma {:induction false} IgnoredThenAbort(a: Range, b: Range)
    requires a.base <= b.base <= a.end && b.base <= b.end && !Own(a, b)
    ensures var (e1, t1) := Registered(Leaf, a);
      var (e2, t2) := Registered(t1, b);
      e1 == Ok && e2 == Ok && t2 == t1 && Unregistered(t2, b).0 == Abort
  {
    var t1 := Registered(Leaf, a).1;
    assert t1 == Node(Leaf, a, Leaf);
    LookupIff(t1, b.base, a);
  }

  // ----- the index -----

  /** What an access without hints would select. */
  function Select(root: Tree, fallback: Tree, addr: nat): Option<Range> {
    var r := Lookup(root, addr);
    if r.Some? then r else Lookup(fallback, addr)
  }

  class Index {
    var root: Tree
    var fallback: Tree
    const hint: array<Option<Range>>

    /** The trees are ordered, and every hint is a live entry of the main tree. */
    ghost predicate Valid()
      reads this, hint
    {
      && Ordered(root) && Ordered(fallback)
      && forall v :: 0 <= v < hint.Length && hint[v].Some? ==> hint[v].value in Ranges(root)
    }

    /** init_mem. */
    constructor (maxcpu: nat)
      ensures Valid() && fresh(hint) && hint.Length == maxcpu && Ranges(root) == {} && Ranges(fallback) == {}
    {
      root, fallback := Leaf, Leaf;
      hint := new Option<Range>[maxcpu](_ => None);
    }

    /** The selection of emulate_mem: with the hint it is what it would be without. */
    method EmulateMem(vcpu: nat, paddr: nat) returns (entry: Option<Range>)
      requires Valid() && vcpu < hint.Length
      modifies hint
      ensures Valid() && root == old(root) && fallback == old(fallback)
      ensures entry == Select(root, fallback, paddr)
      ensures entry.Some? ==> Holds(entry.value, paddr)
    {
      var h := hint[vcpu];
      if h.Some? && h.value.base <= paddr <= h.value.end {
        LookupIff(root, paddr, h.value);
        return h;
      }
      entry := Lookup(root, paddr);
      if entry.Some? {
        LookupIff(root, paddr, entry.value);
        hint[vcpu] := entry;
      } else {
        entry := Lookup(fallback, paddr);
        if entry.Some? { LookupIff(fallback, paddr, entry.value); }
      }
    }

    /** register_mem. */
    method RegisterMem(entry: nat, base: nat, size: nat, name: nat, immutable: bool) returns (err: Error)
      requires Valid() && base < U64 && size < U64
      modifies this`root
      ensures (err, root) == Registered(old(root), Range(entry, base, EndOf(base, size), name, immutable))
      ensures Valid() <==> root == old(root) || base <= EndOf(base, size)
    {
      var new_ := Range(entry, base, (base + size - 1) % U64, name, immutable);
      RegisterKeepsIff(root, new_);
      if new_.base <= new_.end { RegisteredIff(root, new_); }
      if Lookup(root, new_.base).Some? { return Ok; }
      if Find(root, new_).Some? { return EExist; }
      root := Insert(root, new_);
      return Ok;
    }

    /** unregister_mem.  After Abort nothing follows. */
    method UnregisterMem(mine: Range) returns (err: Error)
      requires Valid()
      modifies this`root, hint
      ensures Valid() && (err, root) == Unregistered(old(root), mine)
    {
      UnregisteredIff(root, mine);
      var found := Lookup(root, mine.base);
      if found.None? { return ENoEnt; }
      var entry := found.value;
      if !(entry.name == mine.name && entry.base == mine.base && entry.end == mine.end && !entry.immutable) {
        return Abort;
      }
      ghost var was := root;
      LookupIff(was, mine.base, entry);
      RemoveOk(was, entry);
      root := Remove(root, entry);
      var i := 0;
      while i < hint.Length
        invariant 0 <= i <= hint.Length && root == Remove(was, entry)
        invariant forall v :: 0 <= v < hint.Length && hint[v].Some? ==> hint[v].value in Ranges(was)
        invariant forall v :: 0 <= v < i ==> hint[v] != Some(entry)
      {
        if hint[i] == Some(entry) { hint[i] := None; }
        i := i + 1;
      }
      return Ok;
    }
  }
}
