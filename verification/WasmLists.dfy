/** The nested instruction lists of a pool, and what reversing them in place does. */
module WasmLists {
  import opened Sequences
  import opened Leb128
  import opened WasmSyntax

  /** The pool holds the instructions of `f` in its lists, each kept last to first. */
  ghost predicate Described(lists: map<nat, seq<nat>>, pool: seq<Inst>, f: Form)
    decreases f, 1
  {
    && f.begin in lists && |lists[f.begin]| == |f.items|
    && forall k :: 0 <= k < |f.items| ==> NthDescribed(lists, pool, f, k)
  }

  ghost predicate NthDescribed(lists: map<nat, seq<nat>>, pool: seq<Inst>, f: Form, k: nat)
    requires f.begin in lists && |lists[f.begin]| == |f.items| && k < |f.items|
    decreases f, 0
  {
    var i := lists[f.begin][|f.items| - 1 - k];
    i < |pool| && ItemDescribed(lists, pool, pool[i], f.items[k])
  }

  ghost predicate ItemDescribed(lists: map<nat, seq<nat>>, pool: seq<Inst>, inst: Inst, x: Item)
    decreases x, 0
  {
    match x
    case Leaf(op) => inst == Plain(op)
    case Nest(isLoop, t, body) => inst == Block(isLoop, t, body.begin) && Described(lists, pool, body)
    case Fork(t, yes, no) => inst == If(t, yes.begin, no.begin) && Described(lists, pool, yes)
                             && Described(lists, pool, no)
  }

  /** The sentinels of a list and of the lists nested in it. */
  ghost function Begins(f: Form): set<nat>
    decreases f
  {
    {f.begin} + set k, b | 0 <= k < |f.items| && b in ItemBegins(f.items[k]) :: b
  }

  ghost function ItemBegins(x: Item): set<nat>
    decreases x
  {
    match x
    case Leaf(_) => {}
    case Nest(_, _, body) => Begins(body)
    case Fork(_, yes, no) => Begins(yes) + Begins(no)
  }

  /** No list is nested twice. */
  ghost predicate Tree(f: Form)
    decreases f
  {
    forall k :: 0 <= k < |f.items| ==>
      && ItemTree(f.items[k]) && f.begin !in ItemBegins(f.items[k])
      && forall j :: 0 <= j < k ==> ItemBegins(f.items[j]) !! ItemBegins(f.items[k])
  }

  ghost predicate ItemTree(x: Item)
    decreases x
  {
    match x
    case Leaf(_) => true
    case Nest(_, _, body) => Tree(body)
    case Fork(_, yes, no) => Tree(yes) && Tree(no) && Begins(yes) !! Begins(no)
  }

  /** Constants and indices have the widths of the fields that hold them. */
  ghost predicate InRange(f: Form)
    decreases f
  {
    forall k :: 0 <= k < |f.items| ==> ItemInRange(f.items[k])
  }

  ghost predicate ItemInRange(x: Item)
    decreases x
  {
    match x
    case Leaf(Const64(value)) => -(U64 / 2) <= value < U64 / 2
    case Leaf(LocalGet(id)) => id < U32
    case Leaf(LocalSet(id)) => id < U32
    case Leaf(LocalTee(id)) => id < U32
    case Leaf(Call(id)) => id < U32
    case Leaf(Br(depth)) => depth < U32
    case Leaf(BrIf(depth)) => depth < U32
    case Leaf(_) => true
    case Nest(_, t, body) => BlockTypeInRange(t) && InRange(body)
    case Fork(t, yes, no) => BlockTypeInRange(t) && InRange(yes) && InRange(no)
  }

  predicate BlockTypeInRange(t: BlockType) {
    t.OfFunc? ==> t.index < U32
  }

  /** The lists with those of the given sentinels the other way round. */
  ghost function Turned(lists: map<nat, seq<nat>>, begins: set<nat>): map<nat, seq<nat>> {
    map b | b in lists :: if b in begins then Reversed(lists[b]) else lists[b]
  }

  lemma TurnedNone(lists: map<nat, seq<nat>>)
    ensures Turned(lists, {}) == lists
  {
  }

  lemma TurnedMore(lists: map<nat, seq<nat>>, done: set<nat>, more: set<nat>)
    requires done !! more
    ensures Turned(Turned(lists, done), more) == Turned(lists, done + more)
  {
    var once := Turned(lists, done);
    var twice := Turned(once, more);
    assert twice.Keys == lists.Keys == Turned(lists, done + more).Keys;
    forall b | b in lists ensures twice[b] == Turned(lists, done + more)[b] {
      assert once[b] == if b in done then Reversed(lists[b]) else lists[b];
    }
  }

  /** Only its own lists matter to a form. */
  lemma {:induction false} DescribedStays(lists: map<nat, seq<nat>>, other: map<nat, seq<nat>>, pool: seq<Inst>,
                                          f: Form)
    requires Described(lists, pool, f)
    requires forall b :: b in Begins(f) && b in lists ==> b in other && other[b] == lists[b]
    ensures Described(other, pool, f)
    decreases f
  {
    assert f.begin in Begins(f);
    var path := lists[f.begin];
    assert other[f.begin] == path;
    forall k | 0 <= k < |f.items| ensures NthDescribed(other, pool, f, k) {
      forall b | b in ItemBegins(f.items[k]) && b in lists ensures b in other && other[b] == lists[b] {
        assert b in Begins(f);
      }
      assert NthDescribed(lists, pool, f, k);
      ItemDescribedStays(lists, other, pool, pool[path[|f.items| - 1 - k]], f.items[k]);
    }
  }

  lemma {:induction false} ItemDescribedStays(lists: map<nat, seq<nat>>, other: map<nat, seq<nat>>, pool: seq<Inst>,
                                              inst: Inst, x: Item)
    requires ItemDescribed(lists, pool, inst, x)
    requires forall b :: b in ItemBegins(x) && b in lists ==> b in other && other[b] == lists[b]
    ensures ItemDescribed(other, pool, inst, x)
    decreases x
  {
    match x
    case Leaf(_) =>
    case Nest(_, _, body) => DescribedStays(lists, other, pool, body);
    case Fork(_, yes, no) => DescribedStays(lists, other, pool, yes); DescribedStays(lists, other, pool, no);
  }

  /** Turning other lists round changes nothing for a form. */
  lemma OthersTurned(lists: map<nat, seq<nat>>, pool: seq<Inst>, f: Form, done: set<nat>)
    requires Described(lists, pool, f) && Begins(f) !! done
    ensures Described(Turned(lists, done), pool, f)
  {
    hide Begins, Described;
    var now := Turned(lists, done);
    forall b | b in Begins(f) && b in lists ensures b in now && now[b] == lists[b] {
    }
    DescribedStays(lists, now, pool, f);
  }

  // ---------- a second pass ----------

  /** The form with every list the other way round. */
  ghost function Flipped(f: Form): (g: Form)
    ensures g.begin == f.begin && |g.items| == |f.items|
    ensures forall k :: 0 <= k < |g.items| ==> g.items[k] == ItemFlipped(f.items[|f.items| - 1 - k])
    decreases f, 0
  {
    Form(f.begin, seq(|f.items|, k requires 0 <= k < |f.items| => ItemFlipped(f.items[|f.items| - 1 - k])))
  }

  ghost function ItemFlipped(x: Item): Item
    decreases x, 0
  {
    match x
    case Leaf(_) => x
    case Nest(isLoop, t, body) => Nest(isLoop, t, Flipped(body))
    case Fork(t, yes, no) => Fork(t, Flipped(yes), Flipped(no))
  }

  lemma {:induction false} FlippedBegins(f: Form)
    ensures Begins(Flipped(f)) == Begins(f)
    decreases f, 1
  {
    var g, n := Flipped(f), |f.items|;
    forall k | 0 <= k < n ensures ItemBegins(g.items[k]) == ItemBegins(f.items[n - 1 - k]) {
      ItemFlippedBegins(f.items[n - 1 - k]);
    }
    forall k | 0 <= k < n ensures ItemBegins(f.items[k]) == ItemBegins(g.items[n - 1 - k]) {
      assert n - 1 - (n - 1 - k) == k;
    }
  }

  lemma {:induction false} ItemFlippedBegins(x: Item)
    ensures ItemBegins(ItemFlipped(x)) == ItemBegins(x)
    decreases x, 1
  {
    match x
    case Leaf(_) =>
    case Nest(_, _, body) => FlippedBegins(body);
    case Fork(_, yes, no) => FlippedBegins(yes); FlippedBegins(no);
  }

  /** After a writing pass the pool describes the flipped form, so writing the same lists again would write every
      one of them last to first. */
  lemma {:induction false} DescribedWhenTurned(lists: map<nat, seq<nat>>, pool: seq<Inst>, f: Form)
    requires Described(lists, pool, f) && Tree(f)
    ensures Described(Turned(lists, Begins(f)), pool, Flipped(f))
    decreases f, 2
  {
    hide ItemDescribed, ItemFlipped, Tree;
    var now, n := Turned(lists, Begins(f)), |f.items|;
    assert f.begin in Begins(f);
    var path, back := lists[f.begin], now[f.begin];
    assert back == Reversed(path);
    forall j | 0 <= j < n ensures back[j] < |pool| && ItemDescribed(now, pool, pool[back[j]], ItemFlipped(f.items[j])) {
      NthDescribedWhenTurned(lists, pool, f, j, path[n - 1 - j]);
    }
    FlippedDescribed(now, pool, f);
  }

  lemma FlippedDescribed(lists: map<nat, seq<nat>>, pool: seq<Inst>, f: Form)
    requires f.begin in lists && |lists[f.begin]| == |f.items|
    requires forall j :: 0 <= j < |f.items| ==>
               lists[f.begin][j] < |pool|
               && ItemDescribed(lists, pool, pool[lists[f.begin][j]], ItemFlipped(f.items[j]))
    ensures Described(lists, pool, Flipped(f))
  {
    hide ItemDescribed, ItemFlipped, Flipped;
    var g, n := Flipped(f), |f.items|;
    forall k | 0 <= k < n ensures NthDescribed(lists, pool, g, k) {
      assert g.items[k] == ItemFlipped(f.items[n - 1 - k]);
    }
  }

  lemma {:induction false} NthDescribedWhenTurned(lists: map<nat, seq<nat>>, pool: seq<Inst>, f: Form, k: nat, i: nat)
    requires Described(lists, pool, f) && Tree(f) && k < |f.items| && i == lists[f.begin][|f.items| - 1 - k]
    ensures i < |pool| && ItemDescribed(Turned(lists, Begins(f)), pool, pool[i], ItemFlipped(f.items[k]))
    decreases f, 1
  {
    hide ItemDescribed, ItemFlipped, ItemBegins, ItemTree;
    var x := f.items[k];
    assert NthDescribed(lists, pool, f, k);
    ItemDescribedWhenTurned(lists, pool, pool[i], x);
    ItemFlippedBegins(x);
    forall b | b in ItemBegins(x) ensures b in Begins(f) {
    }
    ItemDescribedStays(Turned(lists, ItemBegins(x)), Turned(lists, Begins(f)), pool, pool[i], ItemFlipped(x));
  }

  lemma {:induction false} ItemDescribedWhenTurned(lists: map<nat, seq<nat>>, pool: seq<Inst>, inst: Inst, x: Item)
    requires ItemDescribed(lists, pool, inst, x) && ItemTree(x)
    ensures ItemDescribed(Turned(lists, ItemBegins(x)), pool, inst, ItemFlipped(x))
    decreases x, 1
  {
    match x
    case Leaf(_) =>
    case Nest(_, _, body) => DescribedWhenTurned(lists, pool, body);
    case Fork(_, yes, no) =>
      DescribedWhenTurned(lists, pool, yes);
      DescribedWhenTurned(lists, pool, no);
      FlippedBegins(yes);
      FlippedBegins(no);
      DescribedStays(Turned(lists, Begins(yes)), Turned(lists, ItemBegins(x)), pool, Flipped(yes));
      DescribedStays(Turned(lists, Begins(no)), Turned(lists, ItemBegins(x)), pool, Flipped(no));
  }
}
