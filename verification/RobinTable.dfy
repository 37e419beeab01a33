/** The Robin Hood hash table over its buffers of doubling capacity. */
module RobinTable {
  import opened Bits
  import opened RobinLayout
  import opened RobinSpread
  import opened RobinProbe

  /** At `level`, a table of `cap` slots admits at most cap - cap / 2^level elements. */
  predicate WithinLoad(size: nat, cap: nat, level: nat) {
    size * Pow2(level) <= cap * Pow2(level) - cap
  }

  lemma LoadLeavesRoom(size: nat, cap: nat, level: nat)
    requires cap >= 2 && WithinLoad(size, cap, level)
    ensures size < cap
  {
    if size >= cap {
      assert size * Pow2(level) >= cap * Pow2(level);
    }
  }

  lemma LoadIsMonotone(small: nat, size: nat, cap: nat, level: nat)
    requires small <= size && WithinLoad(size, cap, level)
    ensures WithinLoad(small, cap, level)
  {
    assert small * Pow2(level) <= size * Pow2(level);
  }

  /** Less than half full is within the load at every level of at least one. */
  lemma HalfIsWithinLoad(size: nat, cap: nat, level: nat)
    requires level >= 1 && 2 * size <= cap
    ensures WithinLoad(size, cap, level)
  {
    var f := Pow2(level - 1);
    assert (2 * size) * f <= cap * f;
    assert cap * f >= cap * 1;
    assert cap * (2 * f) - cap * f == cap * f;
    assert size * (2 * f) == (2 * size) * f;
  }

  /** What is within the load is so with twice as many slots, and at the next level. */
  lemma LoadLoosens(size: nat, cap: nat, level: nat)
    requires WithinLoad(size, cap, level)
    ensures WithinLoad(size, 2 * cap, level) && WithinLoad(size, cap, level + 1)
  {
    var f := Pow2(level);
    assert size * f >= 0 && (2 * cap) * f == 2 * (cap * f);
    assert size * (2 * f) == 2 * (size * f) && cap * (2 * f) == 2 * (cap * f);
  }

  lemma {:induction false} LoadOfSeven(size: nat, cap: nat, level: nat)
    requires level <= 7 && WithinLoad(size, cap, level)
    ensures size * 128 <= cap * 128 - cap
    decreases 7 - level
  {
    if level == 7 {
      assert Pow2(7) == 2 * Pow2(6) == 128;
    } else {
      LoadLoosens(size, cap, level);
      LoadOfSeven(size, cap, level + 1);
    }
  }

  /** An empty table of two slots or more takes its first element. */
  lemma FirstIsWithinLoad(cap: nat, level: nat)
    requires level >= 1 && cap >= 2
    ensures WithinLoad(1, cap, level) && WithinLoad(0, cap, level)
  {
    HalfIsWithinLoad(1, cap, level);
    LoadIsMonotone(0, 1, cap, level);
  }

  lemma SwapOneKey<K, V>(m: map<K, V>, out: K, k: K, v: V)
    requires out in m && k !in m
    ensures var m' := (m - {out})[k := v];
            |m'| == |m| && m'[out := m[out]] == m[k := v]
  {
    assert |m - {out}| == |m| - 1;
  }

  /** A bit more of the mask adds half the ring or nothing. */
  lemma HalfModulo(x: nat, cap: nat)
    requires cap >= 1
    ensures var h := x % (2 * cap); x % cap == if h < cap then h else h - cap
  {
    var q := x / (2 * cap);
    assert x == (2 * cap) * q + x % (2 * cap);
    assert (2 * cap) * q == cap * (2 * q);
    HalfRemainder(x, cap, 2 * q, x % (2 * cap));
  }

  lemma HalfRemainder(x: nat, cap: nat, q: nat, h: nat)
    requires x == cap * q + h && h < 2 * cap
    ensures x % cap == if h < cap then h else h - cap
  {
    if h < cap {
      RemainderIsUnique(x, cap, q, h);
    } else {
      assert cap * (q + 1) == cap * q + cap;
      RemainderIsUnique(x, cap, q + 1, h - cap);
    }
  }

  lemma SameKeys<K, V>(m: map<K, V>, k: K, v: V, m': map<K, V>, k': K, v': V)
    requires m[k := v] == m'[k' := v']
    ensures m.Keys + {k} == m'.Keys + {k'}
  {
    assert m[k := v].Keys == m.Keys + {k} && m'[k' := v'].Keys == m'.Keys + {k'};
  }

  lemma KeysWithout<K, V>(m: map<K, V>, k: K)
    ensures (m - {k}).Keys == m.Keys - {k}
  {
  }

  function Home<K>(hash: K -> nat, mask: nat): K -> nat {
    k => BitAnd(hash(k), mask)
  }

  /** The stack buffer, at index 0, followed by the heap buffers made so far. */
  class Manager<K(!new), V> {
    var index: nat
    var buffers: seq<array<Bucket<K, V>>>
    const log: nat // the stack buffer has 2 to the `log` slots
    const limit: nat // how many buffers memory has room for

    /** How many slots a buffer has, its sentinel apart. */
    ghost function Capacity(i: nat): (capacity: nat)
      ensures capacity >= 1 && (log >= 1 ==> capacity >= 2)
    {
      Pow2(log + i)
    }

    ghost predicate Valid()
      reads this
    {
      && index < |buffers| <= limit
      && log >= 1
      && (forall i, j :: 0 <= i < j < |buffers| ==> buffers[i] != buffers[j])
      && (forall i :: 0 <= i < |buffers| ==> buffers[i].Length == Capacity(i) + 1)
    }

    ghost predicate Last()
      reads this
    {
      index + 1 == |buffers|
    }

    constructor (stack: array<Bucket<K, V>>, log: nat, limit: nat)
      requires log >= 1 && limit >= 1 && stack.Length == Pow2(log) + 1
      ensures Valid() && index == 0 && buffers == [stack] && this.log == log && this.limit == limit
    {
      index := 0;
      buffers := [stack];
      this.log := log;
      this.limit := limit;
    }

    /** Moves to the last buffer, making it first when the current one is the last. */
    method MakeNext(blank: Bucket<K, V>) returns (ok: bool)
      requires Valid()
      modifies this
      ensures Valid()
      ensures ok <==> !(old(Last()) && |old(buffers)| == limit)
      ensures !ok ==> index == old(index) && buffers == old(buffers)
      ensures ok ==> Last() && index > old(index)
      ensures ok && !old(Last()) ==> buffers == old(buffers)
      ensures ok && old(Last()) ==> |buffers| == |old(buffers)| + 1 && buffers[..|old(buffers)|] == old(buffers)
                                    && fresh(buffers[index])
    {
      if index == |buffers| - 1 {
        if |buffers| == limit {
          return false;
        }
        var size := buffers[index].Length;
        var heap := new Bucket<K, V>[2 * (size - 1) + 1](_ => blank);
        buffers := buffers + [heap];
      }
      index := |buffers| - 1;
      ok := true;
    }

    method MakePrev() returns (ok: bool)
      requires Valid()
      modifies this`index
      ensures Valid()
      ensures ok <==> old(index) > 0
      ensures index == if ok then old(index) - 1 else old(index)
    {
      if index == 0 {
        return false;
      }
      index := index - 1;
      ok := true;
    }
  }

  /** Buffers are only ever added. */
  ghost predicate Extends<K(!new), V>(buffers: seq<array<Bucket<K, V>>>, buffers': seq<array<Bucket<K, V>>>) {
    |buffers| <= |buffers'| && forall i :: 0 <= i < |buffers| ==> buffers'[i] == buffers[i]
  }

  /** How the manager moves during an insertion: not at all, or forward to a last buffer. */
  ghost predicate Grew<K(!new), V>(buffers: seq<array<Bucket<K, V>>>, index: nat, buffers': seq<array<Bucket<K, V>>>,
                                   index': nat) {
    && |buffers| <= |buffers'|
    && (forall i :: 0 <= i < |buffers| ==> buffers'[i] == buffers[i])
    && ((buffers' == buffers && index' == index)
        || (index' + 1 == |buffers'| && index' > index))
  }

  class Table<K(==, !new), V(!new)> {
    const hash: K -> nat
    const level: nat
    const manager: Manager<K, V>
    const blank: Bucket<K, V> // what raw memory holds before a bucket is made in it

    var buckets: array<Bucket<K, V>>
    var capacity: nat // the end pointer is buckets + capacity
    var mask: nat
    var begin: nat
    var size: nat

    ghost var contents: map<K, V>

    /** The slots hold `contents`. */
    ghost predicate Slots()
      reads this, buckets
    {
      && level >= 1
      && capacity == buckets.Length - 1
      && capacity >= 2
      && mask == capacity - 1
      && begin <= capacity
      && Sound(Home(hash, mask), buckets[..], capacity, contents)
    }

    /** Everything but the idle buffers. */
    ghost predicate Core()
      reads this, manager, buckets
    {
      && manager.Valid()
      && buckets == manager.buffers[manager.index]
      && Slots()
      && (begin == capacity ==> size == 0)
      && size == |contents|
      && WithinLoad(size, capacity, level)
    }

    /** All buffers are idle but the current one and those being drained by a pending rehash. */
    ghost predicate IdleBut(draining: set<nat>)
      reads this, manager, manager.buffers
    {
      forall i :: 0 <= i < |manager.buffers| && i != manager.index && i !in draining ==> Idle(manager.buffers[i][..])
    }

    ghost predicate Valid()
      reads this, manager, manager.buffers
    {
      manager.Valid() && buckets in manager.buffers && Core() && IdleBut({})
    }

    /** Room for `keys` in `cap` slots, by the load factor and by the 8-bit distances: a table of these keys
        stays in its buffer. */
    ghost predicate Quiet(keys: set<K>, cap: nat)
      requires cap >= 1
    {
      WithinLoad(|keys|, cap, level) && Spread(Home(hash, cap - 1), cap, keys)
    }

    /** Room for `keys` in the largest buffer that memory has room for. */
    ghost predicate Fits(keys: set<K>) {
      manager.limit >= 1 && Quiet(keys, manager.Capacity(manager.limit - 1))
    }

    lemma QuietIsMonotone(few: set<K>, keys: set<K>, cap: nat)
      requires few <= keys && cap >= 1
      ensures Quiet(keys, cap) ==> Quiet(few, cap)
    {
      hide WithinLoad, Spread;
      if Quiet(keys, cap) {
        CardinalityOfSubset(few, keys);
        LoadIsMonotone(|few|, |keys|, cap, level);
        FewerAreSpread(Home(hash, cap - 1), cap, few, keys);
      }
    }

    lemma FitsIsMonotone(few: set<K>, keys: set<K>)
      requires few <= keys
      ensures Fits(keys) ==> Fits(few)
    {
      if manager.limit >= 1 {
        QuietIsMonotone(few, keys, manager.Capacity(manager.limit - 1));
      }
    }

    /** The keys of a table have room where they are. */
    lemma CoreIsQuiet()
      requires Core()
      ensures capacity >= 1 && Quiet(contents.Keys, capacity) && capacity == manager.Capacity(manager.index)
    {
      hide SoundBut, WithinLoad, Spread, BitAnd;
      SoundIsSpread(Home(hash, mask), buckets[..], capacity, contents);
      assert |contents.Keys| == |contents|;
    }

    lemma QuietDoubles(keys: set<K>, n: nat)
      requires Quiet(keys, Pow2(n))
      ensures Quiet(keys, Pow2(n + 1))
    {
      hide Spread, WithinLoad, BitAnd;
      var cap := Pow2(n);
      LoadLoosens(|keys|, cap, level);
      var home, home' := Home(hash, cap - 1), Home(hash, 2 * cap - 1);
      forall k ensures Folds(home, cap, home', k) {
        MaskIsModulo(hash(k), n);
        MaskIsModulo(hash(k), n + 1);
        HalfModulo(hash(k), cap);
      }
      SpreadDoubles(home, cap, home', keys);
    }

    /** What has room in a buffer has room in the later ones. */
    lemma {:induction false} QuietGrows(keys: set<K>, i: nat, j: nat)
      requires i <= j
      ensures Quiet(keys, manager.Capacity(i)) ==> Quiet(keys, manager.Capacity(j))
    {
      hide Quiet;
      if i < j && Quiet(keys, manager.Capacity(i)) {
        QuietGrows(keys, i, j - 1);
        QuietDoubles(keys, manager.log + j - 1);
      }
    }

    lemma FitsIfQuiet(keys: set<K>)
      requires manager.Valid()
      ensures Quiet(keys, manager.Capacity(manager.index)) ==> Fits(keys)
    {
      hide Quiet;
      QuietGrows(keys, manager.index, manager.limit - 1);
    }

    /** Iteration begins at a filled bucket, or else at the end. */
    ghost predicate Begun()
      requires capacity < buckets.Length
      reads `buckets, `capacity, `begin, `size, buckets
    {
      if size == 0 then begin == capacity else begin < capacity && buckets[begin].dib > EMPTY
    }

    /** The empty slots hold the key that raw memory held. */
    ghost predicate Blank()
      requires capacity < buckets.Length
      reads `buckets, `capacity, buckets
    {
      forall p :: 0 <= p < capacity && buckets[p].dib == EMPTY ==> buckets[p].key == blank.key
    }

    constructor (hash: K -> nat, level: nat, stackSizeLog2: nat, limit: nat, blank: Bucket<K, V>)
      requires level >= 1 && stackSizeLog2 >= 1 && limit >= 1
      ensures Valid() && fresh(manager) && fresh(manager.buffers)
      ensures contents == map[] && this.hash == hash && this.level == level
      ensures manager.log == stackSizeLog2 && manager.limit == limit && manager.index == 0 && |manager.buffers| == 1
      ensures Begun() && (forall p :: 0 <= p < capacity ==> buckets[p] == blank.(dib := EMPTY)) && this.blank == blank
    {
      var stack := new Bucket<K, V>[Pow2(stackSizeLog2) + 1](_ => blank);
      this.hash := hash;
      this.level := level;
      this.blank := blank;
      manager := new Manager(stack, stackSizeLog2, limit);
      buckets := stack;
      capacity := Pow2(stackSizeLog2);
      mask := Pow2(stackSizeLog2) - 1;
      begin := 0;
      size := 0;
      contents := map[];
      new;
      capacity := buckets.Length - 1;
      Init();
    }

    /** Makes an empty bucket in every slot and fills the sentinel. */
    method Init()
      requires level >= 1 && buckets.Length >= 3 && capacity == buckets.Length - 1
      modifies this, buckets
      ensures buckets == old(buckets) && capacity == old(capacity)
      ensures Slots() && contents == map[] && size == 0 && begin == capacity
      ensures WithinLoad(size, capacity, level)
      ensures forall p :: 0 <= p < capacity ==> buckets[p] == old(buckets[p]).(dib := EMPTY)
    {
      for i := 0 to capacity + 1
        modifies buckets
        invariant forall p :: 0 <= p < i ==> buckets[p] == old(buckets[p]).(dib := EMPTY)
        invariant forall p :: i <= p <= capacity ==> buckets[p] == old(buckets[p])
      {
        buckets[i] := buckets[i].(dib := EMPTY);
      }
      mask := capacity - 1;
      begin := capacity;
      buckets[capacity] := buckets[capacity].(dib := FILLED);
      size := 0;
      contents := map[];
      FirstIsWithinLoad(capacity, level);
      IdleIsSound(Home(hash, mask), buckets[..], capacity);
    }

    /** `k` may go to slot `p`, `dib` being its distance there. */
    ghost predicate OfferedAt(k: K, p: nat, dib: nat)
      reads this, buckets
    {
      Slots() && Offered(Home(hash, mask), buckets[..], capacity, k, p, dib)
    }

    lemma OfferedFirst(k: K)
      requires Slots()
      ensures BitAnd(hash(k), mask) < capacity && OfferedAt(k, BitAnd(hash(k), mask), FILLED)
    {
      OfferedAtHome(Home(hash, mask), buckets[..], capacity, contents, k);
    }

    /** Going on past a slot: the next one is offered, unless the counter is at its top, which takes a crowd. */
    lemma PassOver(k: K, p: nat, dib: nat, e: nat)
      requires OfferedAt(k, p, dib)
      requires e < capacity && buckets[e].dib == EMPTY
      requires dib < buckets[p].dib || (dib == buckets[p].dib && buckets[p].key != k)
      ensures dib < 255 ==> OfferedAt(k, Next(capacity, p), dib + 1)
      ensures dib == 255 ==> |contents| >= 1 && !Quiet(contents.Keys + {k}, capacity)
    {
      hide SoundBut, WithinLoad, Spread, BitAnd, Next, Passed;
      HitIsStored(Home(hash, mask), buckets[..], capacity, contents, p);
      if dib < 255 {
        OfferedNext(Home(hash, mask), buckets[..], capacity, contents, k, p, dib, e);
      } else {
        FurthestIs(Home(hash, mask), buckets[..], capacity, contents, k);
        TopIsCrowded(Home(hash, mask), buckets[..], capacity, contents, k, e);
      }
    }

    /** An element that meets an empty slot is new: when the load has no place for one more, it has no room. */
    lemma OverLoad(k: K, p: nat, dib: nat)
      requires OfferedAt(k, p, dib) && buckets[p].dib == EMPTY && !WithinLoad(|contents| + 1, capacity, level)
      ensures !Quiet(contents.Keys + {k}, capacity) && |contents| >= 1
    {
      hide SoundBut, WithinLoad, Spread, BitAnd, Next, Passed;
      Absent(Home(hash, mask), buckets[..], capacity, contents, k, dib - 1);
      assert |contents.Keys + {k}| == |contents| + 1;
      FirstIsWithinLoad(capacity, level);
    }

    /** Puts an element in slot `p`. */
    method Put(p: nat, b: Bucket<K, V>)
      requires p < capacity < buckets.Length && b.dib > EMPTY
      modifies buckets
      ensures buckets[..] == old(buckets[..])[p := b]
      ensures (old(Blank()) ==> Blank()) && (old(Begun()) ==> Begun())
    {
      buckets[p] := b;
    }

    /** Fills the empty slot at `p`. */
    method FillSlot(p: nat, dib: nat, k: K, v: V)
      requires OfferedAt(k, p, dib) && buckets[p].dib == EMPTY
      modifies buckets, `contents
      ensures Slots() && contents == old(contents)[k := v] && |contents| == |old(contents)| + 1
      ensures buckets[p].dib > EMPTY && (old(Blank()) ==> Blank()) && (old(Begun()) ==> Begun())
    {
      hide SoundBut, BitAnd, Next, Blank, Begun;
      Fill(Home(hash, mask), buckets[..], capacity, contents, k, v, p, dib);
      Put(p, Bucket(dib, k, v));
      contents := contents[k := v];
      assert buckets[..][p].dib > EMPTY;
    }

    /** Rewrites the value at `p`. */
    method FillValue(p: nat, v: V)
      requires Slots() && p < capacity && buckets[p].dib > EMPTY
      modifies buckets, `contents
      ensures Slots() && contents == old(contents)[old(buckets[p].key) := v] && |contents| == |old(contents)|
      ensures (old(Blank()) ==> Blank()) && (old(Begun()) ==> Begun())
    {
      hide SoundBut, BitAnd, Next, Blank, Begun;
      Rewrite(Home(hash, mask), buckets[..], capacity, contents, p, v);
      contents := contents[buckets[p].key := v];
      Put(p, buckets[p].(val := v));
    }

    /** Puts the element in hand in slot `p` and takes the one found there, to be offered further on. */
    method Exchange(p: nat, dib: nat, k: K, v: V, ghost e: nat) returns (found: Bucket<K, V>)
      requires OfferedAt(k, p, dib) && EMPTY < buckets[p].dib < dib
      requires e < capacity && buckets[e].dib == EMPTY
      modifies buckets, `contents
      ensures found.dib < dib && OfferedAt(found.key, Next(capacity, p), found.dib + 1)
      ensures contents[found.key := found.val] == old(contents)[k := v] && |contents| == |old(contents)|
      ensures buckets[e].dib == EMPTY && (old(Blank()) ==> Blank()) && (old(Begun()) ==> Begun())
    {
      hide BitAnd, Next, SoundBut, Sound, WithinLoad, Blank, Begun, Offered;
      OfferedInRange(Home(hash, mask), buckets[..], capacity, contents, k, p, dib);
      Displace(Home(hash, mask), buckets[..], capacity, contents, k, v, p, dib, e);
      found := buckets[p];
      Put(p, Bucket(dib, k, v));
      assert buckets[..][e].dib == EMPTY;
      SwapOneKey(contents, found.key, k, v);
      contents := (contents - {found.key})[k := v];
    }

    /** Puts the element in hand in the empty slot at `p`, if the load has a place for it. */
    method TakeEmpty(p: nat, dib: nat, k: K, v: V) returns (done: bool)
      requires OfferedAt(k, p, dib) && buckets[p].dib == EMPTY
      requires size == |contents| && (begin == capacity ==> size == 0)
      modifies buckets, `contents, `size, `begin
      ensures Slots() && (begin == capacity ==> size == 0)
      ensures done ==> contents == old(contents)[k := v] && size == |contents| && WithinLoad(size, capacity, level)
      ensures !done ==> contents == old(contents) && |contents| >= 1 && !Quiet(contents.Keys + {k}, capacity)
      ensures (old(Blank()) ==> Blank()) && (done && old(Begun()) ==> Begun())
    {
      hide Sound, Offered, WithinLoad, Pow2, BitAnd, Quiet, Blank;
      OfferedInRange(Home(hash, mask), buckets[..], capacity, contents, k, p, dib);
      size := size + 1;
      if !WithinLoad(size, capacity, level) {
        OverLoad(k, p, dib);
        return false;
      }
      FillSlot(p, dib, k, v);
      // the first element of an empty table is where iteration begins
      begin := if begin == capacity then p else begin;
      done := true;
    }

    /** One pass of an insertion, up to the point where it ends or asks for the next buffer, in which
        case some element, not always the one it began with, is left in hand. */
    method Place(key: K, val: V, ghost draining: set<nat>) returns (done: bool, k: K, v: V)
      requires manager.Valid() && Core() && IdleBut(draining)
      modifies buckets, `contents, `size, `begin
      ensures buckets == manager.buffers[manager.index] && Slots() && IdleBut(draining)
      ensures forall i :: i in draining && i < |manager.buffers| && i != manager.index ==>
                manager.buffers[i][..] == old(manager.buffers[i][..])
      ensures done ==> Core() && contents == old(contents)[key := val]
      ensures !done ==> contents[k := v] == old(contents)[key := val] && |contents| == |old(contents)| >= 1
      ensures done <==> Quiet(old(contents).Keys + {key}, capacity)
      ensures (old(Blank()) ==> Blank()) && (done && old(Begun()) ==> Begun())
    {
      hide Sound, WithinLoad, Quiet, Blank, Begun, BitAnd, Idle;
      done, k, v := PlaceOne(key, val);
      if done {
        SlotsAreQuiet();
        assert contents.Keys == old(contents).Keys + {key};
      } else {
        SameKeys(contents, k, v, old(contents), key, val);
      }
    }

    lemma SlotsAreQuiet()
      requires Slots() && size == |contents| && WithinLoad(size, capacity, level)
      ensures Quiet(contents.Keys, capacity)
    {
      hide SoundBut, WithinLoad, Spread, BitAnd;
      SoundIsSpread(Home(hash, mask), buckets[..], capacity, contents);
      assert |contents.Keys| == |contents|;
    }

    method PlaceOne(key: K, val: V) returns (done: bool, k: K, v: V)
      requires Slots() && size == |contents| && WithinLoad(size, capacity, level)
      requires begin == capacity ==> size == 0
      modifies buckets, `contents, `size, `begin
      ensures Slots() && (begin == capacity ==> size == 0)
      ensures done ==> contents == old(contents)[key := val] && size == |contents| && WithinLoad(size, capacity, level)
      ensures !done ==> contents[k := v] == old(contents)[key := val] && |contents| == |old(contents)| >= 1
      ensures !done ==> !Quiet(contents.Keys + {k}, capacity)
      ensures (old(Blank()) ==> Blank()) && (done && old(Begun()) ==> Begun())
    {
      hide Sound, Offered, WithinLoad, Pow2, BitAnd, Next, Dist, Increment, Quiet, Blank, Begun;
      k, v := key, val;
      LoadLeavesRoom(size, capacity, level);
      ghost var e := EmptyExists(Home(hash, mask), buckets[..], capacity, contents);
      OfferedFirst(k);
      var p: nat := BitAnd(hash(k), mask);
      var dib: nat := FILLED;
      while buckets[p].dib != EMPTY && (dib != buckets[p].dib || k != buckets[p].key)
        invariant size == |contents| == |old(contents)| && begin == old(begin)
        invariant e < capacity && buckets[e].dib == EMPTY && p < capacity
        invariant OfferedAt(k, p, dib)
        invariant contents[k := v] == old(contents)[key := val]
        invariant (old(Blank()) ==> Blank()) && (old(Begun()) ==> Begun())
        decreases Dist(capacity, p, e)
      {
        k, v, dib := GoOn(p, dib, k, v, e);
        if dib == 0 {
          return false, k, v;
        }
        NextIsNearer(capacity, p, e);
        p := Next(capacity, p);
      }
      if buckets[p].dib == EMPTY {
        done := TakeEmpty(p, dib, k, v);
      } else {
        FillValue(p, v);
        done := true;
      }
    }

    /** Goes on past a filled slot of another key, changing places with an element nearer to its home. */
    method GoOn(p: nat, dib: nat, k: K, v: V, ghost e: nat) returns (k': K, v': V, dib': nat)
      requires OfferedAt(k, p, dib) && buckets[p].dib != EMPTY && (dib != buckets[p].dib || k != buckets[p].key)
      requires e < capacity && buckets[e].dib == EMPTY
      modifies buckets, `contents
      ensures Slots() && buckets[e].dib == EMPTY
      ensures contents[k' := v'] == old(contents)[k := v] && |contents| == |old(contents)|
      ensures dib' == 0 ==> |contents| >= 1 && !Quiet(contents.Keys + {k'}, capacity)
      ensures dib' != 0 ==> OfferedAt(k', Next(capacity, p), dib')
      ensures (old(Blank()) ==> Blank()) && (old(Begun()) ==> Begun())
    {
      hide Sound, Offered, WithinLoad, Pow2, BitAnd, Next, Dist, Increment, Quiet, Blank, Begun;
      OfferedInRange(Home(hash, mask), buckets[..], capacity, contents, k, p, dib);
      k', v', dib' := k, v, dib;
      if dib <= buckets[p].dib {
        // a slot further from home, or as far but of another key
        PassOver(k, p, dib, e);
      } else {
        // take the slot and go on with the element found there
        var found := Exchange(p, dib, k, v, e);
        k', v', dib' := found.key, found.val, found.dib;
      }
      dib' := Increment(dib');
    }

    /** Inserts or rewrites a binding. `draining` names the buffers that pending rehashes still read. The insertion
        succeeds exactly when memory has room for a buffer that the keys fit in, and stays in the current
        buffer exactly when they fit in that one. */
    method Emplace(key: K, val: V, ghost draining: set<nat>) returns (ok: bool)
      requires manager.Valid() && Core() && IdleBut(draining)
      requires Spared(draining, manager.index, contents.Keys + {key}, capacity)
      modifies this, manager, manager.buffers
      ensures manager.Valid()
      ensures Grew(old(manager.buffers), old(manager.index), manager.buffers, manager.index)
      ensures forall i :: |old(manager.buffers)| <= i < |manager.buffers| ==> fresh(manager.buffers[i])
      ensures forall i :: i in draining ==> manager.buffers[i][..] == old(manager.buffers[i][..])
      ensures ok ==> Core() && IdleBut(draining) && manager.index !in draining
      ensures ok ==> contents == old(contents)[key := val]
      ensures ok <==> Fits(old(contents).Keys + {key})
      ensures !ok ==> |manager.buffers| == manager.limit
      ensures Quiet(old(contents).Keys + {key}, old(capacity)) <==> ok && manager.index == old(manager.index)
      ensures ok && old(Begun()) ==> Begun()
      ensures ok && manager.index == old(manager.index) && old(Blank()) ==> Blank()
      decreases manager.limit - |manager.buffers|, |manager.buffers| - manager.index, 1
    {
      hide Sound, WithinLoad, Quiet, Fits, Begun, Blank, IdleBut;
      ghost var keys := contents.Keys + {key};
      var k, v;
      ok, k, v := Place(key, val, draining);
      if ok {
        FitsIfQuiet(keys);
      } else {
        SameKeys(contents, k, v, old(contents), key, val);
        NotInTheLast(keys);
        FitsIsMonotone(contents.Keys, keys);
        ok := Grow(draining);
        if !ok {
          return;
        }
        ok := Emplace(k, v, draining);
      }
    }

    lemma NotInTheLast(keys: set<K>)
      requires manager.Valid() && capacity >= 1 && capacity == manager.Capacity(manager.index) && !Quiet(keys, capacity)
      ensures Fits(keys) ==> manager.index + 1 < manager.limit
    {
      hide Quiet;
    }

    /** The buffers in `draining` stay out of reach of an insertion that leads to no more than `keys`. */
    ghost predicate Spared(draining: set<nat>, index: nat, keys: set<K>, cap: nat)
      requires cap >= 1
      reads manager
    {
      forall i :: i in draining ==> i < |manager.buffers| && i != index
                                    && (i + 1 == |manager.buffers| ==> Quiet(keys, cap))
    }

    /** Moves to the manager's last buffer, with every element. */
    method Grow(ghost draining: set<nat>) returns (ok: bool)
      requires manager.Valid() && buckets == manager.buffers[manager.index]
      requires Slots() && |contents| >= 1 && IdleBut(draining)
      requires forall i :: i in draining ==> i < |manager.buffers| && i != manager.index && i + 1 != |manager.buffers|
      modifies this, manager, manager.buffers
      ensures manager.Valid()
      ensures Grew(old(manager.buffers), old(manager.index), manager.buffers, manager.index)
      ensures forall i :: |old(manager.buffers)| <= i < |manager.buffers| ==> fresh(manager.buffers[i])
      ensures forall i :: i in draining ==> manager.buffers[i][..] == old(manager.buffers[i][..])
      ensures ok ==> Core() && IdleBut(draining) && manager.index > old(manager.index) && manager.Last()
      ensures ok ==> contents == old(contents) && manager.index !in draining && Begun()
      ensures Fits(old(contents).Keys) && old(manager.index) + 1 < manager.limit ==> ok
      ensures !ok ==> |manager.buffers| == manager.limit
      decreases manager.limit - |manager.buffers|, |manager.buffers| - manager.index, 0
    {
      hide Sound, WithinLoad, Idle, Quiet, Fits, Begun;
      ghost var from := manager.index;
      ok := manager.MakeNext(blank);
      if ok {
        ok := Rehash(from, draining);
      }
    }

    /** The first `i` of the `cap` slots of the buffer at `from`, which held `m` as in `s`, have been moved. */
    ghost predicate Draining(s: seq<Bucket<K, V>>, cap: nat, i: nat, m: map<K, V>, from: nat, draining: set<nat>)
      requires |s| == cap + 1 && i <= cap
      reads this, manager, manager.buffers, buckets
    {
      && manager.Valid() && Core() && IdleBut(draining + {from})
      && Spared(draining + {from}, manager.index, m.Keys, capacity)
      && from < |manager.buffers| && Drained(manager.buffers[from][..], s, cap, i)
      && Moved(s, cap, i, m, contents)
    }

    method MarkDrained(oldBuckets: array<Bucket<K, V>>, ghost s: seq<Bucket<K, V>>, ghost cap: nat,
                       i: nat, ghost m: map<K, V>, ghost from: nat, ghost draining: set<nat>)
      requires |s| == cap + 1 && i < cap && from !in draining
      requires manager.Valid() && from < |manager.buffers| && manager.buffers[from] == oldBuckets
      requires Core() && IdleBut(draining + {from}) && Spared(draining + {from}, manager.index, m.Keys, capacity)
      requires Drained(oldBuckets[..], s, cap, i)
      requires Moved(s, cap, i + 1, m, contents)
      modifies oldBuckets
      ensures Draining(s, cap, i + 1, m, from, draining)
      ensures forall j :: j in draining ==>
                j < |manager.buffers| && manager.buffers[j][..] == old(manager.buffers[j][..])
    {
      hide Sound, WithinLoad, Idle, Moved;
      oldBuckets[i] := oldBuckets[i].(dib := EMPTY);
      assert buckets != oldBuckets;
      assert Drained(oldBuckets[..], s, cap, i + 1);
      assert Core();
    }

    /** An empty slot is passed over; any other holds an element that is still to be moved. */
    lemma DrainingFacts(s: seq<Bucket<K, V>>, home: K -> nat, cap: nat, i: nat, m: map<K, V>, from: nat,
                        draining: set<nat>)
      requires |s| == cap + 1 && i < cap && Sound(home, s, cap, m) && Draining(s, cap, i, m, from, draining)
      ensures from < |manager.buffers| && manager.buffers[from].Length == cap + 1 && manager.buffers[from][i] == s[i]
      ensures s[i].dib == EMPTY ==> Draining(s, cap, i + 1, m, from, draining)
      ensures s[i].dib != EMPTY ==> Moved(s, cap, i + 1, m, contents[s[i].key := s[i].val])
      ensures s[i].dib != EMPTY ==> contents.Keys + {s[i].key} <= m.Keys
    {
      hide Sound, WithinLoad, Idle, Moved, Core, IdleBut, Spared;
      if s[i].dib == EMPTY {
        MovedPastEmpty(s, cap, i, m, contents);
      } else {
        MovedOne(home, s, cap, i, m, contents);
        MovedKeys(s, cap, i + 1, m, contents, s[i].key, s[i].val);
      }
    }

    /** Moves the element of one slot, if it has one. */
    method DrainSlot(oldBuckets: array<Bucket<K, V>>, ghost s: seq<Bucket<K, V>>, ghost home: K -> nat, ghost cap: nat,
                     i: nat, ghost m: map<K, V>, ghost from: nat, ghost draining: set<nat>) returns (ok: bool)
      requires |s| == cap + 1 && i < cap && from !in draining && Sound(home, s, cap, m)
      requires manager.Valid() && from < |manager.buffers| && manager.buffers[from] == oldBuckets
      requires Draining(s, cap, i, m, from, draining)
      modifies this, manager, manager.buffers
      ensures manager.Valid()
      ensures Grew(old(manager.buffers), old(manager.index), manager.buffers, manager.index)
      ensures forall j :: |old(manager.buffers)| <= j < |manager.buffers| ==> fresh(manager.buffers[j])
      ensures forall j :: j in draining ==> manager.buffers[j][..] == old(manager.buffers[j][..])
      ensures ok ==> Draining(s, cap, i + 1, m, from, draining)
      ensures !ok ==> |manager.buffers| == manager.limit
      ensures Fits(m.Keys) ==> ok
      ensures Quiet(m.Keys, manager.Capacity(old(manager.index))) ==> manager.index == old(manager.index)
      decreases manager.limit - |manager.buffers|, |manager.buffers| - manager.index, 4
    {
      DrainingFacts(s, home, cap, i, m, from, draining);
      assert capacity == manager.Capacity(manager.index);
      hide Sound, WithinLoad, Idle, Moved, Draining, Core, IdleBut, Spared, Quiet, Fits;
      if oldBuckets[i].dib == EMPTY {
        return true;
      }
      QuietIsMonotone(contents.Keys + {s[i].key}, m.Keys, capacity);
      FitsIsMonotone(contents.Keys + {s[i].key}, m.Keys);
      ok := DrainElement(oldBuckets, s, cap, i, m, from, draining);
    }

    /** Inserts the element of one slot into the current buffer, and marks the slot empty. */
    method DrainElement(oldBuckets: array<Bucket<K, V>>, ghost s: seq<Bucket<K, V>>, ghost cap: nat,
                        i: nat, ghost m: map<K, V>, ghost from: nat, ghost draining: set<nat>) returns (ok: bool)
      requires |s| == cap + 1 && i < cap && from !in draining
      requires manager.Valid() && from < |manager.buffers| && manager.buffers[from] == oldBuckets
      requires Draining(s, cap, i, m, from, draining)
      requires Moved(s, cap, i + 1, m, contents[s[i].key := s[i].val])
      requires Quiet(m.Keys, manager.Capacity(manager.index)) ==> Quiet(contents.Keys + {s[i].key}, capacity)
      requires Fits(m.Keys) ==> Fits(contents.Keys + {s[i].key})
      modifies this, manager, manager.buffers
      ensures manager.Valid()
      ensures Grew(old(manager.buffers), old(manager.index), manager.buffers, manager.index)
      ensures forall j :: |old(manager.buffers)| <= j < |manager.buffers| ==> fresh(manager.buffers[j])
      ensures forall j :: j in draining ==> manager.buffers[j][..] == old(manager.buffers[j][..])
      ensures ok ==> Draining(s, cap, i + 1, m, from, draining)
      ensures !ok ==> |manager.buffers| == manager.limit
      ensures Fits(m.Keys) ==> ok
      ensures Quiet(m.Keys, manager.Capacity(old(manager.index))) ==> manager.index == old(manager.index)
      decreases manager.limit - |manager.buffers|, |manager.buffers| - manager.index, 3
    {
      assert Core() && IdleBut(draining + {from}) && Spared(draining + {from}, manager.index, m.Keys, capacity);
      assert Drained(oldBuckets[..], s, cap, i) && oldBuckets[..][i] == s[i];
      hide Sound, WithinLoad, Idle, Moved, IdleBut, Spared, Quiet, Fits, Drained, Draining;
      ok := EmplaceSparing(oldBuckets, oldBuckets[i].key, oldBuckets[i].val, m.Keys, from, draining);
      if ok {
        MarkDrained(oldBuckets, s, cap, i, m, from, draining);
      }
    }

    /** Inserts a binding while the buffer at `from` is being read, which keeps its contents. */
    method EmplaceSparing(oldBuckets: array<Bucket<K, V>>, key: K, val: V, ghost keys: set<K>, ghost from: nat,
                          ghost draining: set<nat>)
      returns (ok: bool)
      requires manager.Valid() && from < |manager.buffers| && manager.buffers[from] == oldBuckets
      requires Core() && IdleBut(draining + {from}) && Spared(draining + {from}, manager.index, keys, capacity)
      requires Quiet(keys, manager.Capacity(manager.index)) ==> Quiet(contents.Keys + {key}, capacity)
      requires Fits(keys) ==> Fits(contents.Keys + {key})
      modifies this, manager, manager.buffers
      ensures manager.Valid()
      ensures Grew(old(manager.buffers), old(manager.index), manager.buffers, manager.index)
      ensures forall j :: |old(manager.buffers)| <= j < |manager.buffers| ==> fresh(manager.buffers[j])
      ensures forall j :: j in draining ==> manager.buffers[j][..] == old(manager.buffers[j][..])
      ensures from < |manager.buffers| && manager.buffers[from] == oldBuckets && oldBuckets[..] == old(oldBuckets[..])
      ensures ok ==> Core() && IdleBut(draining + {from}) && Spared(draining + {from}, manager.index, keys, capacity)
      ensures ok ==> contents == old(contents)[key := val]
      ensures !ok ==> |manager.buffers| == manager.limit
      ensures Fits(keys) ==> ok
      ensures Quiet(keys, manager.Capacity(old(manager.index))) ==> manager.index == old(manager.index)
      decreases manager.limit - |manager.buffers|, |manager.buffers| - manager.index, 2
    {
      hide Sound, WithinLoad, Idle, Quiet, Fits, Begun, Blank;
      assert from in draining + {from};
      ok := Emplace(key, val, draining + {from});
    }

    /** Begins an empty table in the manager's current buffer. */
    method Adopt(ghost from: nat, ghost draining: set<nat>)
      requires manager.Valid() && from < |manager.buffers| && from != manager.index
      requires buckets == manager.buffers[from] && Slots()
      requires IdleBut(draining + {from})
      requires Spared(draining + {from}, manager.index, contents.Keys, manager.Capacity(manager.index))
      modifies this, manager.buffers[manager.index]
      ensures capacity == manager.Capacity(manager.index) && contents == map[]
      ensures Draining(old(buckets[..]), old(capacity), 0, old(contents), from, draining)
    {
      hide WithinLoad, Idle, Placed, Stepped, Distinct, Holds, BitAnd;
      MovedNone(Home(hash, mask), buckets[..], capacity, contents);
      buckets := manager.buffers[manager.index];
      capacity := buckets.Length - 1;
      assert capacity == manager.Capacity(manager.index);
      Init();
    }

    /** Moves every element of the buffer at `from` into the manager's current one. */
    method Rehash(ghost from: nat, ghost draining: set<nat>) returns (ok: bool)
      requires manager.Valid() && from < |manager.buffers| && from != manager.index
      requires buckets == manager.buffers[from] && Slots() && |contents| >= 1
      requires IdleBut(draining + {from}) && from !in draining
      requires Spared(draining + {from}, manager.index, contents.Keys, manager.Capacity(manager.index))
      modifies this, manager, manager.buffers
      ensures manager.Valid()
      ensures Grew(old(manager.buffers), old(manager.index), manager.buffers, manager.index)
      ensures forall i :: |old(manager.buffers)| <= i < |manager.buffers| ==> fresh(manager.buffers[i])
      ensures forall i :: i in draining ==> manager.buffers[i][..] == old(manager.buffers[i][..])
      ensures ok ==> Core() && IdleBut(draining) && manager.index !in draining
      ensures ok ==> contents == old(contents) && Begun()
      ensures Fits(old(contents).Keys) ==> ok
      ensures !ok ==> |manager.buffers| == manager.limit
      ensures Quiet(old(contents).Keys, manager.Capacity(old(manager.index))) <==>
                ok && manager.index == old(manager.index)
      decreases manager.limit - |manager.buffers|, |manager.buffers| - manager.index, 6
    {
      hide Sound, WithinLoad, Idle, Moved;
      var oldBuckets, oldCapacity := buckets, capacity;
      ghost var home, s, m := Home(hash, mask), buckets[..], contents;
      FitsIfQuiet(m.Keys);
      Adopt(from, draining);
      ok := DrainAll(oldBuckets, s, home, oldCapacity, m, from, draining);
      if ok {
        Finish(s, home, oldCapacity, m, from, draining);
        CoreIsQuiet();
      }
    }

    method DrainAll(oldBuckets: array<Bucket<K, V>>, ghost s: seq<Bucket<K, V>>, ghost home: K -> nat, oldCapacity: nat,
                    ghost m: map<K, V>, ghost from: nat, ghost draining: set<nat>) returns (ok: bool)
      requires |s| == oldCapacity + 1 && from !in draining && Sound(home, s, oldCapacity, m)
      requires manager.Valid() && from < |manager.buffers| && manager.buffers[from] == oldBuckets
      requires Draining(s, oldCapacity, 0, m, from, draining)
      requires forall j :: j in draining ==> j < |manager.buffers|
      modifies this, manager, manager.buffers
      ensures manager.Valid()
      ensures Grew(old(manager.buffers), old(manager.index), manager.buffers, manager.index)
      ensures forall j :: |old(manager.buffers)| <= j < |manager.buffers| ==> fresh(manager.buffers[j])
      ensures forall j :: j in draining ==> manager.buffers[j][..] == old(manager.buffers[j][..])
      ensures ok ==> Draining(s, oldCapacity, oldCapacity, m, from, draining)
      ensures !ok ==> |manager.buffers| == manager.limit
      ensures Fits(m.Keys) ==> ok
      ensures Quiet(m.Keys, manager.Capacity(old(manager.index))) ==> manager.index == old(manager.index)
      decreases manager.limit - |manager.buffers|, |manager.buffers| - manager.index, 5
    {
      hide Sound, WithinLoad, Idle, Moved, Draining, Quiet, Fits;
      ok := true;
      for i := 0 to oldCapacity
        invariant manager.Valid() && Grew(old(manager.buffers), old(manager.index), manager.buffers, manager.index)
        invariant forall j :: |old(manager.buffers)| <= j < |manager.buffers| ==> fresh(manager.buffers[j])
        invariant forall j :: j in draining ==> j < |old(manager.buffers)|
        invariant forall j :: j in draining ==> manager.buffers[j][..] == old(manager.buffers[j][..])
        invariant Draining(s, oldCapacity, i, m, from, draining)
        invariant Quiet(m.Keys, manager.Capacity(old(manager.index))) ==> manager.index == old(manager.index)
      {
        ok := DrainSlot(oldBuckets, s, home, oldCapacity, i, m, from, draining);
        if !ok {
          return;
        }
      }
      ok := true;
    }

    /** Leaves the drained buffer idle and begins the iteration at some filled bucket. */
    method Finish(ghost s: seq<Bucket<K, V>>, ghost home: K -> nat, ghost cap: nat, ghost m: map<K, V>,
                  ghost from: nat, ghost draining: set<nat>)
      requires |s| == cap + 1 && from !in draining && Sound(home, s, cap, m) && |m| >= 1
      requires Draining(s, cap, cap, m, from, draining)
      modifies `begin
      ensures Core() && IdleBut(draining) && manager.index !in draining && contents == m && Begun()
    {
      hide Sound, WithinLoad, Idle, Moved;
      MovedAll(s, cap, m, contents);
      DrainedIsIdle(home, s, manager.buffers[from][..], cap, m);
      SomeFilled(Home(hash, mask), buckets[..], capacity, contents);
      var filled: nat :| filled < capacity && buckets[filled].dib != EMPTY;
      begin := filled;
      assert forall i :: 0 <= i < |manager.buffers| && i != manager.index && i !in draining ==>
        i == from || i !in draining + {from};
    }

    // ---------- lookup, removal, clearing ----------

    /** The loop of a search for the key ends. */
    ghost predicate SearchEnds(key: K)
      requires Slots()
      reads this, buckets
    {
      Ends(Home(hash, mask), buckets[..], capacity, key)
    }

    /** It ends at an empty bucket, with its counter at the mark of one, and takes what is left there for the key. */
    ghost predicate SearchFooled(key: K)
      requires Slots()
      reads this, buckets
    {
      Fooled(Home(hash, mask), buckets[..], capacity, key)
    }

    /** The key is present, or the slot 254 steps from its initial bucket is not at the top of the 8-bit distance. */
    ghost predicate CounterSafe(key: K)
      requires Slots()
      reads this, buckets
    {
      key in contents || capacity < 255 || buckets[At(capacity, BitAnd(hash(key), mask), 254)].dib < 255
    }

    /** The counter of a search wraps exactly when the search is not counter-safe, */
    lemma CounterWrapsIff(key: K)
      requires Core()
      ensures Turning(Home(hash, mask), buckets[..], capacity, key, 255) <==> !CounterSafe(key)
    {
      hide SoundBut, BitAnd, WithinLoad, Turning;
      LoadLeavesRoom(size, capacity, level);
      WrapsIff(Home(hash, mask), buckets[..], capacity, contents, key);
      if capacity >= 255 {
        AtMostTop(Home(hash, mask), buckets[..], capacity, contents, At(capacity, BitAnd(hash(key), mask), 254));
      }
    }

    /** and a search that is ends, and is not fooled. */
    lemma CounterSafeEnds(key: K)
      requires Core() && CounterSafe(key)
      ensures SearchEnds(key) && !SearchFooled(key)
    {
      hide SoundBut, BitAnd, WithinLoad, Turning, Ends, Fooled, CounterSafe;
      CounterWrapsIff(key);
      UnwrappedEnds(Home(hash, mask), buckets[..], capacity, contents, key);
    }

    /** The search for a key that the current buffer has room for is counter-safe. */
    lemma SpreadIsCounterSafe(key: K)
      requires Core() && Spread(Home(hash, mask), capacity, contents.Keys + {key})
      ensures CounterSafe(key)
    {
      hide SoundBut, BitAnd, WithinLoad, Spread;
      if !CounterSafe(key) {
        LoadLeavesRoom(size, capacity, level);
        var e := EmptyExists(Home(hash, mask), buckets[..], capacity, contents);
        AtMostTop(Home(hash, mask), buckets[..], capacity, contents, At(capacity, BitAnd(hash(key), mask), 254));
        TopIsCrowded(Home(hash, mask), buckets[..], capacity, contents, key, e);
      }
    }

    lemma SmallIsCounterSafe(key: K)
      requires Core() && size <= 254
      ensures CounterSafe(key)
    {
      hide SoundBut, BitAnd, WithinLoad, Spread;
      FewAreSpread(Home(hash, mask), capacity, contents.Keys + {key});
      SpreadIsCounterSafe(key);
    }

    /** At a load factor of level seven or less every search ends. */
    lemma SearchesEnd(key: K)
      requires Core() && level <= 7
      ensures SearchEnds(key)
    {
      hide SoundBut, BitAnd, WithinLoad, Ends;
      LoadOfSeven(size, capacity, level);
      LoadEnds(Home(hash, mask), buckets[..], capacity, contents, key);
    }

    /** The slot of a key, or `capacity` (the end) when the table does not have it, unless the search is fooled. */
    method Find(key: K) returns (p: nat)
      requires Valid() && SearchEnds(key)
      ensures p <= capacity
      ensures p < capacity <==> key in contents || SearchFooled(key)
      ensures p < capacity ==> buckets[p].key == key && (buckets[p].dib > EMPTY <==> key in contents)
      ensures key in contents ==> buckets[p].val == contents[key]
    {
      var found;
      p, found := Probe(key);
      if !found {
        p := capacity;
      }
    }

    /** Skips buckets with higher distance or different key. */
    method Probe(key: K) returns (p: nat, found: bool)
      requires Core() && SearchEnds(key)
      ensures p < capacity
      ensures found <==> key in contents || SearchFooled(key)
      ensures found ==> buckets[p].key == key && (buckets[p].dib > EMPTY <==> key in contents)
      ensures key in contents ==> buckets[p].val == contents[key] && !SearchFooled(key)
    {
      hide SoundBut, Increment, BitAnd, Next, Fooled, WithinLoad;
      ghost var home, s := Home(hash, mask), buckets[..];
      LoadLeavesRoom(size, capacity, level);
      ghost var last: nat :| !ProbeGoesOn(s, key, ProbeAt(capacity, home(key), last));
      ghost var n: nat := 0;
      var dib: nat := FILLED;
      p := BitAnd(hash(key), mask);
      while dib < buckets[p].dib || (dib == buckets[p].dib && key != buckets[p].key)
        invariant p < capacity && (p, dib) == ProbeAt(capacity, home(key), n)
        invariant n <= last && Turning(home, s, capacity, key, n)
        decreases last - n
      {
        dib := Increment(dib);
        p := Next(capacity, p);
        n := n + 1;
      }
      found := dib == buckets[p].dib;
      ProbeOutcome(home, s, capacity, contents, key, n);
      if found && key in contents {
        HitIsStored(home, s, capacity, contents, p);
      }
    }

    /** The backward shift over slot `p` ends at slot `q`. */
    ghost predicate ShiftEndsAt(p: nat, q: nat)
      requires capacity + 1 == buckets.Length && p < capacity && q < capacity
      reads `capacity, `buckets, buckets
    {
      ShiftsTo(buckets[..], capacity, p, q)
    }

    /** Removing the element at `p` goes back to the previous buffer. */
    ghost predicate Shrinks(p: nat)
      requires Slots() && p < capacity
      reads this, manager, buckets
    {
      && begin < capacity && ShiftEndsAt(p, begin)
      && size >= 2 && 2 * (size - 1) < capacity / 2
      && manager.index > 0
    }

    /** If it does so out of the last buffer, the keys that are left have room in the previous one. What happens
        otherwise is in `RobinShrink.ShrinkOverflow`. */
    ghost predicate ShrinkSafe(p: nat)
      requires Slots() && p < capacity
      reads this, manager, buckets
    {
      Shrinks(p) && manager.Last() ==> Quiet(contents.Keys - {buckets[p].key}, manager.Capacity(manager.index - 1))
    }

    ghost predicate EraseSafe(key: K)
      requires Slots()
      reads this, manager, buckets
    {
      forall p :: 0 <= p < capacity && buckets[p].dib > EMPTY && buckets[p].key == key ==> ShrinkSafe(p)
    }

    lemma SmallIsEraseSafe(key: K)
      requires Core() && size <= 256
      ensures EraseSafe(key)
    {
      hide SoundBut, BitAnd, WithinLoad, Spread, ShiftEndsAt;
      forall p | 0 <= p < capacity && buckets[p].dib > EMPTY && buckets[p].key == key && Shrinks(p) && manager.Last()
        ensures Quiet(contents.Keys - {key}, manager.Capacity(manager.index - 1))
      {
        RoomToShrink(p);
        FewAreSpread(Home(hash, manager.Capacity(manager.index - 1) - 1), manager.Capacity(manager.index - 1),
                     contents.Keys - {key});
      }
    }

    /** As far as the load factor goes there always is room for a shrink. */
    lemma RoomToShrink(p: nat)
      requires Core() && p < capacity && buckets[p].dib > EMPTY && Shrinks(p)
      ensures |contents.Keys - {buckets[p].key}| == size - 1 && 2 * size <= manager.Capacity(manager.index - 1)
      ensures WithinLoad(size - 1, manager.Capacity(manager.index - 1), level)
      ensures WithinLoad(size, manager.Capacity(manager.index - 1), level)
    {
      hide SoundBut, BitAnd, WithinLoad, ShiftEndsAt;
      HitIsStored(Home(hash, mask), buckets[..], capacity, contents, p);
      assert |contents.Keys - {buckets[p].key}| == |contents.Keys| - 1 == |contents| - 1;
      assert capacity == 2 * manager.Capacity(manager.index - 1);
      HalfIsWithinLoad(size, manager.Capacity(manager.index - 1), level);
      HalfIsWithinLoad(size - 1, manager.Capacity(manager.index - 1), level);
    }

    /** In every buffer whose load the keys are within, they and one more are spread. */
    ghost predicate Scattered(keys: set<K>, key: K) {
      forall i: nat :: i < manager.limit && WithinLoad(|keys|, manager.Capacity(i), level) ==>
        Spread(Home(hash, manager.Capacity(i) - 1), manager.Capacity(i), keys + {key})
    }

    lemma FewAreScattered(keys: set<K>, key: K)
      requires |keys| <= 254
      ensures Scattered(keys, key)
    {
      hide Spread, WithinLoad;
      forall i: nat | i < manager.limit
        ensures Spread(Home(hash, manager.Capacity(i) - 1), manager.Capacity(i), keys + {key})
      {
        FewAreSpread(Home(hash, manager.Capacity(i) - 1), manager.Capacity(i), keys + {key});
      }
    }

    /** Where the keys are scattered, no search wraps its counter and no removal shrinks into a buffer without room. */
    lemma ScatteredIsSafe(key: K)
      requires Core() && Scattered(contents.Keys, key)
      ensures CounterSafe(key) && EraseSafe(key)
    {
      hide SoundBut, BitAnd, WithinLoad, Spread, ShiftEndsAt, CounterSafe, Scattered, Quiet;
      ScatteredHere(contents.Keys, key, manager.index);
      SpreadIsCounterSafe(key);
      forall p | 0 <= p < capacity && buckets[p].dib > EMPTY && buckets[p].key == key ensures ShrinkSafe(p) {
        ScatteredShrink(p);
      }
    }

    lemma ScatteredShrink(p: nat)
      requires Core() && p < capacity && buckets[p].dib > EMPTY && Scattered(contents.Keys, buckets[p].key)
      ensures ShrinkSafe(p)
    {
      hide SoundBut, BitAnd, WithinLoad, Spread, ShiftEndsAt, Scattered, Quiet;
      if Shrinks(p) {
        RoomToShrink(p);
        ScatteredHere(contents.Keys, buckets[p].key, manager.index - 1);
        QuietWithout(contents.Keys, buckets[p].key, manager.Capacity(manager.index - 1));
      }
    }

    lemma ScatteredHere(keys: set<K>, key: K, i: nat)
      requires Scattered(keys, key) && i < manager.limit && WithinLoad(|keys|, manager.Capacity(i), level)
      ensures Spread(Home(hash, manager.Capacity(i) - 1), manager.Capacity(i), keys + {key})
    {
    }

    lemma QuietWithout(keys: set<K>, key: K, cap: nat)
      requires cap >= 1 && Spread(Home(hash, cap - 1), cap, keys + {key}) && WithinLoad(|keys - {key}|, cap, level)
      ensures Quiet(keys - {key}, cap)
    {
      hide Spread, WithinLoad;
      FewerAreSpread(Home(hash, cap - 1), cap, keys - {key}, keys + {key});
    }

    method Erase(key: K)
      requires Valid() && SearchEnds(key) && !SearchFooled(key) && EraseSafe(key)
      modifies this, manager, manager.buffers
      ensures Valid() && contents == old(contents) - {key}
      ensures Extends(old(manager.buffers), manager.buffers)
      ensures forall i :: |old(manager.buffers)| <= i < |manager.buffers| ==> fresh(manager.buffers[i])
    {
      hide SoundBut, WithinLoad, Idle, ShrinkSafe, Ends, Fooled;
      var p, found := Probe(key);
      if found {
        ShiftBuckets(p);
      }
    }

    /** Removes the element at `p`, and shrinks the table when iteration began where the shift ends and it is sparse. */
    method ShiftBuckets(p: nat)
      requires Valid() && p < capacity && buckets[p].dib > EMPTY && ShrinkSafe(p)
      modifies this, manager, manager.buffers
      ensures Valid() && contents == old(contents) - {old(buckets[p].key)}
      ensures Extends(old(manager.buffers), manager.buffers)
      ensures forall i :: |old(manager.buffers)| <= i < |manager.buffers| ==> fresh(manager.buffers[i])
    {
      hide SoundBut, Sound, WithinLoad, Idle, Quiet, ShiftEndsAt, Shifting, Dist, BitAnd;
      var prec := CloseGap(p);
      KeysWithout(old(contents), old(buckets[p].key));
      if prec == begin {
        if size == 0 {
          begin := capacity;
        } else if 2 * size < capacity / 2 {
          Shrink();
        }
      }
    }

    /** Goes back to the previous buffer, if there is one, with every element. */
    method Shrink()
      requires Valid() && size >= 1 && 2 * size < capacity / 2
      requires manager.index > 0 && manager.Last() ==> Quiet(contents.Keys, manager.Capacity(manager.index - 1))
      modifies this, manager, manager.buffers
      ensures Valid() && contents == old(contents)
      ensures Extends(old(manager.buffers), manager.buffers)
      ensures forall i :: |old(manager.buffers)| <= i < |manager.buffers| ==> fresh(manager.buffers[i])
    {
      hide Sound, WithinLoad, Idle, Quiet, Fits;
      CoreIsQuiet();
      FitsIfQuiet(contents.Keys);
      ghost var from := manager.index;
      var ok := manager.MakePrev();
      if ok {
        assert {} + {from} == {from};
        ok := Rehash(from, {});
      }
    }

    /** Shifts the buckets after `p` backwards over it, and empties the last one shifted. */
    method CloseGap(p: nat) returns (prec: nat)
      requires Core() && p < capacity && capacity + 1 == buckets.Length && buckets[p].dib > EMPTY
      modifies buckets, `size, `contents
      ensures prec < capacity && old(ShiftEndsAt(p, prec)) && Dist(capacity, p, prec) + 1 < capacity
      ensures Shifting(old(buckets[..]), buckets[..], capacity, p, prec)
      ensures Core() && contents == old(contents) - {old(buckets[p].key)} && size == old(size) - 1
    {
      hide SoundBut, WithinLoad, Next, Dist, ShiftEndsAt, BitAnd, Shifting;
      ghost var home := Home(hash, mask);
      LoadLeavesRoom(size, capacity, level);
      ghost var e := EmptyExists(home, buckets[..], capacity, contents);
      HitIsStored(home, buckets[..], capacity, contents, p);
      OpenHole(home, buckets[..], capacity, contents, p);
      assert size >= 1 && |contents - {buckets[p].key}| == |contents| - 1;
      LoadIsMonotone(size - 1, size, capacity, level);
      contents := contents - {buckets[p].key};
      size := size - 1;
      ghost var s := buckets[..];
      prec := ShiftRun(p, e);
      ghost var t := buckets[..];
      CloseAt(prec);
      ShiftedClosed(s, t, buckets[..], capacity, p, prec);
    }

    method ShiftRun(p: nat, ghost e: nat) returns (prec: nat)
      requires capacity + 1 == buckets.Length && p < capacity && buckets[p].dib > EMPTY
      requires SoundBut(Home(hash, mask), buckets[..], capacity, p, contents)
      requires e < capacity && buckets[e].dib == EMPTY
      modifies buckets
      ensures prec < capacity && buckets[Next(capacity, prec)].dib <= FILLED
      ensures SoundBut(Home(hash, mask), buckets[..], capacity, prec, contents)
      ensures old(ShiftEndsAt(p, prec)) && Dist(capacity, p, prec) + 1 < capacity
      ensures Shifting(old(buckets[..]), buckets[..], capacity, p, prec)
    {
      hide SoundBut, Next, Dist, At, ShiftsTo;
      ghost var s := buckets[..];
      prec := p;
      var succ := Next(capacity, prec);
      ShiftBegins(s, capacity, p);
      while buckets[succ].dib > FILLED
        invariant prec < capacity && succ == Next(capacity, prec) && prec != e
        invariant buckets[e].dib == EMPTY && buckets[prec].dib > EMPTY
        invariant SoundBut(Home(hash, mask), buckets[..], capacity, prec, contents)
        invariant Shifting(s, buckets[..], capacity, p, prec)
        decreases Dist(capacity, prec, e)
      {
        NextIsNearer(capacity, prec, e);
        ghost var t := buckets[..];
        ShiftOne(prec, succ);
        ShiftedOne(s, t, buckets[..], capacity, p, prec, e);
        prec := succ;
        succ := Next(capacity, succ);
      }
      ShiftEnds(s, buckets[..], capacity, p, prec, e);
    }

    method CloseAt(prec: nat)
      requires capacity + 1 == buckets.Length && prec < capacity && buckets[Next(capacity, prec)].dib <= FILLED
      requires SoundBut(Home(hash, mask), buckets[..], capacity, prec, contents)
      modifies buckets
      ensures Sound(Home(hash, mask), buckets[..], capacity, contents)
      ensures buckets[..] == old(buckets[..])[prec := old(buckets[prec]).(dib := EMPTY)]
    {
      hide SoundBut, Next;
      ghost var s := buckets[..];
      SentinelFilled(Home(hash, mask), s, capacity, prec, contents);
      CloseHole(Home(hash, mask), s, capacity, contents, prec);
      buckets[prec] := buckets[prec].(dib := EMPTY);
      assert buckets[..] == s[prec := s[prec].(dib := EMPTY)];
    }

    method ShiftOne(prec: nat, succ: nat)
      requires capacity + 1 == buckets.Length && prec < capacity && succ == Next(capacity, prec) && prec != succ
      requires SoundBut(Home(hash, mask), buckets[..], capacity, prec, contents)
      requires buckets[prec].dib > EMPTY && buckets[succ].dib > FILLED
      modifies buckets
      ensures SoundBut(Home(hash, mask), buckets[..], capacity, succ, contents)
      ensures forall q :: 0 <= q < capacity && q != prec ==> buckets[q] == old(buckets[q])
    {
      hide SoundBut, Next;
      ghost var s := buckets[..];
      MoveHole(Home(hash, mask), s, capacity, contents, prec);
      buckets[prec] := Bucket(buckets[succ].dib - 1, buckets[succ].key, buckets[succ].val);
      assert buckets[..] == s[prec := Bucket(s[succ].dib - 1, s[succ].key, s[succ].val)];
    }

    /** Empties the table and goes back to the stack buffer, which is not initialised again. */
    method Clear()
      requires Valid()
      modifies this, manager, buckets
      ensures Valid() && contents == map[] && manager.index == 0 && manager.buffers == old(manager.buffers)
    {
      hide SoundBut, WithinLoad, BitAnd, Idle;
      SentinelFilled(Home(hash, mask), buckets[..], capacity, capacity, contents);
      EmptySlots();
      ghost var all := manager.buffers;
      assert forall i :: 0 <= i < |all| ==> Idle(all[i][..]);
      label Emptied:
      begin := capacity;
      size := 0;
      contents := map[];
      GoBack();
      assert forall i :: 0 <= i < |all| ==> all[i][..] == old@Emptied(all[i][..]);
      IdleIsValid();
    }

    method GoBack()
      requires manager.Valid() && buckets == manager.buffers[manager.index]
      requires capacity == buckets.Length - 1 && mask == capacity - 1 && begin == capacity
      modifies manager, `buckets, `capacity, `mask, `begin
      ensures manager.Valid() && manager.index == 0 && manager.buffers == old(manager.buffers)
      ensures buckets == manager.buffers[0] && capacity == buckets.Length - 1 && capacity >= 2
      ensures mask == capacity - 1 && begin == capacity
    {
      var prev := manager.MakePrev();
      if prev {
        while prev
          invariant manager.Valid() && manager.index < old(manager.index) && manager.buffers == old(manager.buffers)
          invariant !prev ==> manager.index == 0
          modifies manager
          decreases prev, manager.index
        {
          prev := manager.MakePrev();
        }
        buckets := manager.buffers[manager.index];
        capacity := buckets.Length - 1;
        mask := capacity - 1;
        begin := capacity;
      }
      assert manager.Capacity(0) == capacity;
    }

    lemma IdleIsValid()
      requires manager.Valid() && level >= 1 && buckets == manager.buffers[manager.index]
      requires capacity == buckets.Length - 1 && capacity >= 2 && mask == capacity - 1 && begin == capacity
      requires size == 0 && contents == map[]
      requires forall i :: 0 <= i < |manager.buffers| ==> Idle(manager.buffers[i][..])
      ensures Valid()
    {
      hide SoundBut, WithinLoad, BitAnd, Idle;
      assert Idle(manager.buffers[manager.index][..]);
      IdleIsSound(Home(hash, mask), buckets[..], capacity);
      FirstIsWithinLoad(capacity, level);
    }

    method EmptySlots()
      requires capacity + 1 == buckets.Length && buckets[capacity].dib == FILLED
      modifies buckets
      ensures Idle(buckets[..])
    {
      for index := 0 to capacity
        invariant buckets[capacity].dib == FILLED
        invariant forall p :: 0 <= p < index ==> buckets[p].dib == EMPTY
      {
        buckets[index] := buckets[index].(dib := EMPTY);
      }
    }
  }
}
