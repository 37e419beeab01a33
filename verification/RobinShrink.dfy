/** A removal that shrinks the table out of the last buffer into one without room for the keys that are left. */
module RobinShrink {
  import opened Bits
  import opened RobinLayout
  import opened RobinSpread
  import opened RobinProbe
  import opened RobinTable
  import opened RobinLimits

  // ---------- what happens ----------

  /** The first `i` slots of the buffer at `from`, which held `m` as in `s`, have been moved to the current one. */
  ghost predicate Emptying<K(!new), V(!new)>(t: Table<K, V>, s: seq<Bucket<K, V>>, cap: nat, i: nat, m: map<K, V>,
                                             from: nat)
    requires |s| == cap + 1 && i <= cap
    reads t, t.manager, t.manager.buffers
  {
    && t.manager.Valid() && t.buckets in t.manager.buffers && t.Core() && t.IdleBut({from})
    && from < |t.manager.buffers| && from != t.manager.index && t.manager.buffers[from].Length == cap + 1
    && (forall p :: i <= p <= cap ==> t.manager.buffers[from][p] == s[p])
    && Moved(s, cap, i, m, t.contents)
  }

  method MarkMoved<K(==, !new), V(!new)>(t: Table<K, V>, drained: array<Bucket<K, V>>, ghost s: seq<Bucket<K, V>>,
                                         ghost cap: nat, i: nat, ghost m: map<K, V>, ghost from: nat)
    requires t.manager.Valid() && t.buckets in t.manager.buffers && t.Core() && t.IdleBut({from})
    requires from < |t.manager.buffers| && from != t.manager.index && drained == t.manager.buffers[from]
    requires |s| == cap + 1 && i < cap && drained.Length == cap + 1
    requires forall p :: i <= p <= cap ==> drained[p] == s[p]
    requires Moved(s, cap, i + 1, m, t.contents)
    modifies drained
    ensures Emptying(t, s, cap, i + 1, m, from)
  {
    hide Sound, Idle, WithinLoad, Moved;
    drained[i] := drained[i].(dib := EMPTY);
    assert t.buckets != drained;
    assert t.Core();
  }

  /** An insertion has stopped while the element of slot `i` was being moved: the elements up to that one are in the
      current buffer, but for `k` in hand. */
  ghost predicate Stopped<K(!new), V(!new)>(t: Table<K, V>, s: seq<Bucket<K, V>>, cap: nat, i: nat, m: map<K, V>,
                                            from: nat, k: K, v: V)
    requires |s| == cap + 1
    reads t, t.manager, t.manager.buffers
  {
    && t.manager.Valid() && t.buckets in t.manager.buffers && t.buckets == t.manager.buffers[t.manager.index]
    && t.Slots() && |t.contents| >= 1 && t.IdleBut({from})
    && i < cap && s[i].dib > EMPTY && Moved(s, cap, i + 1, m, t.contents[k := v])
  }

  /** One turn of the loop of a rehash, up to the point where the insertion asks for the next buffer. */
  method MoveOne<K(==, !new), V(!new)>(t: Table<K, V>, drained: array<Bucket<K, V>>, ghost s: seq<Bucket<K, V>>,
                                       ghost home: K -> nat, ghost cap: nat, i: nat, ghost m: map<K, V>,
                                       ghost from: nat)
    returns (done: bool, k: K, v: V)
    requires |s| == cap + 1 && i < cap && Sound(home, s, cap, m)
    requires t.manager.Valid() && from < |t.manager.buffers| && drained == t.manager.buffers[from]
    requires Emptying(t, s, cap, i, m, from)
    modifies t`contents, t`size, t`begin, t.buckets, drained
    ensures if done then Emptying(t, s, cap, i + 1, m, from) else Stopped(t, s, cap, i, m, from, k, v)
  {
    hide Sound, Idle, WithinLoad, Moved, Table.Quiet, Table.Blank, Table.Begun;
    done, k, v := true, drained[i].key, drained[i].val;
    if drained[i].dib == EMPTY {
      MovedPastEmpty(s, cap, i, m, t.contents);
    } else {
      MovedOne(home, s, cap, i, m, t.contents);
      done, k, v := t.Place(k, v, {from});
      if done {
        MarkMoved(t, drained, s, cap, i, m, from);
      }
    }
  }

  /** Moving elements into a buffer without room for all of them comes to an insertion that asks for the next buffer. */
  method MoveUntilFull<K(==, !new), V(!new)>(t: Table<K, V>, drained: array<Bucket<K, V>>, ghost s: seq<Bucket<K, V>>,
                                             ghost home: K -> nat, cap: nat, ghost m: map<K, V>, ghost from: nat)
    returns (slot: nat, k: K, v: V)
    requires |s| == cap + 1 && Sound(home, s, cap, m) && !t.Quiet(m.Keys, t.manager.Capacity(t.manager.index))
    requires t.manager.Valid() && from < |t.manager.buffers| && drained == t.manager.buffers[from]
    requires Emptying(t, s, cap, 0, m, from)
    modifies t`contents, t`size, t`begin, t.buckets, drained
    ensures Stopped(t, s, cap, slot, m, from, k, v)
  {
    hide Sound, Emptying, Stopped, Table.Quiet;
    k, v, slot := t.blank.key, t.blank.val, 0;
    for i := 0 to cap
      invariant Emptying(t, s, cap, i, m, from)
    {
      var done;
      done, k, v := MoveOne(t, drained, s, home, cap, i, m, from);
      if !done {
        return i, k, v;
      }
    }
    AllMovedIsQuiet(t, s, cap, m, from);
    assert false;
  }

  lemma AllMovedIsQuiet<K(!new), V(!new)>(t: Table<K, V>, s: seq<Bucket<K, V>>, cap: nat, m: map<K, V>, from: nat)
    requires |s| == cap + 1 && Emptying(t, s, cap, cap, m, from)
    ensures t.Quiet(m.Keys, t.manager.Capacity(t.manager.index))
  {
    hide Sound, Idle, WithinLoad, Moved, Table.Quiet;
    MovedAll(s, cap, m, t.contents);
    t.CoreIsQuiet();
  }

  /** The removal itself ends where iteration begins, and leaves few enough elements for a shrink. */
  method RemoveAt<K(==, !new), V(!new)>(t: Table<K, V>, p: nat)
    requires t.Valid() && p < t.capacity && t.buckets[p].dib > EMPTY && !t.ShrinkSafe(p)
    modifies t.buckets, t`contents, t`size
    ensures t.Valid() && t.contents == old(t.contents) - {old(t.buckets[p].key)}
    ensures t.size >= 1 && 2 * t.size < t.capacity / 2 && t.manager.index > 0 && t.manager.Last()
    ensures !t.Quiet(t.contents.Keys, t.manager.Capacity(t.manager.index - 1))
  {
    hide Sound, Idle, WithinLoad, Table.Quiet, ShiftsTo, Shifting;
    ghost var s := t.buckets[..];
    var prec := t.CloseGap(p);
    ShiftsOnce(s, t.capacity, p, prec, t.begin);
    assert prec == t.begin;
    assert t.contents.Keys == old(t.contents.Keys - {t.buckets[p].key});
  }

  /** The previous buffer becomes the current one, and is begun. */
  method StepBack<K(==, !new), V(!new)>(t: Table<K, V>)
    requires t.Valid() && t.manager.index > 0
    modifies t, t.manager, t.manager.buffers
    ensures t.manager.Valid() && t.manager.buffers == old(t.manager.buffers)
            && t.manager.index == old(t.manager.index) - 1
    ensures t.buckets in t.manager.buffers
    ensures Emptying(t, old(t.buckets[..]), old(t.capacity), 0, old(t.contents), old(t.manager.index))
  {
    hide Idle, WithinLoad, Placed, Stepped, Distinct, Holds, BitAnd;
    MovedNone(Home(t.hash, t.mask), t.buckets[..], t.capacity, t.contents);
    var prev := t.manager.MakePrev();
    t.buckets := t.manager.buffers[t.manager.index];
    t.capacity := t.buckets.Length - 1;
    t.Init();
  }

  /** The next buffer, when the current one is next to last, is the last one, and is begun. */
  method StepOn<K(==, !new), V(!new)>(t: Table<K, V>)
    requires t.manager.Valid() && t.level >= 1 && t.manager.index + 2 == |t.manager.buffers|
    modifies t, t.manager, t.manager.buffers
    ensures t.manager.index == old(t.manager.index) + 1 && t.buckets == old(t.manager.buffers)[t.manager.index]
    ensures Idle(t.buckets[..])
  {
    var ok := t.manager.MakeNext(t.blank);
    t.buckets := t.manager.buffers[t.manager.index];
    t.capacity := t.buckets.Length - 1;
    t.Init();
  }

  /** A removal that is not shrink-safe shrinks the table, comes to an insertion that asks for the next buffer, and
      gets the one that is being drained: the table is begun anew there, over the elements not moved yet. */
  method ShrinkOverflow<K(==, !new), V(!new)>(t: Table<K, V>, p: nat)
    requires t.Valid() && p < t.capacity && t.buckets[p].dib > EMPTY && !t.ShrinkSafe(p)
    modifies t, t.manager, t.manager.buffers
    ensures t.buckets == old(t.buckets) && t.manager.index == old(t.manager.index) && Idle(t.buckets[..])
  {
    hide SoundBut, WithinLoad, Idle, Table.Quiet, Table.Shrinks, Table.IdleBut, Emptying, Stopped;
    RemoveAt(t, p);
    var drained, cap := t.buckets, t.capacity;
    ghost var s, home, m, from := t.buckets[..], Home(t.hash, t.mask), t.contents, t.manager.index;
    StepBack(t);
    var slot, k, v := MoveUntilFull(t, drained, s, home, cap, m, from);
    StepOn(t);
  }

  // ---------- a table where it happens ----------

  /** Removes the elements behind the one where iteration begins, as far as its run goes, none of which is `kept`.
      None of these removals ends where iteration begins, so that none shrinks the table. */
  method RunDown<K(==, !new), V(!new)>(t: Table<K, V>, ghost kept: set<K>)
    requires t.Valid() && t.begin < t.capacity < t.buckets.Length && t.buckets[t.begin].dib > EMPTY
    requires kept <= t.contents.Keys && OutOfReach(Home(t.hash, t.mask), t.capacity, t.begin, kept)
    modifies t.buckets, t`contents, t`size
    ensures t.Valid() && t.begin < t.capacity < t.buckets.Length && t.buckets[t.begin].dib > EMPTY
    ensures t.buckets[Next(t.capacity, t.begin)].dib <= FILLED
    ensures kept <= t.contents.Keys <= old(t.contents.Keys)
  {
    hide SoundBut, Idle, WithinLoad, Table.Quiet, BitAnd, OutOfReach, Dist, At;
    var next := Next(t.capacity, t.begin);
    while t.buckets[next].dib > FILLED
      invariant t.Valid() && t.begin < t.capacity < t.buckets.Length && t.buckets[t.begin].dib > EMPTY
      invariant kept <= t.contents.Keys <= old(t.contents.Keys)
      decreases t.size
    {
      NotKept(t, kept, next);
      RemoveBehind(t);
    }
  }

  method RemoveBehind<K(==, !new), V(!new)>(t: Table<K, V>)
    requires t.Valid() && t.begin < t.capacity < t.buckets.Length && t.buckets[t.begin].dib > EMPTY
    requires t.buckets[Next(t.capacity, t.begin)].dib > FILLED
    modifies t.buckets, t`contents, t`size
    ensures t.Valid() && t.begin < t.capacity < t.buckets.Length && t.buckets[t.begin].dib > EMPTY
    ensures t.contents == old(t.contents) - {old(t.buckets[Next(t.capacity, t.begin)].key)} && t.size < old(t.size)
  {
    hide SoundBut, Idle, WithinLoad, Table.Quiet, BitAnd;
    var p := Next(t.capacity, t.begin);
    ghost var s := t.buckets[..];
    var prec := t.CloseGap(p);
    assert At(t.capacity, p, t.capacity - 1) == t.begin;
    assert t.buckets[..][t.begin] == s[t.begin];
  }

  /** No element with one of these keys can be in slot `p`, or in the one behind it. */
  ghost predicate OutOfReach<K(!new)>(home: K -> nat, cap: nat, p: nat, kept: set<K>)
    requires Homes(home, cap) && p < cap
  {
    forall k :: k in kept ==> Dist(cap, home(k), Next(cap, p)) >= 256
  }

  lemma NotKept<K(!new), V(!new)>(t: Table<K, V>, kept: set<K>, p: nat)
    requires t.Slots() && t.begin < t.capacity && OutOfReach(Home(t.hash, t.mask), t.capacity, t.begin, kept)
    requires p == t.begin || p == Next(t.capacity, t.begin)
    requires t.buckets[p].dib > EMPTY
    ensures t.buckets[p].key !in kept
  {
    hide Stepped, Distinct, Holds;
  }

  /** Four initial buckets, a quarter of 2048 slots apart; in 1024 slots they are two. */
  function Quarter(k: nat): nat {
    512 * (k % 4)
  }

  lemma TenPowers()
    ensures Pow2(10) == 1024 && Pow2(11) == 2048
  {
    NinePowers();
  }

  /** The masks of the two buffers. */
  lemma TwoMasks(x: nat)
    ensures BitAnd(x, 2047) == x % 2048 && BitAnd(x, 1023) == x % 1024
  {
    TenPowers();
    hide BitAnd, Pow2;
    MaskIsModulo(x, 10);
    MaskIsModulo(x, 11);
  }

  lemma QuarterModulo(q: nat)
    requires q < 4
    ensures (512 * q) % 2048 == 512 * q && (512 * q) % 1024 == 512 * (q % 2)
  {
  }

  lemma QuarterHomes(k: nat)
    ensures Home<nat>(Quarter, 2047)(k) == 512 * (k % 4) && Home<nat>(Quarter, 1023)(k) == 512 * (k % 2)
  {
    hide BitAnd;
    TwoMasks(Quarter(k));
    QuarterModulo(k % 4);
    Halved(k);
  }

  lemma Halved(k: nat)
    ensures (k % 4) % 2 == k % 2
  {
  }

  /** The first `n` naturals that leave `r` when divided by four. */
  ghost function Rest(n: nat, r: nat): (keys: set<nat>)
    ensures forall k: nat :: k in keys <==> k < n && k % 4 == r
  {
    set k: nat | k < n && k % 4 == r
  }

  lemma {:induction false} RestSize(i: nat, r: nat)
    requires r < 4
    ensures |Rest(4 * i, r)| == i
  {
    if i == 0 {
      assert Rest(0, r) == {};
    } else {
      RestSize(i - 1, r);
      assert Rest(4 * i, r) == Rest(4 * (i - 1), r) + {4 * (i - 1) + r};
    }
  }

  /** 512 keys, a quarter of them for each of the initial buckets, are spread over 2048 slots. */
  lemma QuartersAreSpread(keys: set<nat>)
    requires |keys| <= 512 && forall k :: k in keys ==> k < 512
    ensures Spread(Home<nat>(Quarter, 2047), 2048, keys)
  {
    hide BitAnd, Quarter;
    var home := Home<nat>(Quarter, 2047);
    assert Homes(home, 2048);
    forall a: nat, len: nat | a < 2048 && 1 <= len <= 2048 ensures |Within(home, 2048, a, len, keys)| < len + 255 {
      var crowd := Within(home, 2048, a, len, keys);
      CardinalityOfSubset(crowd, keys);
      if len <= 257 && crowd != {} {
        var x :| x in crowd;
        OneQuarter(home, keys, a, len, x);
        RestSize(128, x % 4);
        CardinalityOfSubset(crowd, Rest(512, x % 4));
      }
    }
  }

  lemma OneQuarter(home: nat -> nat, keys: set<nat>, a: nat, len: nat, x: nat)
    requires home == Home<nat>(Quarter, 2047) && Homes(home, 2048) && forall k :: k in keys ==> k < 512
    requires a < 2048 && len <= 257 && x in Within(home, 2048, a, len, keys)
    ensures Within(home, 2048, a, len, keys) <= Rest(512, x % 4)
  {
    hide BitAnd, Quarter;
    QuarterHomes(x);
    forall k | k in Within(home, 2048, a, len, keys) ensures k in Rest(512, x % 4) {
      QuarterHomes(k);
    }
  }

  /** The keys of two of the initial buckets are the same in 1024 slots, and too many for it. */
  lemma PairIsCrowded(keys: set<nat>, r: nat)
    requires r < 2 && Rest(512, r) + Rest(512, r + 2) <= keys
    ensures !Spread(Home<nat>(Quarter, 1023), 1024, keys)
  {
    hide BitAnd, Quarter;
    var home := Home<nat>(Quarter, 1023);
    assert Homes(home, 1024);
    forall k | k in Rest(512, r) + Rest(512, r + 2) ensures k in Within(home, 1024, 512 * r, 1, keys) {
      QuarterHomes(k);
    }
    PairSize(r);
    CardinalityOfSubset(Rest(512, r) + Rest(512, r + 2), Within(home, 1024, 512 * r, 1, keys));
  }

  lemma PairSize(r: nat)
    requires r < 2
    ensures |Rest(512, r) + Rest(512, r + 2)| == 256
  {
    RestSize(128, r);
    RestSize(128, r + 2);
    assert Rest(512, r) !! Rest(512, r + 2);
  }

  ghost function Keys(): (keys: set<nat>)
  {
    Elements(Naturals(512))
  }

  lemma KeysAre()
    ensures |Keys()| == 512 && forall k: nat :: k in Keys() <==> k < 512
  {
    NaturalsAre(512);
  }

  /** The 512 keys fit in the second buffer, and not in the first one. */
  lemma KeysFit<V(!new)>(t: Table<nat, V>)
    requires t.hash == Quarter && t.level == 1
    ensures t.Quiet(Keys(), 2048) && !t.Quiet(Keys(), 1024)
  {
    hide BitAnd, Spread, Quarter, Pow2, Keys, WithinLoad;
    KeysAre();
    HalfIsWithinLoad(512, 2048, 1);
    QuartersAreSpread(Keys());
    PairIsCrowded(Keys(), 0);
  }

  /** The keys with the other two initial buckets than that of an element are out of reach of its place. */
  lemma OthersOutOfReach(home: nat -> nat, p: nat, dib: nat, k: nat)
    requires home == Home<nat>(Quarter, 2047) && Homes(home, 2048)
    requires p < 2048 && dib <= 255 && dib == Dist(2048, home(k), p) + 1
    ensures OutOfReach(home, 2048, p, Others(k))
  {
    hide BitAnd, Quarter;
    QuarterHomes(k);
    forall x | x in Others(k)
      ensures Dist(2048, home(x), Next(2048, p)) >= 256
    {
      QuarterHomes(x);
    }
  }

  lemma InTheSecond(t: Table<nat, nat>)
    requires t.Valid() && t.hash == Quarter && t.level == 1 && t.contents.Keys == Keys()
    requires t.manager.log == 10 && t.manager.limit == 2
    ensures t.manager.index == 1 && t.manager.Last() && t.capacity == 2048
  {
    hide SoundBut, Idle, WithinLoad, Table.Quiet, Keys, Pow2;
    TenPowers();
    KeysFit(t);
    t.CoreIsQuiet();
  }

  /** The 512 keys in the second of the two buffers that memory has room for. */
  method BuildTrap() returns (t: Table<nat, nat>)
    ensures fresh(t) && fresh(t.buckets) && t.Valid() && t.hash == Quarter && t.level == 1
    ensures t.contents.Keys == Keys() && t.manager.index == 1 && t.manager.Last() && t.manager.log == 10
    ensures t.capacity == 2048 && t.mask == 2047
    ensures t.begin < t.capacity < t.buckets.Length && t.buckets[t.begin].dib > EMPTY
  {
    t := new Table(Quarter, 1, 10, 2, Bucket(0, 0, 0));
    assert t.capacity + 1 == t.buckets.Length && t.contents.Keys == {} && t.buckets in t.manager.buffers;
    hide Table.Valid, Table.Quiet, Table.Begun, Elements, Naturals, Pow2, Quarter;
    TenPowers();
    KeysFit(t);
    assert t.Fits(Keys());
    PutAll(t, Naturals(512), 0);
    InTheSecond(t);
    KeysAre();
    ItsBuffer(t);
  }

  lemma ItsBuffer<K(!new), V(!new)>(t: Table<K, V>)
    requires t.Valid() && t.capacity < t.buckets.Length && t.Begun() && |t.contents.Keys| > 0
    ensures t.buckets in t.manager.buffers && t.mask == t.capacity - 1
    ensures t.begin < t.capacity && t.buckets[t.begin].dib > EMPTY
  {
    assert |t.contents.Keys| == |t.contents|;
  }

  /** The keys with the other two initial buckets than that of `k`. */
  ghost function Others(k: nat): (keys: set<nat>)
  {
    Rest(512, (k + 1) % 2) + Rest(512, (k + 1) % 2 + 2)
  }

  /** What is left of the 512 keys still is too much for the first buffer, without any one key. */
  lemma StillCrowded<V(!new)>(t: Table<nat, V>, k: nat, keys: set<nat>)
    requires t.hash == Quarter && t.level == 1 && Others(k) <= keys
    ensures !t.Quiet(keys, 1024)
  {
    hide Quarter, Rest, Spread, BitAnd, WithinLoad;
    PairIsCrowded(keys, (k + 1) % 2);
  }

  lemma HowMany(k: nat, x: nat, keys: set<nat>)
    requires Others(k) <= keys <= Keys() && x in keys && x !in Others(k)
    ensures 257 <= |keys| <= 512 && Others(k) <= keys - {x}
  {
    hide Keys, Rest;
    KeysAre();
    PairSize((k + 1) % 2);
    CardinalityOfSubset(Others(k) + {x}, keys);
    CardinalityOfSubset(keys, Keys());
  }

  /** A removal where iteration begins, of an element with none to be shifted behind it. */
  lemma NotShrinkSafe<K(!new), V(!new)>(t: Table<K, V>)
    requires t.Valid() && t.begin < t.capacity < t.buckets.Length && t.buckets[t.begin].dib > EMPTY
    requires t.buckets[Next(t.capacity, t.begin)].dib <= FILLED
    requires t.manager.index > 0 && t.manager.Last() && 2 <= |t.contents.Keys|
             && 2 * (|t.contents.Keys| - 1) < t.capacity / 2
    requires !t.Quiet(t.contents.Keys - {t.buckets[t.begin].key}, t.manager.Capacity(t.manager.index - 1))
    ensures !t.ShrinkSafe(t.begin)
  {
    hide SoundBut, Idle, WithinLoad, Table.Quiet;
    assert |t.contents.Keys| == |t.contents|;
  }

  lemma BeginIsStored<K(!new), V(!new)>(t: Table<K, V>)
    requires t.Valid() && t.begin < t.capacity < t.buckets.Length && t.buckets[t.begin].dib > EMPTY
    ensures t.Slots() && t.buckets[t.begin].key in t.contents.Keys
    ensures var home := Home<K>(t.hash, t.mask); var k := t.buckets[t.begin].key;
            Homes(home, t.capacity) && 1 <= t.buckets[t.begin].dib <= 255
            && t.buckets[t.begin].dib == Dist(t.capacity, home(k), t.begin) + 1
  {
    HitIsStored(Home(t.hash, t.mask), t.buckets[..], t.capacity, t.contents, t.begin);
  }

  lemma OthersAre(k: nat)
    ensures Others(k) <= Keys()
  {
    KeysAre();
  }

  lemma TrapIsSet(t: Table<nat, nat>)
    requires t.Valid() && t.begin < t.capacity < t.buckets.Length && t.buckets[t.begin].dib > EMPTY
    requires t.hash == Quarter && t.capacity == 2048 && t.mask == 2047 && t.contents.Keys == Keys()
    ensures t.Slots() && Others(t.buckets[t.begin].key) <= t.contents.Keys
    ensures OutOfReach(Home<nat>(t.hash, t.mask), t.capacity, t.begin, Others(t.buckets[t.begin].key))
  {
    hide Table.Valid, Keys, Others, Pow2, Quarter, BitAnd, OutOfReach;
    BeginIsStored(t);
    var k := t.buckets[t.begin].key;
    OthersAre(k);
    OthersOutOfReach(Home<nat>(Quarter, 2047), t.begin, t.buckets[t.begin].dib, k);
  }

  lemma TrapSprings(t: Table<nat, nat>, k: nat)
    requires t.Valid() && t.begin < t.capacity < t.buckets.Length && t.buckets[t.begin].dib > EMPTY
    requires t.hash == Quarter && t.level == 1 && t.capacity == 2048 && t.mask == 2047 && t.manager.log == 10
    requires t.manager.index == 1 && t.manager.Last() && t.buckets[Next(t.capacity, t.begin)].dib <= FILLED
    requires Others(k) <= t.contents.Keys <= Keys() && t.buckets[t.begin].key !in Others(k)
    ensures !t.ShrinkSafe(t.begin)
  {
    hide Table.Valid, Table.Quiet, Table.ShrinkSafe, Keys, Others, Pow2, Quarter, BitAnd;
    TenPowers();
    BeginIsStored(t);
    var x := t.buckets[t.begin].key;
    HowMany(k, x, t.contents.Keys);
    StillCrowded(t, k, t.contents.Keys - {x});
    NotShrinkSafe(t);
  }

  /** Wherever iteration begins, some removals lead to one that is not shrink-safe. */
  method ShrinkTrap() returns (t: Table<nat, nat>)
    ensures t.Valid() && t.begin < t.capacity < t.buckets.Length && t.buckets[t.begin].dib > EMPTY
    ensures !t.ShrinkSafe(t.begin)
  {
    hide Table.Valid, Table.Slots, Table.Quiet, Table.ShrinkSafe, Keys, Others, Quarter, BitAnd, OutOfReach;
    t := BuildTrap();
    TrapIsSet(t);
    ghost var k := t.buckets[t.begin].key;
    RunDown(t, Others(k));
    BeginIsStored(t);
    NotKept(t, Others(k), t.begin);
    TrapSprings(t, k);
  }
}
