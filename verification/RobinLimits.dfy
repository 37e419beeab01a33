/** The two ways the 8-bit counter limits the table: a search that its wrapped counter fools, and a removal that shrinks
    the table into a buffer without room. Tables where they happen are built by the operations of the table itself. */
module RobinLimits {
  import opened Bits
  import opened RobinLayout
  import opened RobinSpread
  import opened RobinProbe
  import opened RobinTable

  ghost function Elements<K>(ks: seq<K>): (keys: set<K>)
    ensures |keys| <= |ks|
  {
    if ks == [] then {} else Elements(ks[..|ks| - 1]) + {ks[|ks| - 1]}
  }

  lemma {:induction false} ElementsFrom<K>(ks: seq<K>, i: nat)
    requires i <= |ks|
    ensures Elements(ks[..i]) <= Elements(ks)
  {
    if i < |ks| {
      ElementsFrom(ks[..|ks| - 1], i);
      assert ks[..|ks| - 1][..i] == ks[..i];
    } else {
      assert ks[..i] == ks;
    }
  }

  /** Inserts one of the keys that memory has room for. */
  method PutOne<K(==, !new), V(!new)>(t: Table<K, V>, k: K, v: V, ghost keys: set<K>)
    requires t.Valid() && t.capacity + 1 == t.buckets.Length && t.Begun() && t.Fits(keys)
             && t.contents.Keys + {k} <= keys
    modifies t, t.manager, t.manager.buffers
    ensures t.Valid() && t.capacity + 1 == t.buckets.Length && t.Begun()
            && t.contents.Keys == old(t.contents.Keys) + {k}
    ensures Extends(old(t.manager.buffers), t.manager.buffers)
    ensures forall j :: |old(t.manager.buffers)| <= j < |t.manager.buffers| ==> fresh(t.manager.buffers[j])
    ensures t.Quiet(keys, t.manager.Capacity(old(t.manager.index))) ==>
              t.manager.index == old(t.manager.index) && t.capacity == old(t.capacity) && (old(t.Blank()) ==> t.Blank())
  {
    hide Sound, WithinLoad, Idle, Table.Quiet, Table.Fits, Table.Begun, Table.Blank;
    t.FitsIsMonotone(t.contents.Keys + {k}, keys);
    t.QuietIsMonotone(t.contents.Keys + {k}, keys, t.capacity);
    var ok := t.Emplace(k, v, {});
    assert t.contents.Keys == old(t.contents.Keys) + {k};
  }

  /** Inserts keys one after the other. */
  method PutAll<K(==, !new), V(!new)>(t: Table<K, V>, ks: seq<K>, v: V)
    requires t.Valid() && t.capacity + 1 == t.buckets.Length && t.Begun() && t.contents.Keys == {}
             && t.Fits(Elements(ks))
    modifies t, t.manager, t.manager.buffers
    ensures t.Valid() && t.capacity + 1 == t.buckets.Length && t.Begun() && t.contents.Keys == Elements(ks)
    ensures Extends(old(t.manager.buffers), t.manager.buffers)
    ensures forall j :: |old(t.manager.buffers)| <= j < |t.manager.buffers| ==> fresh(t.manager.buffers[j])
    ensures t.Quiet(Elements(ks), t.manager.Capacity(old(t.manager.index))) ==>
              t.manager.index == old(t.manager.index) && t.capacity == old(t.capacity) && (old(t.Blank()) ==> t.Blank())
  {
    hide Elements, Table.Valid, Table.Slots, Table.Quiet, Table.Fits, Table.Begun, Table.Blank;
    NoElements(ks);
    for i := 0 to |ks|
      invariant t.Valid() && t.capacity + 1 == t.buckets.Length && t.Begun() && t.contents.Keys == Elements(ks[..i])
      invariant Extends(old(t.manager.buffers), t.manager.buffers)
      invariant forall j :: |old(t.manager.buffers)| <= j < |t.manager.buffers| ==> fresh(t.manager.buffers[j])
      invariant t.Quiet(Elements(ks), t.manager.Capacity(old(t.manager.index))) ==>
                  t.manager.index == old(t.manager.index) && t.capacity == old(t.capacity)
                  && (old(t.Blank()) ==> t.Blank())
    {
      OneMore(ks, i);
      PutOne(t, ks[i], v, Elements(ks));
    }
    assert ks[..|ks|] == ks;
  }

  lemma NoElements<K>(ks: seq<K>)
    ensures Elements(ks[..0]) == {}
  {
  }

  lemma OneMore<K>(ks: seq<K>, i: nat)
    requires i < |ks|
    ensures Elements(ks[..i + 1]) == Elements(ks[..i]) + {ks[i]} && Elements(ks[..i + 1]) <= Elements(ks)
  {
    assert ks[..i + 1][..i] == ks[..i];
    ElementsFrom(ks, i + 1);
  }

  /** The first `n` naturals. */
  function Naturals(n: nat): (ks: seq<nat>) {
    seq(n, i requires i >= 0 => i)
  }

  lemma {:induction false} NaturalsAre(n: nat)
    ensures |Elements(Naturals(n))| == n && forall k: nat :: k in Elements(Naturals(n)) <==> k < n
  {
    if n > 0 {
      NaturalsAre(n - 1);
      assert Naturals(n)[..n - 1] == Naturals(n - 1);
    }
  }

  // ---------- a fooled search ----------

  function ToZero(k: nat): nat { 0 }

  /** Elements whose initial bucket is the first one fill the first slots, in order of their distance. */
  lemma OneHome<K(!new), V>(home: K -> nat, s: seq<Bucket<K, V>>, cap: nat, m: map<K, V>, p: nat)
    requires Sound(home, s, cap, m) && (forall k :: home(k) == 0) && |m| < cap && p < cap
    ensures s[p].dib == if p < |m| then p + 1 else 0
  {
    hide Stepped, Distinct, Holds;
    if s[p].dib > 0 {
      DibBound(home, s, cap, m, p);
    } else if p < |m| {
      forall q | 0 <= q < cap && s[q].dib > 0 ensures q < p {
        if q > p {
          OnPath(home, s, cap, cap, m, q, p);
        }
      }
      KeysInAll(home, s, cap, m, 0, p);
      CardinalityOfSubset(m.Keys, KeysIn(s, cap, 0, p));
    }
  }

  lemma FewHaveRoom<K(!new), V(!new)>(t: Table<K, V>, keys: set<K>, cap: nat)
    requires cap >= 1 && |keys| <= 255 && WithinLoad(|keys|, cap, t.level)
    ensures t.Quiet(keys, cap)
  {
    hide Spread, WithinLoad;
    FewAreSpread(Home(t.hash, cap - 1), cap, keys);
  }

  /** 255 keys with one initial bucket, in memory that held the key `gone` everywhere. */
  method FillOneHome(log: nat, level: nat, gone: nat) returns (t: Table<nat, nat>)
    requires level >= 1 && log >= 1 && WithinLoad(255, Pow2(log), level)
    requires Pow2(log) >= 256
    ensures fresh(t) && Chained(t) && t.Slots() && (forall k: nat :: k in t.contents <==> k < 255)
    ensures t.capacity == Pow2(log) && t.level == level && t.Blank() && t.blank.key == gone
  {
    t := new Table(ToZero, level, log, 1, Bucket(0, gone, 0));
    assert t.capacity == Pow2(log) && t.Blank() && t.contents.Keys == {};
    hide Table.Valid, Table.Slots, Table.Quiet, Table.Blank, Table.Begun, WithinLoad, Pow2;
    NaturalsAre(255);
    ghost var keys := Elements(Naturals(255));
    hide Elements, Naturals;
    FewHaveRoom(t, keys, Pow2(log));
    PutAll(t, Naturals(255), 0);
    assert |t.contents.Keys| == |t.contents|;
    assert forall k :: k in t.contents <==> k in keys;
  }

  /** 255 elements with one initial bucket. */
  ghost predicate Chained<K(!new), V(!new)>(t: Table<K, V>)
    reads t, t.manager, t.manager.buffers
  {
    t.Valid() && |t.contents| == 255 && t.capacity >= 256 && forall k :: t.hash(k) == 0
  }

  /** A search for an absent key passes them all, and has wrapped its counter at the empty bucket behind them. */
  lemma ChainedWraps<K(!new), V(!new)>(t: Table<K, V>, k: K)
    requires Chained(t) && k !in t.contents
    ensures BitAnd(t.hash(k), t.mask) == 0
    ensures Turning(Home(t.hash, t.mask), t.buckets[..], t.capacity, k, 255)
    ensures t.buckets[255].dib == EMPTY && forall p :: 0 <= p < 255 ==>
              t.buckets[p].dib == p + 1 && t.buckets[p].key != k
  {
    hide SoundBut, WithinLoad, Turning, Idle;
    var home, s := Home(t.hash, t.mask), t.buckets[..];
    forall p | 0 <= p <= 255
      ensures s[p].dib == (if p < 255 then p + 1 else 0) && (p < 255 ==> s[p].key != k)
    {
      LoadLeavesRoom(t.size, t.capacity, t.level);
      OneHome(home, s, t.capacity, t.contents, p);
      if p < 255 {
        HitIsStored(home, s, t.capacity, t.contents, p);
      }
    }
    t.CounterWrapsIff(k);
  }

  /** The stale key of that empty bucket fools the search for it. */
  lemma ChainedFools<K(!new), V(!new)>(t: Table<K, V>, k: K)
    requires Chained(t) && k !in t.contents && t.Blank() && t.blank.key == k
    ensures t.SearchEnds(k) && t.SearchFooled(k)
  {
    hide SoundBut, WithinLoad, Turning, Idle;
    ChainedWraps(t, k);
    ProbeWalksTheRing(t.capacity, 0, 255);
    var home, s := Home(t.hash, t.mask), t.buckets[..];
    assert ProbeAt(t.capacity, home(k), 255) == (255, EMPTY) && s[255].dib == EMPTY && s[255].key == k;
    assert StopsAt(home, s, t.capacity, k, 255);
  }

  /** Were it the only empty bucket, the search for any other absent key would pass it in every round. */
  lemma ChainedNeverEnds<K(!new), V(!new)>(t: Table<K, V>, k: K)
    requires Chained(t) && k !in t.contents && t.Blank() && t.blank.key != k && t.capacity == 256
    ensures !t.SearchEnds(k)
  {
    hide SoundBut, WithinLoad, Turning, Idle, ProbeAt, BitAnd;
    ChainedWraps(t, k);
    forall n: nat ensures ProbeGoesOn(t.buckets[..], k, ProbeAt(256, 0, n)) {
      ProbeGoesRound(n);
    }
  }

  lemma {:induction false} ProbeGoesRound(n: nat)
    ensures ProbeAt(256, 0, n) == (n % 256, (n + 1) % 256)
  {
    hide Next, Increment;
    if n > 0 {
      ProbeGoesRound(n - 1);
      RoundOn(n);
    }
  }

  /** Slot and counter after one turn more. */
  lemma RoundOn(n: nat)
    requires n > 0
    ensures Next(256, (n - 1) % 256) == n % 256 && Increment(n % 256) == (n + 1) % 256
  {
    NextRemainder(n - 1);
    NextRemainder(n);
  }

  lemma NextRemainder(n: nat)
    ensures (n + 1) % 256 == if n % 256 == 255 then 0 else n % 256 + 1
  {
  }

  lemma NinePowers()
    ensures Pow2(8) == 256 && Pow2(9) == 512
  {
    assert Pow2(4) == 16 && Pow2(8) == 256;
  }

  /** From level eight on a table may be full but for one slot in 256. */
  lemma {:induction false} LoadOfChains(level: nat)
    ensures WithinLoad(255, Pow2(9), 1)
    ensures level >= 8 ==> WithinLoad(255, Pow2(8), level)
  {
    NinePowers();
    if level > 8 {
      LoadOfChains(level - 1);
      LoadLoosens(255, Pow2(8), level - 1);
    }
  }

  /** A search for the key that memory held passes 255 elements, wraps its counter, and takes the empty bucket behind
      them for its own. */
  method FooledSearch(gone: nat) returns (t: Table<nat, nat>, p: nat)
    requires gone >= 255
    ensures t.Valid() && t.level == 1 && gone !in t.contents && t.SearchEnds(gone) && t.SearchFooled(gone)
    ensures p < t.capacity && t.buckets[p].dib == EMPTY
  {
    hide Pow2, WithinLoad, Table.Core, Table.IdleBut, Table.SearchEnds, Table.SearchFooled;
    NinePowers();
    LoadOfChains(1);
    t := FillOneHome(9, 1, gone);
    ChainedFools(t, gone);
    p := t.Find(gone);
  }

  /** At every load factor level from eight on a search may not end at all: its counter is zero at the only empty
      bucket, in each of its rounds. With `Table.SearchesEnd`, all searches end at a level exactly when it is at most
      seven. */
  method EndlessSearch(level: nat, gone: nat, k: nat) returns (t: Table<nat, nat>)
    requires level >= 8 && 255 <= k != gone
    ensures t.Valid() && t.level == level && k !in t.contents && !t.SearchEnds(k)
  {
    hide Pow2, WithinLoad, Table.Core, Table.IdleBut, Table.SearchEnds;
    NinePowers();
    LoadOfChains(level);
    t := FillOneHome(8, level, gone);
    ChainedNeverEnds(t, k);
  }
}
