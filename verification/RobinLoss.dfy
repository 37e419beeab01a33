/** What a shrink into a buffer without room does in the end: it loses an element. */
module RobinLoss {
  import opened RobinLayout
  import opened RobinSpread
  import opened RobinProbe
  import opened RobinTable
  import opened RobinShrink

  /** No bucket of any buffer has the key. */
  ghost predicate Nowhere<K(!new), V(!new)>(manager: Manager<K, V>, k: K)
    reads manager, manager.buffers
  {
    forall i, p :: 0 <= i < |manager.buffers| && 0 <= p < manager.buffers[i].Length - 1 ==>
      manager.buffers[i][p].dib == EMPTY || manager.buffers[i][p].key != k
  }

  /** The elements of a table, emptied at the slot that one of them was moved from, are not all there any more: either
      one was not moved, or the same slots are filled as before. */
  lemma OneIsLost<K(!new), V>(home: K -> nat, s: seq<Bucket<K, V>>, b: seq<Bucket<K, V>>, cap: nat, m: map<K, V>,
                              c: map<K, V>, i: nat) returns (k: K)
    requires Sound(home, s, cap, m) && Sound(home, b, cap, c) && |m| < cap && c.Keys <= m.Keys
    requires i < cap && s[i].dib > EMPTY
    ensures k in m
    ensures forall p :: 0 <= p < cap && p != i ==> b[p].dib == EMPTY || b[p].key != k
  {
    hide Stepped, Placed;
    if c.Keys == m.Keys {
      SameFilled(home, s, b, cap, m, c, i);
      k := b[i].key;
    } else {
      k :| k in m && k !in c;
    }
  }

  /** The rehash that the overflow asks for, and the insertion after it: every element moved so far, and the one in
      hand, in the buffer that is still being drained. */
  method BeginAnew<K(==, !new), V(!new)>(t: Table<K, V>, k: K, v: V, ghost keys: set<K>)
    requires t.manager.Valid() && t.manager.index + 2 == |t.manager.buffers|
    requires t.buckets == t.manager.buffers[t.manager.index] && t.Slots() && |t.contents| >= 1
    requires t.IdleBut({t.manager.index + 1})
    requires t.contents.Keys + {k} <= keys && t.Quiet(keys, t.manager.Capacity(t.manager.index + 1))
    modifies t, t.manager, t.manager.buffers
    ensures t.manager.Valid() && t.manager.buffers == old(t.manager.buffers)
    ensures t.manager.index == old(t.manager.index) + 1
    ensures t.Core() && t.IdleBut({}) && t.contents == old(t.contents)[k := v]
    ensures t.buckets == t.manager.buffers[t.manager.index]
    ensures t.capacity == t.manager.Capacity(t.manager.index) && t.mask == t.capacity - 1
  {
    hide Sound, WithinLoad, Idle, Table.Quiet, Table.Fits, Table.Begun, Table.Blank;
    ghost var small := t.manager.index;
    t.QuietIsMonotone(t.contents.Keys, keys, t.manager.Capacity(t.manager.index + 1));
    t.QuietIsMonotone(t.contents.Keys + {k}, keys, t.manager.Capacity(t.manager.index + 1));
    var ok := t.manager.MakeNext(t.blank);
    assert {} + {small} == {small};
    ok := t.Rehash(small, {});
    ok := t.Emplace(k, v, {});
  }

  lemma StoppedMeans<K(!new), V(!new)>(t: Table<K, V>, s: seq<Bucket<K, V>>, cap: nat, i: nat, m: map<K, V>,
                                       from: nat, k: K, v: V)
    requires |s| == cap + 1 && Stopped(t, s, cap, i, m, from, k, v)
    ensures t.manager.Valid() && t.buckets == t.manager.buffers[t.manager.index]
    ensures t.Slots() && |t.contents| >= 1 && t.IdleBut({from})
    ensures i < cap && s[i].dib > EMPTY && t.contents.Keys + {k} <= m.Keys && t.contents[k := v].Keys <= m.Keys
  {
    hide SoundBut, Idle, Moved;
    MovedKeys(s, cap, i + 1, m, t.contents, k, v);
  }

  /** The loop of the shrink goes on by emptying the slot it was at, in the buffer that is the table's own by now. */
  method EmptySlot<K(==, !new), V(!new)>(t: Table<K, V>, slot: nat, ghost s: seq<Bucket<K, V>>, ghost m: map<K, V>)
    returns (ghost lost: K)
    requires t.manager.Valid() && t.Core() && t.IdleBut({}) && t.contents.Keys <= m.Keys
    requires Sound(Home(t.hash, t.capacity - 1), s, t.capacity, m) && |m| < t.capacity
    requires slot < t.capacity && s[slot].dib > EMPTY
    modifies t.buckets
    ensures lost in m && Nowhere(t.manager, lost)
  {
    hide SoundBut, WithinLoad;
    lost := OneIsLost(Home(t.hash, t.mask), s, t.buckets[..], t.capacity, m, t.contents, slot);
    t.buckets[slot] := t.buckets[slot].(dib := EMPTY);
    OthersAreEmpty(t, lost);
  }

  lemma OthersAreEmpty<K(!new), V(!new)>(t: Table<K, V>, k: K)
    requires t.manager.Valid() && t.buckets == t.manager.buffers[t.manager.index] && t.IdleBut({})
    requires forall p :: 0 <= p < t.buckets.Length - 1 ==> t.buckets[p].dib == EMPTY || t.buckets[p].key != k
    ensures Nowhere(t.manager, k)
  {
    forall i, p | 0 <= i < |t.manager.buffers| && 0 <= p < t.manager.buffers[i].Length - 1
      ensures t.manager.buffers[i][p].dib == EMPTY || t.manager.buffers[i][p].key != k
    {
      if i != t.manager.index {
        assert Idle(t.manager.buffers[i][..]);
        assert t.manager.buffers[i][..][p].dib == EMPTY;
      }
    }
  }

  lemma StartOfShrink<K(!new), V(!new)>(t: Table<K, V>)
    requires t.Valid()
    ensures t.manager.Valid() && t.buckets == t.manager.buffers[t.manager.index]
    ensures t.capacity == t.manager.Capacity(t.manager.index) && t.mask == t.capacity - 1
    ensures |t.buckets[..]| == t.capacity + 1 && |t.contents| < t.capacity && t.Quiet(t.contents.Keys, t.capacity)
    ensures Sound(Home(t.hash, t.capacity - 1), t.buckets[..], t.capacity, t.contents)
  {
    hide SoundBut, WithinLoad, Idle, Table.Quiet;
    t.CoreIsQuiet();
    LoadLeavesRoom(t.size, t.capacity, t.level);
  }

  /** Everything that follows the stop of the insertion, up to the end of that turn of the loop. */
  method LoseOne<K(==, !new), V(!new)>(t: Table<K, V>, slot: nat, k: K, v: V, ghost s: seq<Bucket<K, V>>,
                                       ghost cap: nat, ghost m: map<K, V>) returns (ghost lost: K)
    requires t.manager.Valid() && t.manager.index + 2 == |t.manager.buffers|
    requires |s| == cap + 1 && cap == t.manager.Capacity(t.manager.index + 1)
    requires Stopped(t, s, cap, slot, m, t.manager.index + 1, k, v)
    requires Sound(Home(t.hash, cap - 1), s, cap, m) && |m| < cap && t.Quiet(m.Keys, cap)
    modifies t, t.manager, t.manager.buffers
    ensures lost in m && Nowhere(t.manager, lost)
    ensures t.manager.buffers == old(t.manager.buffers) && t.manager.index == old(t.manager.index) + 1
    ensures t.buckets == t.manager.buffers[t.manager.index]
  {
    hide Sound, WithinLoad, Idle, Table.Quiet, Table.Core, Table.IdleBut, Stopped, Nowhere;
    StoppedMeans(t, s, cap, slot, m, t.manager.index + 1, k, v);
    BeginAnew(t, k, v, m.Keys);
    lost := EmptySlot(t, slot, s, m);
  }

  /** The shrink itself, out of the last buffer. */
  method LosingShrink<K(==, !new), V(!new)>(t: Table<K, V>) returns (ghost lost: K)
    requires t.Valid() && t.manager.index > 0 && t.manager.Last()
    requires !t.Quiet(t.contents.Keys, t.manager.Capacity(t.manager.index - 1))
    modifies t, t.manager, t.manager.buffers
    ensures lost in old(t.contents) && Nowhere(t.manager, lost)
    ensures t.buckets == old(t.buckets) && t.manager.index == old(t.manager.index)
  {
    hide Sound, WithinLoad, Idle, Table.Valid, Table.Core, Table.Quiet, Table.IdleBut, Emptying, Stopped, Nowhere;
    StartOfShrink(t);
    var drained, cap := t.buckets, t.capacity;
    ghost var s, home, m, from := t.buckets[..], Home(t.hash, cap - 1), t.contents, t.manager.index;
    StepBack(t);
    var slot, k, v := MoveUntilFull(t, drained, s, home, cap, m, from);
    lost := LoseOne(t, slot, k, v, s, cap, m);
  }

  /** A removal that is not shrink-safe loses another element: when the shrink has passed the slot it was at when it ran
      out of room, some key of the map is in no bucket, and all it does from there on is to move elements that are in
      buckets. With `Table.ShiftBuckets`, a removal is right exactly when it is shrink-safe. */
  method ShrinkLoses<K(==, !new), V(!new)>(t: Table<K, V>, p: nat) returns (ghost lost: K)
    requires t.Valid() && p < t.capacity && t.buckets[p].dib > EMPTY && !t.ShrinkSafe(p)
    modifies t, t.manager, t.manager.buffers
    ensures lost in old(t.contents) - {old(t.buckets[p].key)} && Nowhere(t.manager, lost)
    ensures t.buckets == old(t.buckets) && t.manager.index == old(t.manager.index)
  {
    hide Sound, WithinLoad, Idle, Table.Quiet, Table.Shrinks, Table.IdleBut, Nowhere;
    RemoveAt(t, p);
    lost := LosingShrink(t);
  }
}
