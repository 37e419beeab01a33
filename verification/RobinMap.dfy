/** The map view of the table, and whole runs of it against a finite map. */
module RobinMap {
  import opened RobinLayout
  import opened RobinTable

  datatype Option<+T> = None | Some(value: T)

  datatype Op<K, V> = Put(key: K, val: V) | Delete(key: K) | Get(key: K) | Clear

  /** What an operation does to a finite map. */
  ghost function Effect<K, V>(m: map<K, V>, op: Op<K, V>): map<K, V> {
    match op
    case Put(k, v) => m[k := v]
    case Delete(k) => m - {k}
    case Get(_) => m
    case Clear => map[]
  }

  ghost function After<K, V>(m: map<K, V>, ops: seq<Op<K, V>>): map<K, V> {
    if ops == [] then m else Effect(After(m, ops[..|ops| - 1]), ops[|ops| - 1])
  }

  ghost function Lookup<K, V>(m: map<K, V>, k: K): Option<V> {
    if k in m then Some(m[k]) else None
  }

  /** What the finite map answers to each `Get` of the run (and `None` to the rest). */
  ghost predicate Answered<K, V>(m: map<K, V>, ops: seq<Op<K, V>>, answers: seq<Option<V>>) {
    && |answers| == |ops|
    && forall i :: 0 <= i < |ops| ==>
         answers[i] == (if ops[i].Get? then Lookup(After(m, ops[..i]), ops[i].key) else None)
  }

  class Map<K(==, !new), V(!new)> {
    const table: Table<K, V>

    ghost predicate Valid()
      reads this, table, table.manager, table.manager.buffers
    {
      table.Valid()
    }

    constructor (hash: K -> nat, level: nat, stackSizeLog2: nat, limit: nat, blank: Bucket<K, V>)
      requires level >= 1 && stackSizeLog2 >= 1 && limit >= 1
      ensures Valid() && fresh(table) && fresh(table.manager) && fresh(table.manager.buffers)
      ensures table.contents == map[]
    {
      table := new Table(hash, level, stackSizeLog2, limit, blank);
    }

    /** The value of a key, made from `default` when it had none. */
    method Index(key: K, default: V) returns (ok: bool, val: V)
      requires Valid() && table.SearchEnds(key) && !table.SearchFooled(key)
      modifies table, table.manager, table.manager.buffers
      ensures ok <==> key in old(table.contents) || table.Fits(old(table.contents).Keys + {key})
      ensures ok ==> Valid() && key in table.contents && table.contents[key] == val
      ensures ok ==> table.contents == if key in old(table.contents) then old(table.contents)
                                       else old(table.contents)[key := default]
    {
      hide Sound, WithinLoad, Idle, Table.SearchEnds, Table.SearchFooled, Table.Fits, Table.Quiet;
      ok, val := true, default;
      var p := table.Find(key);
      if p != table.capacity {
        val := table.buckets[p].val;
        return;
      }
      ok := table.Emplace(key, default, {});
      if ok {
        table.CounterSafeEnds(key);
        p := table.Find(key);
        val := table.buckets[p].val;
      }
    }

    /** One operation. */
    method Step(op: Op<K, V>) returns (ok: bool, answer: Option<V>)
      requires Valid()
      requires op.Get? || op.Delete? ==> table.SearchEnds(op.key) && !table.SearchFooled(op.key)
      requires op.Delete? ==> table.EraseSafe(op.key)
      modifies table, table.manager, table.manager.buffers
      ensures Extends(old(table.manager.buffers), table.manager.buffers)
      ensures forall i :: |old(table.manager.buffers)| <= i < |table.manager.buffers| ==>
                fresh(table.manager.buffers[i])
      ensures !ok ==> |table.manager.buffers| == table.manager.limit
      ensures ok <==> (op.Put? ==> table.Fits(old(table.contents).Keys + {op.key}))
      ensures ok ==> Valid() && table.contents == Effect(old(table.contents), op)
      ensures answer == if op.Get? then Lookup(old(table.contents), op.key) else None
    {
      hide Sound, WithinLoad, Idle, Table.SearchEnds, Table.SearchFooled, Table.EraseSafe, Table.Fits, Table.Quiet;
      ok, answer := true, None;
      match op {
        case Put(k, v) => ok := table.Emplace(k, v, {});
        case Delete(k) => table.Erase(k);
        case Get(k) =>
          var p := table.Find(k);
          answer := if p == table.capacity then None else Some(table.buckets[p].val);
        case Clear => table.Clear();
      }
    }

    /** Before each search of a run the keys are scattered. */
    ghost predicate Apart(m: map<K, V>, ops: seq<Op<K, V>>) {
      forall i :: 0 <= i < |ops| && (ops[i].Get? || ops[i].Delete?) ==>
        table.Scattered(After(m, ops[..i]).Keys, ops[i].key)
    }

    /** Memory has room for a buffer that the keys fit in after each insertion of a run. */
    ghost predicate Roomy(m: map<K, V>, ops: seq<Op<K, V>>) {
      forall i :: 0 <= i < |ops| && ops[i].Put? ==> table.Fits(After(m, ops[..i]).Keys + {ops[i].key})
    }

    /** No more than 254 bindings at each search are enough. */
    lemma FewAreApart(m: map<K, V>, ops: seq<Op<K, V>>)
      requires forall i :: 0 <= i < |ops| && (ops[i].Get? || ops[i].Delete?) ==> |After(m, ops[..i])| <= 254
      ensures Apart(m, ops)
    {
      hide After, Table.Scattered;
      forall i | 0 <= i < |ops| && (ops[i].Get? || ops[i].Delete?)
        ensures table.Scattered(After(m, ops[..i]).Keys, ops[i].key)
      {
        assert |After(m, ops[..i]).Keys| == |After(m, ops[..i])|;
        table.FewAreScattered(After(m, ops[..i]).Keys, ops[i].key);
      }
    }

    /** A whole run gives the answers of the finite map and ends with its bindings; it gets through exactly when memory
        has the room that its insertions need. */
    method Replay(ops: seq<Op<K, V>>) returns (ok: bool, answers: seq<Option<V>>)
      requires Valid() && Apart(table.contents, ops)
      modifies table, table.manager, table.manager.buffers
      ensures ok <==> Roomy(old(table.contents), ops)
      ensures ok ==> Valid() && table.contents == After(old(table.contents), ops)
      ensures ok ==> Answered(old(table.contents), ops, answers)
    {
      hide Table.Valid, Table.SearchEnds, Table.SearchFooled, Table.EraseSafe, Table.CounterSafe;
      hide Table.Scattered, Table.Fits;
      answers, ok := [], true;
      for i := 0 to |ops|
        invariant Valid() && ok
        invariant Extends(old(table.manager.buffers), table.manager.buffers)
        invariant forall j :: |old(table.manager.buffers)| <= j < |table.manager.buffers| ==>
                    fresh(table.manager.buffers[j])
        invariant table.contents == After(old(table.contents), ops[..i])
        invariant Roomy(old(table.contents), ops[..i])
        invariant Answered(old(table.contents), ops[..i], answers)
      {
        if ops[i].Get? || ops[i].Delete? {
          SafeWhenScattered(ops[i].key);
        }
        var answer;
        ok, answer := Step(ops[i]);
        RoomyNext(old(table.contents), ops, i);
        if !ok {
          return;
        }
        assert ops[..i + 1][..i] == ops[..i];
        AnsweredNext(old(table.contents), ops, i, answers, answer);
        answers := answers + [answer];
      }
      assert ops[..|ops|] == ops;
    }

    lemma SafeWhenScattered(key: K)
      requires Valid() && table.Scattered(table.contents.Keys, key)
      ensures table.Slots() && table.SearchEnds(key) && !table.SearchFooled(key) && table.EraseSafe(key)
    {
      hide Table.SearchEnds, Table.SearchFooled, Table.EraseSafe, Table.CounterSafe, Table.Scattered;
      table.ScatteredIsSafe(key);
      table.CounterSafeEnds(key);
    }

    lemma RoomyNext(m: map<K, V>, ops: seq<Op<K, V>>, i: nat)
      requires i < |ops|
      ensures Roomy(m, ops[..i + 1]) <==>
              Roomy(m, ops[..i]) && (ops[i].Put? ==> table.Fits(After(m, ops[..i]).Keys + {ops[i].key}))
      ensures Roomy(m, ops) ==> Roomy(m, ops[..i + 1])
    {
      hide After, Table.Fits;
      forall j | 0 <= j <= i ensures ops[..i + 1][..j] == ops[..j] && (j < i ==> ops[..i][..j] == ops[..j]) {
      }
      assert ops[..i + 1][i] == ops[i];
      assert forall j :: 0 <= j < i ==> ops[..i + 1][j] == ops[..i][j];
    }
  }

  lemma AnsweredNext<K, V>(m: map<K, V>, ops: seq<Op<K, V>>, i: nat, answers: seq<Option<V>>, answer: Option<V>)
    requires i < |ops| && Answered(m, ops[..i], answers)
    requires answer == if ops[i].Get? then Lookup(After(m, ops[..i]), ops[i].key) else None
    ensures Answered(m, ops[..i + 1], answers + [answer])
  {
    forall j | 0 <= j <= i ensures ops[..i + 1][..j] == ops[..j] {
    }
    forall j | 0 <= j < i ensures ops[..i][..j] == ops[..j] {
    }
  }
}
