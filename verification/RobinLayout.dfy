/** The layout of a Robin Hood hash table.

    Buckets are a sequence of `cap` slots followed by one sentinel slot. The `dib` of a slot is its
    distance to its initial bucket plus one, or zero when the slot is empty. Everything here is about
    sequences; `RobinTable` proves its loops over arrays against it. */
module RobinLayout {

  datatype Bucket<K, V> = Bucket(dib: nat, key: K, val: V)

  // ---------- positions on the ring ----------

  function Next(cap: nat, p: nat): (q: nat)
    requires p < cap
    ensures q < cap
  {
    if p + 1 == cap then 0 else p + 1
  }

  /** How many steps of `Next` lead from one slot to another. */
  function Dist(cap: nat, from: nat, to: nat): (d: nat)
    requires from < cap && to < cap
    ensures d < cap
  {
    if from <= to then to - from else to + cap - from
  }

  lemma NextIsNearer(cap: nat, p: nat, to: nat)
    requires p < cap && to < cap && p != to
    ensures Dist(cap, Next(cap, p), to) < Dist(cap, p, to)
  {
  }

  function At(cap: nat, from: nat, d: nat): (p: nat)
    requires from < cap && d <= cap
    ensures p < cap
    ensures d < cap ==> Dist(cap, from, p) == d
  {
    if from + d < cap then from + d else from + d - cap
  }

  // ---------- the layout invariant ----------

  /** A function from keys to initial buckets. */
  ghost predicate Homes<K(!new)>(home: K -> nat, cap: nat) {
    forall k :: home(k) < cap
  }

  /** Each stored element knows its probe distance. */
  ghost predicate Placed<K(!new), V>(home: K -> nat, s: seq<Bucket<K, V>>, cap: nat)
    requires Homes(home, cap) && |s| == cap + 1
  {
    forall p :: 0 <= p < cap && s[p].dib > 0 ==> s[p].dib == Dist(cap, home(s[p].key), p) + 1
  }

  /** Probe distances grow by at most one from a slot to the next, around the ring. */
  ghost predicate Stepped<K, V>(s: seq<Bucket<K, V>>, cap: nat)
    requires |s| == cap + 1
  {
    forall p {:trigger Next(cap, p)} :: 0 <= p < cap ==> s[Next(cap, p)].dib <= s[p].dib + 1
  }

  ghost predicate Stores<K, V>(s: seq<Bucket<K, V>>, cap: nat, hole: nat, p: nat, k: K)
    requires |s| == cap + 1
  {
    p < cap && p != hole && s[p].dib > 0 && s[p].key == k
  }

  /** Outside of `hole`, no key is stored twice. */
  ghost predicate Distinct<K, V>(s: seq<Bucket<K, V>>, cap: nat, hole: nat)
    requires |s| == cap + 1
  {
    forall p, q | 0 <= p < cap && 0 <= q < cap && p != q && p != hole && q != hole ::
      s[p].dib > 0 && s[q].dib > 0 ==> s[p].key != s[q].key
  }

  /** Outside of `hole`, the slots hold exactly the bindings of `m`. */
  ghost predicate Holds<K(!new), V>(s: seq<Bucket<K, V>>, cap: nat, hole: nat, m: map<K, V>)
    requires |s| == cap + 1
  {
    && (forall p :: 0 <= p < cap && p != hole && s[p].dib > 0 ==> s[p].key in m && m[s[p].key] == s[p].val)
    && (forall k :: k in m ==> exists p: nat :: Stores(s, cap, hole, p, k))
  }

  /** The table invariant over the slots, ignoring the content of `hole` (`hole == cap` ignores none). */
  ghost predicate SoundBut<K(!new), V>(home: K -> nat, s: seq<Bucket<K, V>>, cap: nat, hole: nat, m: map<K, V>) {
    && cap >= 1
    && Homes(home, cap)
    && |s| == cap + 1
    && s[cap].dib == 1
    && (forall p :: 0 <= p < cap ==> s[p].dib <= 255)
    && Placed(home, s, cap)
    && Stepped(s, cap)
    && Distinct(s, cap, hole)
    && Holds(s, cap, hole, m)
  }

  ghost predicate Sound<K(!new), V>(home: K -> nat, s: seq<Bucket<K, V>>, cap: nat, m: map<K, V>) {
    SoundBut(home, s, cap, cap, m)
  }

  /** A buffer left behind: every slot empty, the sentinel filled. */
  ghost predicate Idle<K, V>(s: seq<Bucket<K, V>>) {
    |s| >= 1 && s[|s| - 1].dib == 1 && forall p :: 0 <= p < |s| - 1 ==> s[p].dib == 0
  }

  lemma IdleIsSound<K(!new), V>(home: K -> nat, s: seq<Bucket<K, V>>, cap: nat)
    requires cap >= 1 && Homes(home, cap) && |s| == cap + 1 && Idle(s)
    ensures Sound(home, s, cap, map[])
  {
  }

  lemma SentinelFilled<K(!new), V>(home: K -> nat, s: seq<Bucket<K, V>>, cap: nat, hole: nat, m: map<K, V>)
    requires SoundBut(home, s, cap, hole, m)
    ensures cap >= 1 && |s| == cap + 1 && s[cap].dib == 1
  {
  }

  // ---------- lookup ----------

  /** Every slot between an element's initial bucket and the element is at least as far from home. */
  lemma {:induction false} OnPath<K(!new), V>(home: K -> nat, s: seq<Bucket<K, V>>, cap: nat, hole: nat, m: map<K, V>,
                                              q: nat, d: nat)
    requires SoundBut(home, s, cap, hole, m)
    requires q < cap && s[q].dib > 0
    requires d <= Dist(cap, home(s[q].key), q)
    ensures s[At(cap, home(s[q].key), d)].dib >= d + 1
    decreases Dist(cap, home(s[q].key), q) - d
  {
    var h := home(s[q].key);
    if d < Dist(cap, h, q) {
      OnPath(home, s, cap, hole, m, q, d + 1);
      assert Next(cap, At(cap, h, d)) == At(cap, h, d + 1);
    }
  }

  /** A probe for `k` has passed `d` slots from its initial bucket without meeting `k`. */
  ghost predicate Passed<K(!new), V>(home: K -> nat, s: seq<Bucket<K, V>>, cap: nat, k: K, d: nat)
    requires Homes(home, cap) && |s| == cap + 1 && d <= cap
  {
    forall q :: 0 <= q < cap && s[q].dib > 0 && s[q].key == k ==> d <= Dist(cap, home(k), q)
  }

  /** Where the probe distance exceeds the stored one, the search is over: `k` is nowhere in the table. */
  lemma Absent<K(!new), V>(home: K -> nat, s: seq<Bucket<K, V>>, cap: nat, m: map<K, V>, k: K, d: nat)
    requires Sound(home, s, cap, m)
    requires d <= cap && Passed(home, s, cap, k, d)
    requires s[At(cap, home(k), d)].dib < d + 1
    ensures k !in m
  {
    if k in m {
      var q: nat :| Stores(s, cap, cap, q, k);
      OnPath(home, s, cap, cap, m, q, d);
    }
  }

  lemma ProbeStart<K(!new), V>(home: K -> nat, s: seq<Bucket<K, V>>, cap: nat, m: map<K, V>, k: K)
    requires Sound(home, s, cap, m)
    ensures home(k) < cap && At(cap, home(k), 0) == home(k) && Passed(home, s, cap, k, 0)
  {
  }

  /** Probing on past a slot that is further from home, or as far but of another key. */
  lemma ProbeOn<K(!new), V>(home: K -> nat, s: seq<Bucket<K, V>>, cap: nat, m: map<K, V>, k: K, p: nat, dib: nat)
    requires Sound(home, s, cap, m) && home(k) < cap
    requires 1 <= dib <= cap + 1 && p == At(cap, home(k), dib - 1) && Passed(home, s, cap, k, dib - 1)
    requires dib < s[p].dib || (dib == s[p].dib && s[p].key != k)
    ensures dib <= cap && Next(cap, p) == At(cap, home(k), dib) && Passed(home, s, cap, k, dib)
  {
    forall q | 0 <= q < cap && s[q].dib > 0 && s[q].key == k ensures dib <= Dist(cap, home(k), q) {
      assert Dist(cap, home(k), q) == dib - 1 ==> q == p;
    }
  }

  lemma AtMostTop<K(!new), V>(home: K -> nat, s: seq<Bucket<K, V>>, cap: nat, m: map<K, V>, p: nat)
    requires Sound(home, s, cap, m) && p < cap
    ensures s[p].dib <= 255
  {
  }

  lemma HitIsStored<K(!new), V>(home: K -> nat, s: seq<Bucket<K, V>>, cap: nat, m: map<K, V>, p: nat)
    requires Sound(home, s, cap, m)
    requires p < cap && s[p].dib > 0
    ensures s[p].key in m && m[s[p].key] == s[p].val
  {
  }

  // ---------- counting ----------

  /** The keys stored in the `n` slots from `a` on. */
  ghost function {:induction false} KeysIn<K, V>(s: seq<Bucket<K, V>>, cap: nat, a: nat, n: nat): (keys: set<K>)
    requires |s| == cap + 1 && a < cap && n <= cap
    ensures |keys| <= n
  {
    if n == 0 then {}
    else if s[At(cap, a, n - 1)].dib == 0 then KeysIn(s, cap, a, n - 1)
    else KeysIn(s, cap, a, n - 1) + {s[At(cap, a, n - 1)].key}
  }

  lemma {:induction false} KeysInHas<K, V>(s: seq<Bucket<K, V>>, cap: nat, a: nat, n: nat, q: nat)
    requires |s| == cap + 1 && a < cap && n <= cap
    requires q < cap && Dist(cap, a, q) < n && s[q].dib > 0
    ensures s[q].key in KeysIn(s, cap, a, n)
  {
    if q != At(cap, a, n - 1) {
      KeysInHas(s, cap, a, n - 1, q);
    }
  }

  lemma {:induction false} KeysInOnly<K, V>(s: seq<Bucket<K, V>>, cap: nat, a: nat, n: nat, k: K) returns (q: nat)
    requires |s| == cap + 1 && a < cap && n <= cap && k in KeysIn(s, cap, a, n)
    ensures q < cap && Dist(cap, a, q) < n && s[q].dib > 0 && s[q].key == k
  {
    q := At(cap, a, n - 1);
    if s[q].dib == 0 || s[q].key != k {
      q := KeysInOnly(s, cap, a, n - 1, k);
    }
  }

  /** A run without an empty slot stores as many keys as it has slots. */
  lemma {:induction false} KeysInFull<K(!new), V>(home: K -> nat, s: seq<Bucket<K, V>>, cap: nat, m: map<K, V>, a: nat,
                                                  n: nat)
    requires Sound(home, s, cap, m) && a < cap && n <= cap
    requires forall d :: 0 <= d < n ==> s[At(cap, a, d)].dib > 0
    ensures |KeysIn(s, cap, a, n)| == n && KeysIn(s, cap, a, n) <= m.Keys
  {
    hide Dist, At, Placed, Stepped, Distinct, Holds;
    if n > 0 {
      KeysInFull(home, s, cap, m, a, n - 1);
      assert s[At(cap, a, n - 1)].dib > 0;
      NextKey(home, s, cap, m, a, n);
    }
  }

  lemma NextKey<K(!new), V>(home: K -> nat, s: seq<Bucket<K, V>>, cap: nat, m: map<K, V>, a: nat, n: nat)
    requires Sound(home, s, cap, m) && a < cap && 0 < n <= cap && s[At(cap, a, n - 1)].dib > 0
    ensures s[At(cap, a, n - 1)].key in m && s[At(cap, a, n - 1)].key !in KeysIn(s, cap, a, n - 1)
  {
    hide Dist, At, Stepped, Placed;
    var p := At(cap, a, n - 1);
    if s[p].key in KeysIn(s, cap, a, n - 1) {
      var q := KeysInOnly(s, cap, a, n - 1, s[p].key);
    }
  }

  /** A run outside of which nothing is stored has every key. */
  lemma KeysInAll<K(!new), V>(home: K -> nat, s: seq<Bucket<K, V>>, cap: nat, m: map<K, V>, a: nat, n: nat)
    requires Sound(home, s, cap, m) && a < cap && n <= cap
    requires forall q :: 0 <= q < cap && s[q].dib > 0 ==> Dist(cap, a, q) < n
    ensures m.Keys <= KeysIn(s, cap, a, n)
  {
    forall k | k in m ensures k in KeysIn(s, cap, a, n) {
      var q: nat :| Stores(s, cap, cap, q, k);
      KeysInHas(s, cap, a, n, q);
    }
  }

  lemma {:induction false} CardinalityOfSubset<T>(a: set<T>, b: set<T>)
    requires a <= b
    ensures |a| <= |b|
    decreases a
  {
    if a != {} {
      var x :| x in a;
      CardinalityOfSubset(a - {x}, b - {x});
    }
  }

  /** No element is further from home than there are elements. */
  lemma DibBound<K(!new), V>(home: K -> nat, s: seq<Bucket<K, V>>, cap: nat, m: map<K, V>, q: nat)
    requires Sound(home, s, cap, m)
    requires q < cap && s[q].dib > 0
    ensures s[q].dib <= |m|
  {
    var h := home(s[q].key);
    forall d | 0 <= d < s[q].dib ensures s[At(cap, h, d)].dib > 0 {
      OnPath(home, s, cap, cap, m, q, d);
    }
    KeysInFull(home, s, cap, m, h, s[q].dib);
    CardinalityOfSubset(KeysIn(s, cap, h, s[q].dib), m.Keys);
  }

  /** Fewer elements than slots leave a slot empty. */
  lemma EmptyExists<K(!new), V>(home: K -> nat, s: seq<Bucket<K, V>>, cap: nat, m: map<K, V>) returns (e: nat)
    requires Sound(home, s, cap, m)
    requires |m| < cap
    ensures e < cap && s[e].dib == 0
  {
    if exists p :: 0 <= p < cap && s[p].dib == 0 {
      e :| e < cap && s[e].dib == 0;
    } else {
      e := 0;
      KeysInFull(home, s, cap, m, 0, cap);
      CardinalityOfSubset(KeysIn(s, cap, 0, cap), m.Keys);
      assert false;
    }
  }

  /** With an empty slot on the ring, nothing is a full turn away from home. */
  lemma NoFullTurn<K(!new), V>(home: K -> nat, s: seq<Bucket<K, V>>, cap: nat, m: map<K, V>, q: nat, e: nat)
    requires Sound(home, s, cap, m)
    requires q < cap && e < cap && s[e].dib == 0
    ensures s[q].dib < cap
  {
    var h := home(s[q].key);
    var d := Dist(cap, h, e);
    assert At(cap, h, d) == e;
    if s[q].dib >= cap {
      OnPath(home, s, cap, cap, m, q, d);
      assert false;
    }
  }

  // ---------- insertion ----------

  /** An element `k`, absent from the slots already probed, is offered to slot `p` with probe distance `dib`. */
  ghost predicate Offered<K(!new), V>(home: K -> nat, s: seq<Bucket<K, V>>, cap: nat, k: K, p: nat, dib: nat)
    requires Homes(home, cap) && |s| == cap + 1
  {
    && p < cap
    && 1 <= dib <= 255
    && dib <= cap
    && p == At(cap, home(k), dib - 1)
    && Passed(home, s, cap, k, dib - 1)
    && (dib > 1 ==> s[At(cap, home(k), dib - 2)].dib >= dib - 1)
  }

  lemma OfferedInRange<K(!new), V>(home: K -> nat, s: seq<Bucket<K, V>>, cap: nat, m: map<K, V>, k: K, p: nat, dib: nat)
    requires Sound(home, s, cap, m)
    requires Offered(home, s, cap, k, p, dib)
    ensures p < cap && 1 <= dib <= 255 && s[p].dib <= 255
  {
  }

  lemma OfferedAtHome<K(!new), V>(home: K -> nat, s: seq<Bucket<K, V>>, cap: nat, m: map<K, V>, k: K)
    requires Sound(home, s, cap, m)
    ensures home(k) < cap
    ensures Offered(home, s, cap, k, home(k), 1)
  {
  }

  /** Probing on past a slot that is further from home, or as far but of another key. */
  lemma OfferedNext<K(!new), V>(home: K -> nat, s: seq<Bucket<K, V>>, cap: nat, m: map<K, V>, k: K, p: nat, dib: nat,
                                e: nat)
    requires Sound(home, s, cap, m)
    requires Offered(home, s, cap, k, p, dib) && dib < 255
    requires e < cap && s[e].dib == 0
    requires dib < s[p].dib || (dib == s[p].dib && s[p].key != k)
    ensures Offered(home, s, cap, k, Next(cap, p), dib + 1)
  {
    NoFullTurn(home, s, cap, m, p, e);
    forall q | 0 <= q < cap && s[q].dib > 0 && s[q].key == k ensures dib <= Dist(cap, home(k), q) {
      assert Dist(cap, home(k), q) == dib - 1 ==> q == p;
    }
  }

  /** The free slot takes the offered element. */
  lemma Fill<K(!new), V>(home: K -> nat, s: seq<Bucket<K, V>>, cap: nat, m: map<K, V>, k: K, v: V, p: nat, dib: nat)
    requires Sound(home, s, cap, m)
    requires Offered(home, s, cap, k, p, dib)
    requires s[p].dib == 0
    ensures k !in m
    ensures Sound(home, s[p := Bucket(dib, k, v)], cap, m[k := v])
  {
    Absent(home, s, cap, m, k, dib - 1);
    var s', m' := s[p := Bucket(dib, k, v)], m[k := v];
    SteppedAfterPut(home, s, cap, m, k, v, p, dib);
    forall x | x in m' ensures exists i: nat :: Stores(s', cap, cap, i, x) {
      if x == k {
        assert Stores(s', cap, cap, p, x);
      } else {
        var i: nat :| Stores(s, cap, cap, i, x);
        assert Stores(s', cap, cap, i, x);
      }
    }
  }

  /** Putting the offered element in a slot nearer to home than it keeps the step bound. */
  lemma SteppedAfterPut<K(!new), V>(home: K -> nat, s: seq<Bucket<K, V>>, cap: nat, m: map<K, V>, k: K, v: V, p: nat,
                                    dib: nat)
    requires Sound(home, s, cap, m)
    requires Offered(home, s, cap, k, p, dib)
    requires s[p].dib < dib
    ensures Stepped(s[p := Bucket(dib, k, v)], cap)
  {
    var s' := s[p := Bucket(dib, k, v)];
    forall r {:trigger Next(cap, r)} | 0 <= r < cap ensures s'[Next(cap, r)].dib <= s'[r].dib + 1 {
      if Next(cap, r) == p && dib > 1 {
        assert r == At(cap, home(k), dib - 2);
      }
    }
  }

  /** The offered element displaces one nearer to its home, which is then offered to the next slot. */
  lemma Displace<K(!new), V>(home: K -> nat, s: seq<Bucket<K, V>>, cap: nat, m: map<K, V>, k: K, v: V, p: nat, dib: nat,
                             e: nat)
    requires Sound(home, s, cap, m)
    requires Offered(home, s, cap, k, p, dib)
    requires e < cap && s[e].dib == 0
    requires 0 < s[p].dib < dib
    ensures k !in m && s[p].key in m && m[s[p].key] == s[p].val
    ensures Sound(home, s[p := Bucket(dib, k, v)], cap, (m - {s[p].key})[k := v])
    ensures Offered(home, s[p := Bucket(dib, k, v)], cap, s[p].key, Next(cap, p), s[p].dib + 1)
  {
    Absent(home, s, cap, m, k, dib - 1);
    NoFullTurn(home, s, cap, m, p, e);
    var s' := s[p := Bucket(dib, k, v)];
    var m' := (m - {s[p].key})[k := v];
    SteppedAfterPut(home, s, cap, m, k, v, p, dib);
    assert Placed(home, s', cap);
    HoldsAfterSwap(s, cap, m, k, v, p, dib);
  }

  lemma HoldsAfterSwap<K(!new), V>(s: seq<Bucket<K, V>>, cap: nat, m: map<K, V>, k: K, v: V, p: nat, dib: nat)
    requires |s| == cap + 1 && p < cap && Distinct(s, cap, cap) && Holds(s, cap, cap, m)
    requires k !in m && s[p].dib > 0 && dib > 0
    ensures Holds(s[p := Bucket(dib, k, v)], cap, cap, (m - {s[p].key})[k := v])
  {
    var s', m' := s[p := Bucket(dib, k, v)], (m - {s[p].key})[k := v];
    forall x | x in m' ensures exists i: nat :: Stores(s', cap, cap, i, x) {
      if x == k {
        assert Stores(s', cap, cap, p, x);
      } else {
        var i: nat :| Stores(s, cap, cap, i, x);
        assert Stores(s', cap, cap, i, x);
      }
    }
  }

  /** A key already present has its value rewritten. */
  lemma Rewrite<K(!new), V>(home: K -> nat, s: seq<Bucket<K, V>>, cap: nat, m: map<K, V>, p: nat, v: V)
    requires Sound(home, s, cap, m)
    requires p < cap && s[p].dib > 0
    ensures Sound(home, s[p := s[p].(val := v)], cap, m[s[p].key := v])
    ensures s[p].key in m
  {
    var s', m' := s[p := s[p].(val := v)], m[s[p].key := v];
    forall x | x in m' ensures exists i: nat :: Stores(s', cap, cap, i, x) {
      if x == s[p].key {
        assert Stores(s', cap, cap, p, x);
      } else {
        var i: nat :| Stores(s, cap, cap, i, x);
        assert Stores(s', cap, cap, i, x);
      }
    }
  }

  // ---------- removal ----------

  /** Turning a slot into the hole removes its key. */
  lemma OpenHole<K(!new), V>(home: K -> nat, s: seq<Bucket<K, V>>, cap: nat, m: map<K, V>, p: nat)
    requires Sound(home, s, cap, m)
    requires p < cap && s[p].dib > 0
    ensures SoundBut(home, s, cap, p, m - {s[p].key})
  {
    forall x | x in m - {s[p].key} ensures exists i: nat :: Stores(s, cap, p, i, x) {
      var i: nat :| Stores(s, cap, cap, i, x);
      assert Stores(s, cap, p, i, x);
    }
  }

  /** One backward shift moves the hole a slot forward. */
  lemma MoveHole<K(!new), V>(home: K -> nat, s: seq<Bucket<K, V>>, cap: nat, m: map<K, V>, p: nat)
    requires p < cap && SoundBut(home, s, cap, p, m)
    requires s[p].dib > 0 && s[Next(cap, p)].dib > 1 && Next(cap, p) != p
    ensures var q := Next(cap, p);
            SoundBut(home, s[p := Bucket(s[q].dib - 1, s[q].key, s[q].val)], cap, q, m)
  {
    var q := Next(cap, p);
    var s' := s[p := Bucket(s[q].dib - 1, s[q].key, s[q].val)];
    assert Stepped(s', cap);
    assert Placed(home, s', cap);
    forall x | x in m ensures exists i: nat :: Stores(s', cap, q, i, x) {
      var i: nat :| Stores(s, cap, p, i, x);
      if i == q {
        assert Stores(s', cap, q, p, x);
      } else {
        assert Stores(s', cap, q, i, x);
      }
    }
  }

  /** The hole is emptied once the slot after it is empty or at home. */
  lemma CloseHole<K(!new), V>(home: K -> nat, s: seq<Bucket<K, V>>, cap: nat, m: map<K, V>, p: nat)
    requires p < cap && SoundBut(home, s, cap, p, m)
    requires s[Next(cap, p)].dib <= 1
    ensures Sound(home, s[p := s[p].(dib := 0)], cap, m)
  {
    var s' := s[p := s[p].(dib := 0)];
    forall x | x in m ensures exists i: nat :: Stores(s', cap, cap, i, x) {
      var i: nat :| Stores(s, cap, p, i, x);
      assert Stores(s', cap, cap, i, x);
    }
  }

  /** The elements behind slot `p` that are not at home go on as far as slot `q`. */
  ghost predicate ShiftsTo<K, V>(s: seq<Bucket<K, V>>, cap: nat, p: nat, q: nat)
    requires |s| == cap + 1 && p < cap && q < cap
  {
    s[Next(cap, q)].dib <= 1 && forall d :: 1 <= d <= Dist(cap, p, q) ==> s[At(cap, p, d)].dib > 1
  }

  /** A shift from `p` on stands at `q`: it was not at its end so far, and the slots ahead are as they were in `s`. */
  ghost predicate Shifting<K, V>(s: seq<Bucket<K, V>>, t: seq<Bucket<K, V>>, cap: nat, p: nat, q: nat)
    requires |s| == |t| == cap + 1 && p < cap && q < cap
  {
    && (forall d :: 1 <= d <= Dist(cap, p, q) ==> s[At(cap, p, d)].dib > 1)
    && (forall d :: Dist(cap, p, q) < d < cap ==> t[At(cap, p, d)] == s[At(cap, p, d)])
  }

  lemma ShiftBegins<K, V>(s: seq<Bucket<K, V>>, cap: nat, p: nat)
    requires |s| == cap + 1 && p < cap
    ensures Shifting(s, s, cap, p, p)
  {
  }

  lemma ShiftNext<K, V>(s: seq<Bucket<K, V>>, t: seq<Bucket<K, V>>, cap: nat, p: nat, q: nat, e: nat)
    requires |s| == |t| == cap + 1 && p < cap && q < cap && e < cap
    requires Shifting(s, t, cap, p, q) && s[p].dib > 0 && s[e].dib == 0
    ensures Dist(cap, p, Next(cap, q)) == Dist(cap, p, q) + 1 && t[Next(cap, q)] == s[Next(cap, q)]
    ensures At(cap, p, Dist(cap, p, q) + 1) == Next(cap, q)
  {
    var d := Dist(cap, p, q);
    assert At(cap, p, Dist(cap, p, e)) == e && At(cap, p, 0) == p;
    assert d + 1 < cap && At(cap, p, d + 1) == Next(cap, q);
    assert t[At(cap, p, d + 1)] == s[At(cap, p, d + 1)];
  }

  lemma ShiftedOne<K, V>(s: seq<Bucket<K, V>>, t: seq<Bucket<K, V>>, t': seq<Bucket<K, V>>, cap: nat, p: nat, q: nat,
                         e: nat)
    requires |s| == |t| == |t'| == cap + 1 && p < cap && q < cap && e < cap
    requires Shifting(s, t, cap, p, q) && s[p].dib > 0 && s[e].dib == 0
    requires t[Next(cap, q)].dib > 1 && forall i :: 0 <= i < cap && i != q ==> t'[i] == t[i]
    ensures Shifting(s, t', cap, p, Next(cap, q))
  {
    ShiftNext(s, t, cap, p, q, e);
  }

  lemma ShiftEnds<K, V>(s: seq<Bucket<K, V>>, t: seq<Bucket<K, V>>, cap: nat, p: nat, q: nat, e: nat)
    requires |s| == |t| == cap + 1 && p < cap && q < cap && e < cap
    requires Shifting(s, t, cap, p, q) && s[p].dib > 0 && s[e].dib == 0
    requires t[Next(cap, q)].dib <= 1
    ensures ShiftsTo(s, cap, p, q) && Dist(cap, p, q) + 1 < cap
  {
    ShiftNext(s, t, cap, p, q, e);
  }

  lemma ShiftedClosed<K, V>(s: seq<Bucket<K, V>>, t: seq<Bucket<K, V>>, t': seq<Bucket<K, V>>, cap: nat, p: nat, q: nat)
    requires |s| == |t| == |t'| == cap + 1 && p < cap && q < cap && Shifting(s, t, cap, p, q)
    requires forall i :: 0 <= i < cap && i != q ==> t'[i] == t[i]
    ensures Shifting(s, t', cap, p, q)
  {
  }

  /** A shift has one end. */
  lemma ShiftsOnce<K, V>(s: seq<Bucket<K, V>>, cap: nat, p: nat, q: nat, q': nat)
    requires |s| == cap + 1 && p < cap && q < cap && q' < cap
    requires ShiftsTo(s, cap, p, q) && ShiftsTo(s, cap, p, q')
    ensures q == q'
  {
    assert At(cap, p, Dist(cap, p, q) + 1) == Next(cap, q);
    assert At(cap, p, Dist(cap, p, q') + 1) == Next(cap, q');
  }

  // ---------- draining one table into another ----------

  /** Of the bindings `m` in the slots `s`, those before slot `i` have moved to `c`. */
  ghost predicate Moved<K(!new), V>(s: seq<Bucket<K, V>>, cap: nat, i: nat, m: map<K, V>, c: map<K, V>)
    requires |s| == cap + 1 && i <= cap
  {
    && (forall k :: k in c ==> k in m && c[k] == m[k])
    && (forall k :: k in m && k !in c ==> exists p: nat :: i <= p && Stores(s, cap, cap, p, k))
    && (forall p :: i <= p < cap && s[p].dib > 0 ==> s[p].key !in c)
  }

  lemma MovedNone<K(!new), V>(home: K -> nat, s: seq<Bucket<K, V>>, cap: nat, m: map<K, V>)
    requires Sound(home, s, cap, m)
    ensures Moved(s, cap, 0, m, map[])
  {
  }

  lemma MovedPastEmpty<K(!new), V>(s: seq<Bucket<K, V>>, cap: nat, i: nat, m: map<K, V>, c: map<K, V>)
    requires |s| == cap + 1 && i < cap && s[i].dib == 0
    requires Moved(s, cap, i, m, c)
    ensures Moved(s, cap, i + 1, m, c)
  {
    forall k | k in m && k !in c ensures exists p: nat :: i + 1 <= p && Stores(s, cap, cap, p, k) {
      var p: nat :| i <= p && Stores(s, cap, cap, p, k);
      assert p != i;
    }
  }

  lemma MovedOne<K(!new), V>(home: K -> nat, s: seq<Bucket<K, V>>, cap: nat, i: nat, m: map<K, V>, c: map<K, V>)
    requires Sound(home, s, cap, m)
    requires i < cap && s[i].dib > 0
    requires Moved(s, cap, i, m, c)
    ensures Moved(s, cap, i + 1, m, c[s[i].key := s[i].val])
  {
    var c' := c[s[i].key := s[i].val];
    forall k | k in m && k !in c' ensures exists p: nat :: i + 1 <= p && Stores(s, cap, cap, p, k) {
      var p: nat :| i <= p && Stores(s, cap, cap, p, k);
      assert p != i;
    }
  }

  lemma MovedKeys<K(!new), V>(s: seq<Bucket<K, V>>, cap: nat, i: nat, m: map<K, V>, c: map<K, V>, k: K, v: V)
    requires |s| == cap + 1 && i <= cap && Moved(s, cap, i, m, c[k := v])
    ensures c.Keys + {k} <= m.Keys
  {
    forall x | x in c.Keys + {k} ensures x in m {
      assert x in c[k := v];
    }
  }

  lemma MovedAll<K(!new), V>(s: seq<Bucket<K, V>>, cap: nat, m: map<K, V>, c: map<K, V>)
    requires |s| == cap + 1 && Moved(s, cap, cap, m, c)
    ensures c == m
  {
  }

  /** A buffer that held the slots `s`, the first `i` of which have been emptied. */
  ghost predicate Drained<K, V>(b: seq<Bucket<K, V>>, s: seq<Bucket<K, V>>, cap: nat, i: nat)
    requires |s| == cap + 1
  {
    && |b| == cap + 1
    && (forall p :: 0 <= p < i <= cap ==> b[p].dib == 0)
    && (forall p :: i <= p <= cap ==> b[p] == s[p])
  }

  lemma DrainedIsIdle<K(!new), V>(home: K -> nat, s: seq<Bucket<K, V>>, b: seq<Bucket<K, V>>, cap: nat, m: map<K, V>)
    requires Sound(home, s, cap, m) && Drained(b, s, cap, cap)
    ensures Idle(b)
  {
  }

  lemma SomeFilled<K(!new), V>(home: K -> nat, s: seq<Bucket<K, V>>, cap: nat, m: map<K, V>)
    requires Sound(home, s, cap, m) && |m| >= 1
    ensures exists p :: 0 <= p < cap && s[p].dib > 0
  {
    var k :| k in m;
    var p: nat :| Stores(s, cap, cap, p, k);
  }
}
