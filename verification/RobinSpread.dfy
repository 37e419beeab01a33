/** How many keys a stretch of slots may be the home of before an 8-bit distance runs over. */
module RobinSpread {
  import opened RobinLayout

  /** The keys whose initial buckets are among the `len` slots from `a` on. */
  ghost function Within<K(!new)>(home: K -> nat, cap: nat, a: nat, len: nat, keys: set<K>): (r: set<K>)
    requires Homes(home, cap) && a < cap
    ensures r <= keys
  {
    set k | k in keys && Dist(cap, a, home(k)) < len
  }

  /** No stretch of `len` slots is home to `len + 255` keys or more. */
  ghost predicate Spread<K(!new)>(home: K -> nat, cap: nat, keys: set<K>)
    requires Homes(home, cap)
  {
    forall a: nat, len: nat :: a < cap && 1 <= len <= cap ==> |Within(home, cap, a, len, keys)| < len + 255
  }

  lemma FewerAreSpread<K(!new)>(home: K -> nat, cap: nat, few: set<K>, keys: set<K>)
    requires Homes(home, cap) && few <= keys && Spread(home, cap, keys)
    ensures Spread(home, cap, few)
  {
    forall a: nat, len: nat | a < cap && 1 <= len <= cap ensures |Within(home, cap, a, len, few)| < len + 255 {
      CardinalityOfSubset(Within(home, cap, a, len, few), Within(home, cap, a, len, keys));
    }
  }

  lemma FewAreSpread<K(!new)>(home: K -> nat, cap: nat, keys: set<K>)
    requires Homes(home, cap) && |keys| <= 255
    ensures Spread(home, cap, keys)
  {
    forall a: nat, len: nat | a < cap && 1 <= len <= cap ensures |Within(home, cap, a, len, keys)| < len + 255 {
      CardinalityOfSubset(Within(home, cap, a, len, keys), keys);
    }
  }

  /** The keys of a table are spread: no more than `len + 254` slots are within reach of the stretch. */
  lemma SoundIsSpread<K(!new), V>(home: K -> nat, s: seq<Bucket<K, V>>, cap: nat, m: map<K, V>)
    requires Sound(home, s, cap, m)
    ensures Spread(home, cap, m.Keys)
  {
    hide SoundBut, KeysIn;
    SoundHasHomes(home, s, cap, m);
    forall a: nat, len: nat | a < cap && 1 <= len <= cap ensures |Within(home, cap, a, len, m.Keys)| < len + 255 {
      var n := if len + 254 < cap then len + 254 else cap;
      WithinReach(home, s, cap, m, a, len, n);
      CardinalityOfSubset(Within(home, cap, a, len, m.Keys), KeysIn(s, cap, a, n));
    }
  }

  lemma SoundHasHomes<K(!new), V>(home: K -> nat, s: seq<Bucket<K, V>>, cap: nat, m: map<K, V>)
    requires Sound(home, s, cap, m)
    ensures cap >= 1 && Homes(home, cap) && |s| == cap + 1
  {
  }

  lemma WithinReach<K(!new), V>(home: K -> nat, s: seq<Bucket<K, V>>, cap: nat, m: map<K, V>, a: nat, len: nat, n: nat)
    requires Sound(home, s, cap, m) && a < cap && 1 <= len <= cap && n == if len + 254 < cap then len + 254 else cap
    ensures Within(home, cap, a, len, m.Keys) <= KeysIn(s, cap, a, n)
  {
    hide KeysIn, Stepped, Distinct;
    forall k | k in Within(home, cap, a, len, m.Keys) ensures k in KeysIn(s, cap, a, n) {
      var q: nat :| Stores(s, cap, cap, q, k);
      KeysInHas(s, cap, a, n, q);
    }
  }

  // ---------- a crowd behind a distance at its top ----------

  /** Going back from a filled slot, `x` steps from an empty one, to the first of its run that is at home. */
  lemma {:induction false} RunStart<K(!new), V>(home: K -> nat, s: seq<Bucket<K, V>>, cap: nat, m: map<K, V>, e: nat,
                                                x: nat)
    returns (y: nat)
    requires Sound(home, s, cap, m) && e < cap && s[e].dib == 0 && x < cap && s[At(cap, e, x)].dib > 0
    ensures 0 < y <= x && s[At(cap, e, y)].dib == 1
    ensures forall z :: y <= z <= x ==> 0 < s[At(cap, e, z)].dib <= z - y + 1
  {
    y := x;
    if s[At(cap, e, x)].dib != 1 {
      assert Next(cap, At(cap, e, x - 1)) == At(cap, e, x);
      y := RunStart(home, s, cap, m, e, x - 1);
    }
  }

  /** No element of a run is further from its home than the start of the run is from it. */
  lemma {:induction false} RunHomes<K(!new), V>(home: K -> nat, s: seq<Bucket<K, V>>, cap: nat, m: map<K, V>,
                                               e: nat, y: nat, x: nat, z: nat)
    requires Sound(home, s, cap, m) && e < cap && y <= x <= z < cap && s[At(cap, e, x)].dib <= x - y + 1
    ensures s[At(cap, e, z)].dib <= z - y + 1
  {
    if x < z {
      RunHomes(home, s, cap, m, e, y, x, z - 1);
      assert Next(cap, At(cap, e, z - 1)) == At(cap, e, z);
    }
  }

  lemma HomeOf<K(!new), V>(home: K -> nat, s: seq<Bucket<K, V>>, cap: nat, m: map<K, V>, e: nat, y: nat, x: nat, z: nat)
    requires Sound(home, s, cap, m) && e < cap && y <= x < cap && y <= z < cap
    requires 0 < s[At(cap, e, z)].dib <= z - y + 1 && (z > x ==> s[At(cap, e, z)].dib >= z - x + 1)
    ensures Dist(cap, At(cap, e, y), home(s[At(cap, e, z)].key)) < x - y + 1
  {
    var p := At(cap, e, z);
    assert s[p].dib == Dist(cap, home(s[p].key), p) + 1;
  }

  /** Where the distance of a slot is at the top of the counter, the homes of its run have no room for one key more. */
  lemma TopIsCrowded<K(!new), V>(home: K -> nat, s: seq<Bucket<K, V>>, cap: nat, m: map<K, V>, k: K, e: nat)
    requires Sound(home, s, cap, m) && k !in m && e < cap && s[e].dib == 0
    requires cap >= 255 && home(k) < cap && s[At(cap, home(k), 254)].dib == 255
    ensures !Spread(home, cap, m.Keys + {k})
  {
    hide SoundBut, Next, Within, KeysIn;
    SoundHasHomes(home, s, cap, m);
    var h := home(k);
    var x := Dist(cap, e, h);
    TopPath(home, s, cap, m, h, e);
    var y := RunStart(home, s, cap, m, e, x);
    var a, len := At(cap, e, y), x - y + 1;
    forall d | 0 <= d < len + 254
      ensures s[At(cap, a, d)].dib > 0 && Dist(cap, a, home(s[At(cap, a, d)].key)) < len
    {
      assert At(cap, a, d) == At(cap, e, y + d);
      if y + d > x {
        RunHomes(home, s, cap, m, e, y, x, y + d);
      }
      HomeOf(home, s, cap, m, e, y, x, y + d);
    }
    KeysInFull(home, s, cap, m, a, len + 254);
    Crowded(home, s, cap, m, k, a, len);
  }

  lemma TopPath<K(!new), V>(home: K -> nat, s: seq<Bucket<K, V>>, cap: nat, m: map<K, V>, h: nat, e: nat)
    requires Sound(home, s, cap, m) && e < cap && s[e].dib == 0
    requires cap >= 255 && h < cap && s[At(cap, h, 254)].dib == 255
    ensures var x := Dist(cap, e, h);
            && At(cap, e, x) == h && x + 254 < cap
            && forall z :: x <= z <= x + 254 ==> s[At(cap, e, z)].dib >= z - x + 1
  {
    hide Distinct, Holds, Stepped;
    var p := At(cap, h, 254);
    assert home(s[p].key) == h;
    forall i | 0 <= i <= 254 ensures s[At(cap, h, i)].dib >= i + 1 {
      OnPath(home, s, cap, cap, m, p, i);
    }
    var x := Dist(cap, e, h);
    assert At(cap, h, cap - x) == e;
    forall z | x <= z <= x + 254 ensures s[At(cap, e, z)].dib >= z - x + 1 {
      assert At(cap, e, z) == At(cap, h, z - x);
    }
  }

  /** The keys of a full run whose homes are in a stretch, and one more whose home is there. */
  lemma Crowded<K(!new), V>(home: K -> nat, s: seq<Bucket<K, V>>, cap: nat, m: map<K, V>, k: K, a: nat, len: nat)
    requires Sound(home, s, cap, m) && k !in m && a < cap && 1 <= len && len + 254 <= cap
    requires KeysIn(s, cap, a, len + 254) <= m.Keys && |KeysIn(s, cap, a, len + 254)| == len + 254
    requires forall d :: 0 <= d < len + 254 && s[At(cap, a, d)].dib > 0 ==>
               Dist(cap, a, home(s[At(cap, a, d)].key)) < len
    requires home(k) < cap && Dist(cap, a, home(k)) < len
    ensures !Spread(home, cap, m.Keys + {k})
  {
    hide KeysIn, Stepped, Distinct, Holds, Placed;
    var crowd := KeysIn(s, cap, a, len + 254);
    forall x | x in crowd ensures x in Within(home, cap, a, len, m.Keys + {k}) {
      var q := KeysInOnly(s, cap, a, len + 254, x);
      assert At(cap, a, Dist(cap, a, q)) == q;
    }
    CardinalityOfSubset(crowd + {k}, Within(home, cap, a, len, m.Keys + {k}));
    assert |Within(home, cap, a, len, m.Keys + {k})| >= len + 255;
  }

  // ---------- which slots are filled ----------

  /** Which slots are filled depends on the keys alone, not on the order of their insertions. */
  lemma SameFilled<K(!new), V>(home: K -> nat, s: seq<Bucket<K, V>>, s': seq<Bucket<K, V>>, cap: nat, m: map<K, V>,
                               m': map<K, V>, p: nat)
    requires Sound(home, s, cap, m) && Sound(home, s', cap, m') && m.Keys == m'.Keys && |m| < cap
    requires p < cap && s[p].dib > 0
    ensures s'[p].dib > 0
  {
    hide SoundBut, Within, KeysIn;
    SoundHasHomes(home, s, cap, m);
    SoundHasHomes(home, s', cap, m');
    var e := EmptyExists(home, s, cap, m);
    var x := Dist(cap, e, p);
    assert At(cap, e, x) == p;
    var y := RunStart(home, s, cap, m, e, x);
    var a, len := At(cap, e, y), x - y + 1;
    RunIsAtHome(home, s, cap, m, e, y, x);
    if s'[p].dib == 0 {
      assert At(cap, a, len - 1) == p;
      BeforeTheEmpty(home, s', cap, m', a, len);
      CardinalityOfSubset(Within(home, cap, a, len, m.Keys), KeysIn(s', cap, a, len - 1));
    }
  }

  /** As many keys have their homes in a run, up to one of its slots, as it has slots up to there. */
  lemma RunIsAtHome<K(!new), V>(home: K -> nat, s: seq<Bucket<K, V>>, cap: nat, m: map<K, V>, e: nat, y: nat, x: nat)
    requires Sound(home, s, cap, m) && e < cap && s[e].dib == 0 && 0 < y <= x < cap
    requires forall z :: y <= z <= x ==> 0 < s[At(cap, e, z)].dib <= z - y + 1
    ensures Homes(home, cap) && |Within(home, cap, At(cap, e, y), x - y + 1, m.Keys)| >= x - y + 1
  {
    hide SoundBut, Within, KeysIn;
    SoundHasHomes(home, s, cap, m);
    var a, len := At(cap, e, y), x - y + 1;
    forall d | 0 <= d < len
      ensures s[At(cap, a, d)].dib > 0 && Dist(cap, a, home(s[At(cap, a, d)].key)) < len
    {
      assert At(cap, a, d) == At(cap, e, y + d);
      HomeOf(home, s, cap, m, e, y, x, y + d);
    }
    KeysInFull(home, s, cap, m, a, len);
    KeysInWithin(home, s, cap, m, a, len);
    CardinalityOfSubset(KeysIn(s, cap, a, len), Within(home, cap, a, len, m.Keys));
  }

  lemma KeysInWithin<K(!new), V>(home: K -> nat, s: seq<Bucket<K, V>>, cap: nat, m: map<K, V>, a: nat, len: nat)
    requires Sound(home, s, cap, m) && a < cap && len <= cap && KeysIn(s, cap, a, len) <= m.Keys
    requires forall d :: 0 <= d < len && s[At(cap, a, d)].dib > 0 ==> Dist(cap, a, home(s[At(cap, a, d)].key)) < len
    ensures KeysIn(s, cap, a, len) <= Within(home, cap, a, len, m.Keys)
  {
    hide KeysIn, Stepped, Distinct, Holds, Placed;
    forall k | k in KeysIn(s, cap, a, len) ensures k in Within(home, cap, a, len, m.Keys) {
      var q := KeysInOnly(s, cap, a, len, k);
      assert At(cap, a, Dist(cap, a, q)) == q;
    }
  }

  /** Nothing that has its home in front of an empty slot is stored behind it. */
  lemma BeforeTheEmpty<K(!new), V>(home: K -> nat, s: seq<Bucket<K, V>>, cap: nat, m: map<K, V>, a: nat, len: nat)
    requires Sound(home, s, cap, m) && a < cap && 1 <= len <= cap && s[At(cap, a, len - 1)].dib == 0
    ensures Within(home, cap, a, len, m.Keys) <= KeysIn(s, cap, a, len - 1)
  {
    hide KeysIn, Stepped, Distinct;
    forall k | k in Within(home, cap, a, len, m.Keys) ensures k in KeysIn(s, cap, a, len - 1) {
      var q: nat :| Stores(s, cap, cap, q, k);
      var d := len - 1 - Dist(cap, a, home(k));
      assert At(cap, home(k), d) == At(cap, a, len - 1);
      if d <= Dist(cap, home(k), q) {
        OnPath(home, s, cap, cap, m, q, d);
      }
      KeysInHas(s, cap, a, len - 1, q);
    }
  }

  // ---------- twice as many slots ----------

  /** The initial bucket in a ring half as long. */
  ghost predicate Folds<K>(home: K -> nat, cap: nat, home': K -> nat, k: K) {
    home(k) == if home'(k) < cap then home'(k) else home'(k) - cap
  }

  /** Keys that are spread over a ring are spread over the ring twice as long, under a mask of one bit more. */
  lemma SpreadDoubles<K(!new)>(home: K -> nat, cap: nat, home': K -> nat, keys: set<K>)
    requires cap >= 1 && Homes(home, cap) && Homes(home', 2 * cap)
    requires forall k :: Folds(home, cap, home', k)
    requires Spread(home, cap, keys)
    ensures Spread(home', 2 * cap, keys)
  {
    forall a: nat, len: nat | a < 2 * cap && 1 <= len <= 2 * cap
      ensures |Within(home', 2 * cap, a, len, keys)| < len + 255
    {
      var a', len' := if a < cap then a else a - cap, if len < cap then len else cap;
      assert forall k :: k in keys ==> Folds(home, cap, home', k);
      CardinalityOfSubset(Within(home', 2 * cap, a, len, keys), Within(home, cap, a', len', keys));
    }
  }
}
