/** The probe of a search: a walk around the ring with an 8-bit counter, where it stops, and what it then finds. */
module RobinProbe {
  import opened RobinLayout
  import opened RobinSpread

  const EMPTY: nat := 0
  const FILLED: nat := 1

  /** The increment of an 8-bit counter. */
  function Increment(dib: nat): (r: nat)
    ensures dib < 255 ==> r == dib + 1
    ensures dib == 255 ==> r == 0
  {
    (dib + 1) % 256
  }

  /** Where a probe stands after `n` turns of its loop, whether or not the loop would have made them. */
  function ProbeAt(cap: nat, home: nat, n: nat): (at: (nat, nat))
    requires home < cap
    ensures at.0 < cap
  {
    if n == 0 then (home, FILLED) else (Next(cap, ProbeAt(cap, home, n - 1).0), Increment(ProbeAt(cap, home, n - 1).1))
  }

  /** The loop condition of a probe. */
  predicate ProbeGoesOn<K(==), V>(s: seq<Bucket<K, V>>, k: K, at: (nat, nat))
    requires at.0 < |s|
  {
    at.1 < s[at.0].dib || (at.1 == s[at.0].dib && k != s[at.0].key)
  }

  /** The loop makes its first `n` turns, */
  ghost predicate Turning<K(!new), V>(home: K -> nat, s: seq<Bucket<K, V>>, cap: nat, k: K, n: nat)
    requires home(k) < cap && |s| == cap + 1
  {
    forall i: nat :: i < n ==> ProbeGoesOn(s, k, ProbeAt(cap, home(k), i))
  }

  /** and not a further one. */
  ghost predicate StopsAt<K(!new), V>(home: K -> nat, s: seq<Bucket<K, V>>, cap: nat, k: K, n: nat)
    requires home(k) < cap && |s| == cap + 1
  {
    Turning(home, s, cap, k, n) && !ProbeGoesOn(s, k, ProbeAt(cap, home(k), n))
  }

  /** The counter of the probe is zero where it stops, at an empty bucket with the key in it from before. */
  ghost predicate Fooled<K(!new), V>(home: K -> nat, s: seq<Bucket<K, V>>, cap: nat, k: K)
    requires home(k) < cap && |s| == cap + 1
  {
    exists n: nat ::
      StopsAt(home, s, cap, k, n) && ProbeAt(cap, home(k), n).1 == s[ProbeAt(cap, home(k), n).0].dib == EMPTY
  }

  lemma StopsOnce<K(!new), V>(home: K -> nat, s: seq<Bucket<K, V>>, cap: nat, k: K, n: nat, n': nat)
    requires home(k) < cap && |s| == cap + 1 && StopsAt(home, s, cap, k, n) && StopsAt(home, s, cap, k, n')
    ensures n == n'
  {
  }

  lemma {:induction false} ProbeWalksTheRing(cap: nat, home: nat, n: nat)
    requires home < cap && n < cap
    ensures ProbeAt(cap, home, n) == (At(cap, home, n), (n + 1) % 256)
  {
    if n > 0 {
      ProbeWalksTheRing(cap, home, n - 1);
      assert Increment(n % 256) == (n + 1) % 256;
    }
  }

  /** As long as its counter has not wrapped, a probe has ruled out the slots behind it. */
  lemma {:induction false} TurningPasses<K(!new), V>(home: K -> nat, s: seq<Bucket<K, V>>, cap: nat, m: map<K, V>, k: K,
                                                     n: nat)
    requires Sound(home, s, cap, m) && home(k) < cap && Turning(home, s, cap, k, n) && n <= 254
    ensures n <= cap && ProbeAt(cap, home(k), n) == (At(cap, home(k), n), n + 1) && Passed(home, s, cap, k, n)
  {
    hide SoundBut, Passed, At, Next;
    SoundHasHomes(home, s, cap, m);
    if n == 0 {
      ProbeStart(home, s, cap, m, k);
    } else {
      TurningPasses(home, s, cap, m, k, n - 1);
      assert ProbeGoesOn(s, k, ProbeAt(cap, home(k), n - 1));
      ProbeOn(home, s, cap, m, k, At(cap, home(k), n - 1), n);
    }
  }

  /** Before its counter wraps, a probe stops with the right answer. */
  lemma EarlyStop<K(!new), V>(home: K -> nat, s: seq<Bucket<K, V>>, cap: nat, m: map<K, V>, k: K, n: nat)
    requires Sound(home, s, cap, m) && home(k) < cap && StopsAt(home, s, cap, k, n) && n <= 254
    ensures var (p, dib) := ProbeAt(cap, home(k), n);
            dib != EMPTY && (dib == s[p].dib <==> k in m) && (k in m ==> s[p].key == k)
  {
    hide SoundBut, Passed, At, Next;
    SoundHasHomes(home, s, cap, m);
    TurningPasses(home, s, cap, m, k, n);
    var p := At(cap, home(k), n);
    if s[p].dib == n + 1 {
      HitIsStored(home, s, cap, m, p);
    } else {
      Absent(home, s, cap, m, k, n);
    }
  }

  /** A counter wraps in a probe for an absent key only, and only with the slot 254 steps from its home at the top of
      the distance. */
  lemma WrapsIff<K(!new), V>(home: K -> nat, s: seq<Bucket<K, V>>, cap: nat, m: map<K, V>, k: K)
    requires Sound(home, s, cap, m) && home(k) < cap && |m| < cap
    ensures Turning(home, s, cap, k, 255) <==> k !in m && cap >= 255 && s[At(cap, home(k), 254)].dib == 255
  {
    hide Passed, At, Next;
    if Turning(home, s, cap, k, 255) {
      WrapsOnly(home, s, cap, m, k);
    }
    if k !in m && cap >= 255 && s[At(cap, home(k), 254)].dib == 255 {
      FullPathWraps(home, s, cap, m, k);
    }
  }

  lemma WrapsOnly<K(!new), V>(home: K -> nat, s: seq<Bucket<K, V>>, cap: nat, m: map<K, V>, k: K)
    requires Sound(home, s, cap, m) && home(k) < cap && |m| < cap && Turning(home, s, cap, k, 255)
    ensures k !in m && cap >= 255 && s[At(cap, home(k), 254)].dib == 255
  {
    hide Next, At, Dist, SoundBut, Passed;
    SoundHasHomes(home, s, cap, m);
    TurningPasses(home, s, cap, m, k, 254);
    assert ProbeGoesOn(s, k, ProbeAt(cap, home(k), 254));
    var e := EmptyExists(home, s, cap, m);
    EmptyStops(home, s, cap, m, k, e);
    FurthestIs(home, s, cap, m, k);
  }

  /** A probe that has passed 254 slots can meet its key in the next one only. */
  lemma FurthestIs<K(!new), V>(home: K -> nat, s: seq<Bucket<K, V>>, cap: nat, m: map<K, V>, k: K)
    requires Sound(home, s, cap, m) && home(k) < cap && cap >= 254 && Passed(home, s, cap, k, 254)
    ensures cap == 254 ==> k !in m
    ensures cap > 254 && k in m ==> s[At(cap, home(k), 254)].key == k && s[At(cap, home(k), 254)].dib == 255
    ensures cap > 254 ==> s[At(cap, home(k), 254)].dib <= 255
  {
    if k in m {
      var q: nat :| Stores(s, cap, cap, q, k);
      assert At(cap, home(k), Dist(cap, home(k), q)) == q;
    }
  }

  /** An empty slot less than 255 steps from home is the end of a probe. */
  lemma EmptyStops<K(!new), V>(home: K -> nat, s: seq<Bucket<K, V>>, cap: nat, m: map<K, V>, k: K, e: nat)
    requires Sound(home, s, cap, m) && home(k) < cap && e < cap && s[e].dib == 0
    ensures Dist(cap, home(k), e) <= 254 ==> !Turning(home, s, cap, k, 255)
  {
    hide SoundBut, Passed, Next;
    SoundHasHomes(home, s, cap, m);
    var d := Dist(cap, home(k), e);
    ProbeWalksTheRing(cap, home(k), d);
    assert At(cap, home(k), d) == e;
    assert d <= 254 ==> !ProbeGoesOn(s, k, ProbeAt(cap, home(k), d));
  }

  lemma FullPathWraps<K(!new), V>(home: K -> nat, s: seq<Bucket<K, V>>, cap: nat, m: map<K, V>, k: K)
    requires Sound(home, s, cap, m) && home(k) < cap && cap >= 255
    requires k !in m && s[At(cap, home(k), 254)].dib == 255
    ensures Turning(home, s, cap, k, 255)
  {
    hide Distinct, Stepped;
    var p := At(cap, home(k), 254);
    assert home(s[p].key) == home(k);
    forall n: nat | n < 255 ensures ProbeGoesOn(s, k, ProbeAt(cap, home(k), n)) {
      ProbeWalksTheRing(cap, home(k), n);
      OnPath(home, s, cap, cap, m, p, n);
      HitIsStored(home, s, cap, m, At(cap, home(k), n));
    }
  }

  /** What a probe finds where it stops: the key, when the table has it or the probe was fooled. */
  lemma ProbeOutcome<K(!new), V>(home: K -> nat, s: seq<Bucket<K, V>>, cap: nat, m: map<K, V>, k: K, n: nat)
    requires Sound(home, s, cap, m) && home(k) < cap && |m| < cap && StopsAt(home, s, cap, k, n)
    ensures var (p, dib) := ProbeAt(cap, home(k), n);
            && (dib == s[p].dib <==> k in m || Fooled(home, s, cap, k))
            && (dib == s[p].dib ==> s[p].key == k && (dib > EMPTY <==> k in m))
    ensures k in m ==> !Fooled(home, s, cap, k)
  {
    hide SoundBut, At, Next;
    SoundHasHomes(home, s, cap, m);
    var (p, dib) := ProbeAt(cap, home(k), n);
    if Fooled(home, s, cap, k) {
      var i: nat :| StopsAt(home, s, cap, k, i)
          && ProbeAt(cap, home(k), i).1 == s[ProbeAt(cap, home(k), i).0].dib == EMPTY;
      StopsOnce(home, s, cap, k, n, i);
    }
    if n <= 254 {
      EarlyStop(home, s, cap, m, k, n);
    } else {
      assert Turning(home, s, cap, k, 255);
      WrapsIff(home, s, cap, m, k);
      if s[p].dib > EMPTY {
        HitIsStored(home, s, cap, m, p);
      }
    }
  }

  // ---------- probes end ----------

  ghost predicate Ends<K(!new), V>(home: K -> nat, s: seq<Bucket<K, V>>, cap: nat, k: K)
    requires home(k) < cap && |s| == cap + 1
  {
    exists n: nat :: !ProbeGoesOn(s, k, ProbeAt(cap, home(k), n))
  }

  /** A probe whose counter does not wrap ends, and is not fooled. */
  lemma UnwrappedEnds<K(!new), V>(home: K -> nat, s: seq<Bucket<K, V>>, cap: nat, m: map<K, V>, k: K)
    requires Sound(home, s, cap, m) && home(k) < cap && !Turning(home, s, cap, k, 255)
    ensures Ends(home, s, cap, k) && !Fooled(home, s, cap, k)
  {
    hide SoundBut, ProbeAt, ProbeGoesOn;
    SoundHasHomes(home, s, cap, m);
    if Fooled(home, s, cap, k) {
      var i: nat :| StopsAt(home, s, cap, k, i)
          && ProbeAt(cap, home(k), i).1 == s[ProbeAt(cap, home(k), i).0].dib == EMPTY;
      if i <= 254 {
        EarlyStop(home, s, cap, m, k, i);
      }
    }
  }

  /** With the load factor of level seven or less every probe ends: some empty slot is not met with the counter at
      zero. */
  lemma LoadEnds<K(!new), V>(home: K -> nat, s: seq<Bucket<K, V>>, cap: nat, m: map<K, V>, k: K)
    requires Sound(home, s, cap, m) && home(k) < cap && (|m| * 128 <= cap * 128 - cap)
    ensures Ends(home, s, cap, k)
  {
    hide SoundBut, KeysIn;
    var h := home(k);
    SoundHasHomes(home, s, cap, m);
    if forall d :: 0 <= d < cap && d % 256 != 255 ==> s[At(cap, h, d)].dib > 0 {
      var keys := KeysBetween(home, s, cap, m, h, cap);
      CardinalityOfSubset(keys, m.Keys);
      assert false;
    } else {
      var d: nat :| d < cap && d % 256 != 255 && s[At(cap, h, d)].dib == 0;
      ProbeWalksTheRing(cap, h, d);
      assert !ProbeGoesOn(s, k, ProbeAt(cap, h, d));
    }
  }

  lemma Hundreds(n: nat)
    requires n > 0
    ensures n / 256 == (n - 1) / 256 + (if (n - 1) % 256 == 255 then 1 else 0)
  {
  }

  /** The keys of a run whose only empty slots are 255, 511 and so on steps from its start. */
  lemma {:induction false} KeysBetween<K(!new), V>(home: K -> nat, s: seq<Bucket<K, V>>, cap: nat, m: map<K, V>, a: nat,
                                                   n: nat)
    returns (keys: set<K>)
    requires Sound(home, s, cap, m) && a < cap && n <= cap
    requires forall d :: 0 <= d < n && d % 256 != 255 ==> s[At(cap, a, d)].dib > 0
    ensures keys <= m.Keys && keys <= KeysIn(s, cap, a, n) && |keys| == n - n / 256
  {
    hide Dist, At, SoundBut;
    SoundHasHomes(home, s, cap, m);
    keys := {};
    if n > 0 {
      keys := KeysBetween(home, s, cap, m, a, n - 1);
      if (n - 1) % 256 != 255 {
        NextKey(home, s, cap, m, a, n);
        keys := keys + {s[At(cap, a, n - 1)].key};
      }
      Hundreds(n);
    }
  }
}
