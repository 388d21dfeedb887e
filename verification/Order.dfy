/** The order of keys: lexicographic, as the store iterates and the merge compares them. */
module Order {
  import opened Rows

  predicate Less(a: Key, b: Key)
    decreases |a|
  {
    && b != []
    && (a == [] || a[0] < b[0] || (a[0] == b[0] && Less(a[1..], b[1..])))
  }

  /** One key comes before another when it is a proper beginning of it, or has the smaller
      character where they first differ. */
  lemma {:induction false} LessExactly(a: Key, b: Key)
    ensures Less(a, b) <==>
            exists n :: 0 <= n <= |a| && n < |b| && a[..n] == b[..n] && (n == |a| || a[n] < b[n])
    decreases |a|
  {
    if a == [] {
      if b != [] {
        assert a[..0] == b[..0];
      }
    } else if b != [] {
      if a[0] < b[0] {
        assert a[..0] == b[..0];
      } else if a[0] == b[0] {
        LessExactly(a[1..], b[1..]);
        if n :| 0 <= n <= |a[1..]| && n < |b[1..]| && a[1..][..n] == b[1..][..n] && (n == |a[1..]| || a[1..][n] < b[1..][n]) {
          assert a[..n + 1] == [a[0]] + a[1..][..n] && b[..n + 1] == [b[0]] + b[1..][..n];
        }
      }
      if n :| 0 <= n <= |a| && n < |b| && a[..n] == b[..n] && (n == |a| || a[n] < b[n]) {
        if n > 0 {
          assert a[0] == a[..n][0] == b[0];
          assert a[1..][..n - 1] == a[..n][1..] && b[1..][..n - 1] == b[..n][1..];
        }
      }
    }
  }

  /** `k` starts with `prefix`. */
  predicate Under(prefix: Key, k: Key) {
    |prefix| <= |k| && k[..|prefix|] == prefix
  }

  predicate Ascending(ks: seq<Key>) {
    forall i, j :: 0 <= i < j < |ks| ==> Less(ks[i], ks[j])
  }

  lemma {:induction false} LessTransitive(a: Key, b: Key, c: Key)
    requires Less(a, b) && Less(b, c)
    ensures Less(a, c)
    decreases |a|
  {
    if a != [] && a[0] == b[0] == c[0] {
      LessTransitive(a[1..], b[1..], c[1..]);
    }
  }

  lemma {:induction false} LessTotal(a: Key, b: Key)
    ensures a == b || Less(a, b) || Less(b, a)
    decreases |a|
  {
    if a != [] && b != [] && a[0] == b[0] {
      LessTotal(a[1..], b[1..]);
      assert a == [a[0]] + a[1..] && b == [b[0]] + b[1..];
    }
  }

  lemma {:induction false} LessAsymmetric(a: Key, b: Key)
    requires Less(a, b)
    ensures !Less(b, a) && a != b
    decreases |a|
  {
    if a != [] && a[0] == b[0] {
      LessAsymmetric(a[1..], b[1..]);
    }
  }

  lemma {:induction false} LessIrreflexive(a: Key)
    ensures !Less(a, a)
  {
    if a != [] {
      LessIrreflexive(a[1..]);
    }
  }

  lemma UnderTail(prefix: Key, k: Key)
    requires prefix != [] && k != [] && k[0] == prefix[0]
    ensures Under(prefix, k) <==> Under(prefix[1..], k[1..])
  {
  }

  /** Keys under a prefix come at or after the prefix itself ... */
  lemma {:induction false} PrefixFirst(prefix: Key, k: Key)
    requires Under(prefix, k)
    ensures !Less(k, prefix)
    decreases |prefix|
  {
    if prefix != [] {
      assert k[0] == k[..|prefix|][0];
      UnderTail(prefix, k);
      PrefixFirst(prefix[1..], k[1..]);
    }
  }

  /** ... and form one stretch: a key past the prefix and not under it comes after all of them. */
  lemma {:induction false} PrefixStretch(prefix: Key, k: Key, past: Key)
    requires Under(prefix, k) && !Under(prefix, past) && !Less(past, prefix)
    ensures Less(k, past)
    decreases |prefix|
  {
    assert prefix != [];
    assert k[0] == k[..|prefix|][0];
    if past[0] == prefix[0] {
      UnderTail(prefix, k);
      UnderTail(prefix, past);
      PrefixStretch(prefix[1..], k[1..], past[1..]);
    }
  }

  lemma AscendingAppend(ks: seq<Key>, more: seq<Key>)
    requires Ascending(ks) && Ascending(more)
    requires forall i, j :: 0 <= i < |ks| && 0 <= j < |more| ==> Less(ks[i], more[j])
    ensures Ascending(ks + more)
  {
  }

  /** An ascending sequence is determined by its members. */
  lemma {:induction false} AscendingUnique(a: seq<Key>, b: seq<Key>)
    requires Ascending(a) && Ascending(b) && forall k :: k in a <==> k in b
    ensures a == b
  {
    assert b != [] ==> b[0] in a;
    if a != [] {
      assert a[0] in b;
      SameHead(a, b);
      forall k ensures k in a[1..] <==> k in b[1..] {
        TailMember(a, k);
        TailMember(b, k);
      }
      AscendingUnique(a[1..], b[1..]);
    }
  }

  lemma SameHead(a: seq<Key>, b: seq<Key>)
    requires Ascending(a) && Ascending(b) && a != [] && b != [] && a[0] in b && b[0] in a
    ensures a[0] == b[0]
  {
    if a[0] != b[0] {
      var i :| 0 <= i < |b| && b[i] == a[0];
      var j :| 0 <= j < |a| && a[j] == b[0];
      LessAsymmetric(b[0], b[i]);
    }
  }

  lemma TailMember(a: seq<Key>, k: Key)
    requires Ascending(a) && a != []
    ensures k in a[1..] <==> k in a && k != a[0]
  {
    if k in a && k != a[0] {
      var i :| 0 <= i < |a| && a[i] == k;
      assert a[1..][i - 1] == k;
    }
    if a[0] in a[1..] {
      var i :| 0 <= i < |a[1..]| && a[1..][i] == a[0];
      LessAsymmetric(a[0], a[i + 1]);
    }
  }

  lemma {:induction false} AscendingSize(a: seq<Key>)
    requires Ascending(a)
    ensures |set k | k in a| == |a|
  {
    if a != [] {
      AscendingSize(a[1..]);
      forall k ensures k in a[1..] <==> k in a && k != a[0] {
        TailMember(a, k);
      }
      assert (set k | k in a) == (set k | k in a[1..]) + {a[0]};
    }
  }

  lemma SubsetSize<T>(a: set<T>, b: set<T>)
    requires a <= b
    ensures |a| <= |b| && (|a| == |b| ==> a == b)
  {
    assert b == a + (b - a);
  }

  /** Ascending keys all found in another ascending sequence: no more of them than there,
      and if as many then the same ones. */
  lemma AscendingSubset(a: seq<Key>, b: seq<Key>)
    requires Ascending(a) && Ascending(b) && forall k :: k in a ==> k in b
    ensures |a| <= |b| && (|a| == |b| ==> forall k :: k in b ==> k in a)
  {
    AscendingSize(a);
    AscendingSize(b);
    var ka, kb := set k | k in a, set k | k in b;
    SubsetSize(ka, kb);
    assert |a| == |b| ==> ka == kb;
    forall k | |a| == |b| && k in b ensures k in a {
      assert k in kb;
    }
  }
}
