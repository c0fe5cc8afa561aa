/** `BTreeMap<String, V>` as a strictly ascending association list: iteration is the list
    itself, in ascending key order, and `View` is the map it stands for. */
module OrderedMap {
  import opened Wrappers
  import opened Text

  ghost predicate Sorted<V>(es: seq<(string, V)>) {
    forall i, j :: 0 <= i < j < |es| ==> Below(es[i].0, es[j].0)
  }

  /** Every key of `es` lies strictly above `lo`. */
  ghost predicate AllAbove<V>(lo: string, es: seq<(string, V)>) {
    forall i :: 0 <= i < |es| ==> Below(lo, es[i].0)
  }

  type BTree<V> = es: seq<(string, V)> | Sorted(es) witness []

  function View<V>(es: seq<(string, V)>): map<string, V>
    decreases |es|
  {
    if |es| == 0 then map[] else View(es[1..])[es[0].0 := es[0].1]
  }

  /** The keys in iteration order. */
  function KeyList<V>(es: seq<(string, V)>): (ks: seq<string>)
    ensures |ks| == |es| && forall i :: 0 <= i < |es| ==> ks[i] == es[i].0
  {
    seq(|es|, i requires 0 <= i < |es| => es[i].0)
  }

  lemma {:induction false} InView<V>(es: seq<(string, V)>, i: nat)
    requires Sorted(es) && i < |es|
    ensures es[i].0 in View(es) && View(es)[es[i].0] == es[i].1
    decreases |es|
  {
    if i > 0 {
      InView(es[1..], i - 1);
      BelowIrreflexive(es[0].0);
      assert Below(es[0].0, es[i].0);
    }
  }

  lemma {:induction false} NotInView<V>(lo: string, es: seq<(string, V)>)
    requires AllAbove(lo, es)
    ensures lo !in View(es)
    decreases |es|
  {
    if |es| > 0 {
      BelowIrreflexive(lo);
      NotInView(lo, es[1..]);
    }
  }

  /** A key is in the view exactly when some entry carries it. */
  lemma {:induction false} ViewKeys<V>(es: seq<(string, V)>, k: string)
    requires Sorted(es)
    ensures k in View(es) <==> exists i :: 0 <= i < |es| && es[i].0 == k
    decreases |es|
  {
    if |es| > 0 {
      ViewKeys(es[1..], k);
      if k in View(es[1..]) {
        var i :| 0 <= i < |es[1..]| && es[1..][i].0 == k;
        assert es[i + 1].0 == k;
      }
      if exists i :: 0 <= i < |es| && es[i].0 == k {
        var i :| 0 <= i < |es| && es[i].0 == k;
        if i > 0 {
          assert es[1..][i - 1].0 == k;
        }
      }
    }
  }

  /** Keys are unique, so the list holds one entry per key of the map. */
  lemma {:induction false} ViewSize<V>(es: seq<(string, V)>)
    requires Sorted(es)
    ensures |View(es)| == |es|
    decreases |es|
  {
    if |es| > 0 {
      ViewSize(es[1..]);
      NotInView(es[0].0, es[1..]);
    }
  }

  /** `get`: the value stored under `k`, if any. */
  function Get<V>(es: BTree<V>, k: string): (r: Option<V>)
    ensures r.Some? <==> k in View(es)
    ensures r.Some? ==> r.value == View(es)[k]
    decreases |es|
  {
    if |es| == 0 then None
    else if es[0].0 == k then Some(es[0].1)
    else Get(es[1..], k)
  }

  /** `insert`: replaces the value of an existing key in place, or adds a new key at its
      ordered position. */
  function Put<V>(es: BTree<V>, k: string, v: V): (r: BTree<V>)
    ensures View(r) == View(es)[k := v]
    ensures |r| == if k in View(es) then |es| else |es| + 1
    ensures forall lo :: AllAbove(lo, es) && Below(lo, k) ==> AllAbove(lo, r)
    decreases |es|
  {
    if |es| == 0 then
      [(k, v)]
    else if es[0].0 == k then
      PutReplace(es, v);
      [(k, v)] + es[1..]
    else if Below(k, es[0].0) then
      PutFront(es, k, v);
      [(k, v)] + es
    else
      BelowTotal(k, es[0].0);
      var tail := Put(es[1..], k, v);
      PutBehind(es, k, v, tail);
      [es[0]] + tail
  }

  /** Replacing the value of the first key keeps the keys and their order. */
  lemma PutReplace<V>(es: BTree<V>, v: V)
    requires |es| > 0
    ensures var r := [(es[0].0, v)] + es[1..];
      && Sorted(r) && View(r) == View(es)[es[0].0 := v] && es[0].0 in View(es)
      && forall lo :: AllAbove(lo, es) ==> AllAbove(lo, r)
  {
    var r := [(es[0].0, v)] + es[1..];
    assert r[1..] == es[1..];
    forall i, j | 0 <= i < j < |r| ensures Below(r[i].0, r[j].0) {
      assert r[j] == es[j];
      if i > 0 {
        assert r[i] == es[i];
      }
    }
    UpdateTwice(View(es[1..]), es[0].0, es[0].1, v);
    forall lo | AllAbove(lo, es) ensures AllAbove(lo, r) {
      assert forall i :: 0 < i < |r| ==> r[i] == es[i];
      assert Below(lo, es[0].0);
    }
    InView(es, 0);
  }

  lemma UpdateTwice<K, V>(m: map<K, V>, k: K, a: V, b: V)
    ensures m[k := a][k := b] == m[k := b]
  {
  }

  /** A key below the first key goes in front, and it was not present. */
  lemma PutFront<V>(es: BTree<V>, k: string, v: V)
    requires |es| > 0 && Below(k, es[0].0)
    ensures var r := [(k, v)] + es;
      && Sorted(r) && View(r) == View(es)[k := v] && k !in View(es)
      && forall lo :: Below(lo, k) ==> AllAbove(lo, r)
  {
    var r := [(k, v)] + es;
    forall i | 0 <= i < |es| ensures Below(k, es[i].0) {
      if i > 0 { BelowTransitive(k, es[0].0, es[i].0); }
    }
    NotInView(k, es);
    assert r[1..] == es;
    forall lo | Below(lo, k) ensures AllAbove(lo, r) {
      forall i | 0 <= i < |r| ensures Below(lo, r[i].0) {
        if i > 0 { BelowTransitive(lo, k, r[i].0); }
      }
    }
  }

  /** A key above the first key goes into the tail, behind the first entry. */
  lemma PutBehind<V>(es: BTree<V>, k: string, v: V, tail: BTree<V>)
    requires |es| > 0 && Below(es[0].0, k)
    requires View(tail) == View(es[1..])[k := v]
    requires |tail| == if k in View(es[1..]) then |es| - 1 else |es|
    requires forall lo :: AllAbove(lo, es[1..]) && Below(lo, k) ==> AllAbove(lo, tail)
    ensures var r := [es[0]] + tail;
      && Sorted(r) && View(r) == View(es)[k := v]
      && |r| == (if k in View(es) then |es| else |es| + 1)
      && forall lo :: AllAbove(lo, es) && Below(lo, k) ==> AllAbove(lo, r)
  {
    var r := [es[0]] + tail;
    assert AllAbove(es[0].0, es[1..]);
    assert AllAbove(es[0].0, tail);
    assert r[1..] == tail;
    BelowIrreflexive(k);
    assert es[0].0 != k;
    assert k in View(es) <==> k in View(es[1..]);
    forall lo | AllAbove(lo, es) && Below(lo, k) ensures AllAbove(lo, r) {
      assert AllAbove(lo, es[1..]);
    }
  }

  /** Inserting a key above every key present appends it at the end. */
  lemma {:induction false} PutAbove<V>(es: BTree<V>, k: string, v: V)
    requires forall i :: 0 <= i < |es| ==> Below(es[i].0, k)
    ensures Put(es, k, v) == es + [(k, v)]
    decreases |es|
  {
    if |es| > 0 {
      BelowIrreflexive(k);
      BelowAsymmetric(es[0].0, k);
      PutAbove(es[1..], k, v);
    }
  }

  /** Extending a sorted list by a largest entry adds that entry to its view. */
  lemma {:induction false} ViewSnoc<V>(es: seq<(string, V)>, e: (string, V))
    requires Sorted(es + [e])
    ensures View(es + [e]) == View(es)[e.0 := e.1]
    decreases |es|
  {
    if |es| > 0 {
      assert (es + [e])[1..] == es[1..] + [e];
      ViewSnoc(es[1..], e);
      assert (es + [e])[0] == es[0] && (es + [e])[|es|] == e;
      assert Below(es[0].0, e.0);
      BelowIrreflexive(e.0);
    }
  }

  /** The view of a one-longer prefix adds that entry to the view of the prefix. */
  lemma ViewPrefixStep<V>(es: BTree<V>, i: nat)
    requires i < |es|
    ensures View(es[..i + 1]) == View(es[..i])[es[i].0 := es[i].1]
  {
    var p := es[..i + 1];
    assert p == es[..i] + [es[i]];
    assert Sorted(p) by {
      forall a, b | 0 <= a < b < |p| ensures Below(p[a].0, p[b].0) {
        assert p[a] == es[a] && p[b] == es[b];
      }
    }
    ViewSnoc(es[..i], es[i]);
  }
}
