/**
 * Step descriptors and the stream pipelines of `createTestInstance`
 * (Unobtainium.java:57-72): the `@Step` and `@BeforeScenario` methods are
 * each sorted by name with `Comparator.comparing(name)` (a stable sort, by
 * `String.compareTo`), and the main ones are collected with
 * `Collectors.toMap`, which throws on a repeated name.
 */
module Descriptors {
  import opened Wrappers
  import opened Failures
  import opened Steps

  /** `String.compareTo(a, b) <= 0`: lexicographic order on characters, a prefix first. */
  predicate NameLe(a: string, b: string)
    decreases |a|
  {
    |a| == 0 || (|b| > 0 && (a[0] < b[0] || (a[0] == b[0] && NameLe(a[1..], b[1..]))))
  }

  lemma {:induction false} NameLeReflexive(a: string)
    ensures NameLe(a, a)
    decreases |a|
  {
    if |a| > 0 { NameLeReflexive(a[1..]); }
  }

  lemma {:induction false} NameLeTotal(a: string, b: string)
    ensures NameLe(a, b) || NameLe(b, a)
    decreases |a|
  {
    if |a| > 0 && |b| > 0 && a[0] == b[0] { NameLeTotal(a[1..], b[1..]); }
  }

  lemma {:induction false} NameLeAntisymmetric(a: string, b: string)
    requires NameLe(a, b) && NameLe(b, a)
    ensures a == b
    decreases |a|
  {
    if |a| > 0 {
      NameLeAntisymmetric(a[1..], b[1..]);
      assert a == [a[0]] + a[1..] && b == [b[0]] + b[1..];
    }
  }

  lemma {:induction false} NameLeTransitive(a: string, b: string, c: string)
    requires NameLe(a, b) && NameLe(b, c)
    ensures NameLe(a, c)
    decreases |a|
  {
    if |a| > 0 && a[0] == b[0] && b[0] == c[0] {
      NameLeTransitive(a[1..], b[1..], c[1..]);
    }
  }

  /** What `createStep` does with a descriptor's method: return a step, or throw. */
  datatype Factory = Produces(script: StepScript) | FactoryThrows(error: Throwable)

  /** A `FrameworkStep`: the annotated factory method and the annotation's name. */
  datatype Descriptor = Descriptor(name: string, factory: Factory)

  function Names(ds: seq<Descriptor>): (ns: seq<string>)
    ensures |ns| == |ds| && forall i :: 0 <= i < |ds| ==> ns[i] == ds[i].name
  {
    seq(|ds|, i requires 0 <= i < |ds| => ds[i].name)
  }

  function NameSet(ds: seq<Descriptor>): set<string>
  {
    set i | 0 <= i < |ds| :: ds[i].name
  }

  /** Ascending by name. */
  ghost predicate SortedByName(ds: seq<Descriptor>)
  {
    forall i, j :: 0 <= i < j < |ds| ==> NameLe(ds[i].name, ds[j].name)
  }

  /** The descriptors of `ds` named `n`, in their order in `ds`. */
  function Named(ds: seq<Descriptor>, n: string): seq<Descriptor>
    decreases |ds|
  {
    if ds == [] then [] else (if ds[0].name == n then [ds[0]] else []) + Named(ds[1..], n)
  }

  /** Places `d` before the first element whose name is not below `d`'s. */
  function Insert(d: Descriptor, ds: seq<Descriptor>): (r: seq<Descriptor>)
    requires SortedByName(ds)
    ensures SortedByName(r)
    ensures multiset(r) == multiset(ds) + multiset{d}
    ensures forall x :: x in r ==> x == d || x in ds
    decreases |ds|
  {
    if ds == [] || NameLe(d.name, ds[0].name) then
      InsertFirstSorted(d, ds);
      [d] + ds
    else
      var rest := Insert(d, ds[1..]);
      NameLeTotal(d.name, ds[0].name);
      InsertLaterSorted(d, ds, rest);
      assert ds == [ds[0]] + ds[1..];
      [ds[0]] + rest
  }

  lemma InsertFirstSorted(d: Descriptor, ds: seq<Descriptor>)
    requires SortedByName(ds)
    requires ds == [] || NameLe(d.name, ds[0].name)
    ensures SortedByName([d] + ds)
  {
    var r := [d] + ds;
    forall i, j | 0 <= i < j < |r| ensures NameLe(r[i].name, r[j].name) {
      if i == 0 && j > 1 { NameLeTransitive(d.name, ds[0].name, ds[j - 1].name); }
      if i > 0 { assert r[i] == ds[i - 1] && r[j] == ds[j - 1]; }
    }
  }

  lemma InsertLaterSorted(d: Descriptor, ds: seq<Descriptor>, rest: seq<Descriptor>)
    requires SortedByName(ds) && ds != [] && NameLe(ds[0].name, d.name)
    requires SortedByName(rest)
    requires forall x :: x in rest ==> x == d || x in ds[1..]
    ensures SortedByName([ds[0]] + rest)
  {
    var r := [ds[0]] + rest;
    forall i, j | 0 <= i < j < |r| ensures NameLe(r[i].name, r[j].name) {
      if i == 0 {
        var x := rest[j - 1];
        assert x in rest;
        if x != d {
          var m :| 0 <= m < |ds[1..]| && ds[1..][m] == x;
          assert ds[m + 1] == x;
        }
      } else {
        assert r[i] == rest[i - 1] && r[j] == rest[j - 1];
      }
    }
  }

  /** Insertion keeps the descriptors named `n` in order, `d` first among them. */
  lemma {:induction false} InsertNamed(d: Descriptor, ds: seq<Descriptor>, n: string)
    requires SortedByName(ds)
    ensures Named(Insert(d, ds), n) == if d.name == n then [d] + Named(ds, n) else Named(ds, n)
    decreases |ds|
  {
    var r := Insert(d, ds);
    if ds == [] || NameLe(d.name, ds[0].name) {
      assert r == [d] + ds && r[1..] == ds;
    } else {
      InsertNamed(d, ds[1..], n);
      var rest := Insert(d, ds[1..]);
      assert r == [ds[0]] + rest && r[1..] == rest;
      assert d.name != ds[0].name by { NameLeReflexive(d.name); }
    }
  }

  /**
   * The pipeline `sorted(Comparator.comparing(name))`: an ascending
   * permutation of the descriptors in the order `getAnnotatedMethods`
   * returns them.
   */
  function SortByName(ds: seq<Descriptor>): (r: seq<Descriptor>)
    ensures SortedByName(r)
    ensures multiset(r) == multiset(ds)
    decreases |ds|
  {
    if ds == [] then []
    else
      assert ds == [ds[0]] + ds[1..];
      Insert(ds[0], SortByName(ds[1..]))
  }

  /** The sort is stable: descriptors sharing a name keep the order they came in. */
  lemma {:induction false} SortIsStable(ds: seq<Descriptor>, n: string)
    ensures Named(SortByName(ds), n) == Named(ds, n)
    decreases |ds|
  {
    if ds != [] {
      SortIsStable(ds[1..], n);
      InsertNamed(ds[0], SortByName(ds[1..]), n);
    }
  }

  /** No two descriptors share a name. */
  ghost predicate DistinctNames(ds: seq<Descriptor>)
  {
    forall i, j :: 0 <= i < j < |ds| ==> ds[i].name != ds[j].name
  }

  /** `Collectors.toMap(stepName, step)` continuing from `acc`: throws at the first repeated key. */
  function IndexFrom(acc: map<string, Descriptor>, ds: seq<Descriptor>): Result<map<string, Descriptor>, Throwable>
    decreases |ds|
  {
    if ds == [] then Ok(acc)
    else if ds[0].name in acc then Err(DuplicateKey(ds[0].name))
    else IndexFrom(acc[ds[0].name := ds[0]], ds[1..])
  }

  /** `stepNameToFrameworkStep`. */
  function NameIndex(ds: seq<Descriptor>): Result<map<string, Descriptor>, Throwable>
  {
    IndexFrom(map[], ds)
  }

  /** Folding `ds` into `acc` succeeds exactly when the names of `ds` are distinct and new to `acc`. */
  lemma {:induction false} IndexFromSucceedsIff(acc: map<string, Descriptor>, ds: seq<Descriptor>)
    ensures IndexFrom(acc, ds).Ok? <==> DistinctNames(ds) && forall i :: 0 <= i < |ds| ==> ds[i].name !in acc
    decreases |ds|
  {
    if ds != [] && ds[0].name !in acc {
      IndexFromSucceedsIff(acc[ds[0].name := ds[0]], ds[1..]);
      assert forall i :: 1 <= i < |ds| ==> ds[i] == ds[1..][i - 1];
    }
  }

  /** A successful fold keeps `acc` and adds each descriptor of `ds` under its name. */
  lemma {:induction false} IndexFromContents(acc: map<string, Descriptor>, ds: seq<Descriptor>)
    requires IndexFrom(acc, ds).Ok?
    ensures IndexFrom(acc, ds).value.Keys == acc.Keys + NameSet(ds)
    ensures forall i :: 0 <= i < |ds| ==> IndexFrom(acc, ds).value[ds[i].name] == ds[i]
    ensures forall n :: n in acc ==> IndexFrom(acc, ds).value[n] == acc[n]
    decreases |ds|
  {
    if ds != [] {
      var d := ds[0];
      IndexFromContents(acc[d.name := d], ds[1..]);
      IndexFromSucceedsIff(acc[d.name := d], ds[1..]);
      assert forall i :: 1 <= i < |ds| ==> ds[i] == ds[1..][i - 1];
      assert NameSet(ds) == {d.name} + NameSet(ds[1..]) by {
        forall n | n in NameSet(ds)
          ensures n in {d.name} + NameSet(ds[1..])
        {
          var i :| 0 <= i < |ds| && ds[i].name == n;
          if i > 0 { assert ds[1..][i - 1].name == n; }
        }
      }
    }
  }

  /** A failed fold names a descriptor of `ds` whose name is already in `acc` or earlier in `ds`. */
  lemma {:induction false} IndexFromFailure(acc: map<string, Descriptor>, ds: seq<Descriptor>)
    requires IndexFrom(acc, ds).Err?
    ensures exists i :: (0 <= i < |ds| && IndexFrom(acc, ds).error == DuplicateKey(ds[i].name) &&
      (ds[i].name in acc || exists j :: 0 <= j < i && ds[j].name == ds[i].name))
    decreases |ds|
  {
    var d := ds[0];
    if d.name !in acc {
      var acc' := acc[d.name := d];
      IndexFromFailure(acc', ds[1..]);
      var i :| 0 <= i < |ds[1..]| && IndexFrom(acc', ds[1..]).error == DuplicateKey(ds[1..][i].name) &&
        (ds[1..][i].name in acc' || exists j :: 0 <= j < i && ds[1..][j].name == ds[1..][i].name);
      if ds[1..][i].name in acc' && ds[1..][i].name !in acc {
        assert ds[0].name == ds[i + 1].name;
      } else if ds[1..][i].name !in acc {
        var j :| 0 <= j < i && ds[1..][j].name == ds[1..][i].name;
        assert ds[j + 1].name == ds[i + 1].name;
      }
      assert IndexFrom(acc, ds).error == DuplicateKey(ds[i + 1].name);
    }
  }

  /**
   * `toMap` over the main descriptors succeeds exactly when their names are
   * distinct; it then maps each name to its descriptor, and otherwise fails
   * with a duplicate-key exception naming a repeated name.
   */
  lemma NameIndexCorrect(ds: seq<Descriptor>)
    ensures NameIndex(ds).Ok? <==> DistinctNames(ds)
    ensures NameIndex(ds).Ok? ==>
      && NameIndex(ds).value.Keys == NameSet(ds)
      && forall i :: 0 <= i < |ds| ==> NameIndex(ds).value[ds[i].name] == ds[i]
    ensures NameIndex(ds).Err? ==> exists i, j :: (0 <= j < i < |ds| && ds[j].name == ds[i].name &&
      NameIndex(ds).error == DuplicateKey(ds[i].name))
  {
    IndexFromSucceedsIff(map[], ds);
    if NameIndex(ds).Ok? {
      IndexFromContents(map[], ds);
    } else {
      IndexFromFailure(map[], ds);
    }
  }

  /** Sorting does not change whether names repeat, so duplicates are caught after sorting too. */
  lemma SortKeepsDistinctness(ds: seq<Descriptor>)
    ensures DistinctNames(SortByName(ds)) <==> DistinctNames(ds)
  {
    var r := SortByName(ds);
    if !DistinctNames(ds) {
      var i, j :| 0 <= i < j < |ds| && ds[i].name == ds[j].name;
      var n := ds[i].name;
      NamedHasTwo(ds, i, j);
      SortIsStable(ds, n);
      if DistinctNames(r) { NamedAtMostOne(r, n); }
    }
    if !DistinctNames(r) {
      var i, j :| 0 <= i < j < |r| && r[i].name == r[j].name;
      var n := r[i].name;
      NamedHasTwo(r, i, j);
      SortIsStable(ds, n);
      if DistinctNames(ds) { NamedAtMostOne(ds, n); }
    }
  }

  lemma {:induction false} NamedHasTwo(ds: seq<Descriptor>, i: nat, j: nat)
    requires i < j < |ds| && ds[i].name == ds[j].name
    ensures |Named(ds, ds[i].name)| >= 2
    decreases |ds|
  {
    var n := ds[i].name;
    if i == 0 {
      NamedHasOne(ds[1..], j - 1, n);
    } else {
      NamedHasTwo(ds[1..], i - 1, j - 1);
    }
  }

  lemma {:induction false} NamedHasOne(ds: seq<Descriptor>, i: nat, n: string)
    requires i < |ds| && ds[i].name == n
    ensures |Named(ds, n)| >= 1
    decreases |ds|
  {
    if i > 0 { NamedHasOne(ds[1..], i - 1, n); }
  }

  lemma {:induction false} NamedAtMostOne(ds: seq<Descriptor>, n: string)
    requires DistinctNames(ds)
    ensures |Named(ds, n)| <= 1
    decreases |ds|
  {
    if ds != [] {
      NamedAtMostOne(ds[1..], n);
      if ds[0].name == n {
        assert forall k :: 0 <= k < |ds[1..]| ==> ds[1..][k].name != n by {
          assert forall k :: 0 <= k < |ds[1..]| ==> ds[1..][k] == ds[k + 1];
        }
        NamedAbsent(ds[1..], n);
      }
    }
  }

  lemma {:induction false} NamedAbsent(ds: seq<Descriptor>, n: string)
    requires forall k :: 0 <= k < |ds| ==> ds[k].name != n
    ensures Named(ds, n) == []
    decreases |ds|
  {
    if ds != [] {
      assert forall k :: 0 <= k < |ds[1..]| ==> ds[1..][k] == ds[k + 1];
      NamedAbsent(ds[1..], n);
    }
  }
}
