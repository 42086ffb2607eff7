/**
  Line number programs under their reference counts. The index is a set ordered by a key that changes:
  a program is taken out before its count changes and put back after it.
 */
module ProgramIndex {
  import opened Bytes

  datatype Program = Program(data: seq<byte>, refs: nat, emit: bool)

  /** More references first; among equals the lower address. */
  predicate Before(ps: seq<Program>, p: nat, q: nat)
    requires p < |ps| && q < |ps|
  {
    ps[p].refs > ps[q].refs || (ps[p].refs == ps[q].refs && p < q)
  }

  ghost predicate Sorted(ps: seq<Program>, index: seq<nat>) {
    && (forall i :: 0 <= i < |index| ==> index[i] < |ps|)
    && (forall i, j :: 0 <= i < j < |index| ==> Before(ps, index[i], index[j]))
  }

  ghost function Members(index: seq<nat>): set<nat> {
    set p | p in index
  }

  /** Where an ordered search for x ends. */
  method LowerBound(ps: seq<Program>, index: seq<nat>, x: nat) returns (k: nat)
    requires Sorted(ps, index) && x < |ps|
    ensures k <= |index|
    ensures forall i :: 0 <= i < k ==> Before(ps, index[i], x)
    ensures forall i :: k <= i < |index| ==> !Before(ps, index[i], x)
    ensures x in index <==> k < |index| && !Before(ps, x, index[k])
    ensures x in index ==> index[k] == x
  {
    k := 0;
    while k < |index| && Before(ps, index[k], x)
      invariant k <= |index|
      invariant forall i :: 0 <= i < k ==> Before(ps, index[i], x)
    {
      k := k + 1;
    }
    if k < |index| {
      assert forall i :: k < i < |index| ==> Before(ps, index[k], index[i]);
    }
  }

  method Remove(ps: seq<Program>, index: seq<nat>, x: nat) returns (r: seq<nat>)
    requires Sorted(ps, index) && x < |ps|
    ensures Sorted(ps, r) && Members(r) == Members(index) - {x}
    ensures x !in index ==> r == index
  {
    var k := LowerBound(ps, index, x);
    if k < |index| && !Before(ps, x, index[k]) {
      r := index[..k] + index[k + 1..];
      RemovedMembers(ps, index, k);
    } else {
      r := index;
    }
  }

  lemma {:induction false} RemovedMembers(ps: seq<Program>, index: seq<nat>, k: nat)
    requires Sorted(ps, index) && k < |index|
    ensures
      var r := index[..k] + index[k + 1..];
      Sorted(ps, r) && Members(r) == Members(index) - {index[k]}
  {
    var r := index[..k] + index[k + 1..];
    forall i | 0 <= i < |r| ensures r[i] == index[if i < k then i else i + 1] {
    }
    forall y ensures y in r <==> y in index && y != index[k] {
      if y in index && y != index[k] {
        var i :| 0 <= i < |index| && index[i] == y;
        assert r[if i < k then i else i - 1] == y;
      }
      if y in r {
        var i :| 0 <= i < |r| && r[i] == y;
        assert index[if i < k then i else i + 1] == y;
      }
    }
  }

  lemma {:induction false} InsertedMembers(ps: seq<Program>, index: seq<nat>, k: nat, x: nat)
    requires Sorted(ps, index) && k <= |index| && x < |ps|
    requires forall i :: 0 <= i < k ==> Before(ps, index[i], x)
    requires k < |index| ==> Before(ps, x, index[k])
    ensures
      var r := index[..k] + [x] + index[k..];
      Sorted(ps, r) && Members(r) == Members(index) + {x}
  {
    var r := index[..k] + [x] + index[k..];
    forall i | k <= i < |index| ensures Before(ps, x, index[i]) {
      assert i > k ==> Before(ps, index[k], index[i]);
    }
    forall i | 0 <= i < |r| ensures r[i] == (if i < k then index[i] else if i == k then x else index[i - 1]) < |ps| {
    }
    forall i, j | 0 <= i < j < |r| ensures Before(ps, r[i], r[j]) {
      if i != k && j != k {
        assert Before(ps, index[if i < k then i else i - 1], index[if j < k then j else j - 1]);
      }
    }
    assert index == index[..k] + index[k..];
  }

  method Add(ps: seq<Program>, index: seq<nat>, x: nat) returns (r: seq<nat>)
    requires Sorted(ps, index) && x < |ps|
    ensures Sorted(ps, r) && Members(r) == Members(index) + {x}
  {
    hide Sorted;
    var k := LowerBound(ps, index, x);
    SortedBounds(ps, index);
    if k == |index| || Before(ps, x, index[k]) {
      r := index[..k] + [x] + index[k..];
      InsertedMembers(ps, index, k, x);
    } else {
      r := index;
    }
  }

  lemma {:induction false} SortedBounds(ps: seq<Program>, index: seq<nat>)
    requires Sorted(ps, index)
    ensures forall i :: 0 <= i < |index| ==> index[i] < |ps|
  {
  }

  /** A program that is not in the set may change its count. */
  lemma {:induction false} CountOutside(ps: seq<Program>, qs: seq<Program>, index: seq<nat>, x: nat)
    requires Sorted(ps, index) && x !in index && |qs| == |ps|
      && (forall p :: 0 <= p < |ps| && p != x ==> qs[p].refs == ps[p].refs)
    ensures Sorted(qs, index)
  {
    forall i | 0 <= i < |index| ensures index[i] != x {
      assert index[i] in index;
    }
  }

  method ChangeRefCount(ps: seq<Program>, index: seq<nat>, x: nat, refs: nat) returns (qs: seq<Program>, r: seq<nat>)
    requires Sorted(ps, index) && x in index && x < |ps|
    ensures qs == ps[x := ps[x].(refs := refs)]
    ensures Sorted(qs, r) && Members(r) == Members(index)
  {
    var out := Remove(ps, index, x);
    qs := ps[x := ps[x].(refs := refs)];
    assert x !in Members(out);
    CountOutside(ps, qs, out, x);
    r := Add(qs, out, x);
  }
}
