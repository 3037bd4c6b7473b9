/**
 * `ORDER BY createdAt DESC` followed by `OFFSET`/`LIMIT`, over the rows of a
 * table. Rows with equal timestamps may come in any order; the database's
 * choice is modelled by an arbitrary but fixed choice of the next latest row.
 */
module Recency {
  import opened Common

  /** `k` is a key of `ks` whose row is at least as recent as every row of `ks`. */
  ghost predicate IsLatest<V>(m: map<Id, V>, at: V -> nat, ks: set<Id>, k: Id)
    requires ks <= m.Keys
  {
    k in ks && forall j :: j in ks ==> at(m[j]) <= at(m[k])
  }

  /** Every non-empty set of rows has a latest one. */
  lemma {:induction false} LatestExists<V>(m: map<Id, V>, at: V -> nat, ks: set<Id>)
    requires ks <= m.Keys && ks != {}
    ensures exists k :: IsLatest(m, at, ks, k)
    decreases ks
  {
    var j :| j in ks;
    if ks == {j} {
      assert IsLatest(m, at, ks, j);
    } else {
      LatestExists(m, at, ks - {j});
      var k :| IsLatest(m, at, ks - {j}, k);
      if at(m[j]) <= at(m[k]) {
        assert IsLatest(m, at, ks, k);
      } else {
        assert IsLatest(m, at, ks, j);
      }
    }
  }

  /** `o` lists each key of `ks` exactly once, most recent row first. */
  ghost predicate IsNewestFirst<V>(m: map<Id, V>, at: V -> nat, ks: set<Id>, o: seq<Id>)
    requires ks <= m.Keys
  {
    && (forall i :: 0 <= i < |o| ==> o[i] in ks)
    && (forall k :: k in ks ==> k in o)
    && (forall i, j :: 0 <= i < j < |o| ==> o[i] != o[j])
    && (forall i, j :: 0 <= i < j < |o| ==> at(m[o[i]]) >= at(m[o[j]]))
  }

  /** Putting a latest row in front of a newest-first listing of the others lists them all newest first. */
  lemma ConsNewestFirst<V>(m: map<Id, V>, at: V -> nat, ks: set<Id>, k: Id, rest: seq<Id>)
    requires ks <= m.Keys
    requires IsLatest(m, at, ks, k)
    requires IsNewestFirst(m, at, ks - {k}, rest)
    ensures IsNewestFirst(m, at, ks, [k] + rest)
  {
    var o := [k] + rest;
    forall i | 0 <= i < |o| ensures o[i] in ks {
      if i > 0 { assert o[i] == rest[i - 1]; }
    }
    forall j | j in ks ensures j in o {
      if j != k { assert j in rest; }
    }
    forall i, j | 0 <= i < j < |o| ensures o[i] != o[j] && at(m[o[i]]) >= at(m[o[j]]) {
      assert o[j] == rest[j - 1] && o[j] in ks - {k};
      if i > 0 { assert o[i] == rest[i - 1]; }
    }
  }

  /** The keys `ks` in the order `ORDER BY createdAt DESC` returns them. */
  ghost function NewestFirst<V>(m: map<Id, V>, at: V -> nat, ks: set<Id>): (o: seq<Id>)
    requires ks <= m.Keys
    ensures IsNewestFirst(m, at, ks, o)
    ensures |o| == |ks|
    decreases ks
  {
    if ks == {} then []
    else
      LatestExists(m, at, ks);
      var k :| IsLatest(m, at, ks, k);
      var rest := NewestFirst(m, at, ks - {k});
      ConsNewestFirst(m, at, ks, k, rest);
      [k] + rest
  }

  function Min(a: int, b: int): int {
    if a <= b then a else b
  }

  /** `OFFSET offset LIMIT limit`: the rows from position `offset` on, at most `limit` of them. */
  function Window<T>(s: seq<T>, offset: nat, limit: nat): (w: seq<T>)
    ensures |w| == if offset >= |s| then 0 else Min(limit, |s| - offset)
    ensures forall i :: 0 <= i < |w| ==> w[i] == s[offset + i]
  {
    if offset >= |s| then [] else s[offset..Min(offset + limit, |s|)]
  }
}
