/**
 * Keyed collections: the algebra that push and pull are specified with.
 * A collection is a sequence of records with a string key (an `id`, or a
 * goal's `type`); a remote table is a map from key to row.
 */
module Keyed {

  /** The set of keys that occur in `xs`. */
  function Keys<T(==)>(xs: seq<T>, key: T -> string): (ks: set<string>)
    ensures forall x :: x in xs ==> key(x) in ks
    ensures forall k :: k in ks ==> exists x :: x in xs && key(x) == k
  {
    set x | x in xs :: key(x)
  }

  /** No key occurs twice in `xs`. */
  predicate DistinctKeys<T>(xs: seq<T>, key: T -> string) {
    forall i, j :: 0 <= i < j < |xs| ==> key(xs[i]) != key(xs[j])
  }

  /** `xs.map(f)`. */
  function MapSeq<A, B>(f: A -> B, xs: seq<A>): (r: seq<B>)
    ensures |r| == |xs|
    ensures forall i :: 0 <= i < |xs| ==> r[i] == f(xs[i])
  {
    if xs == [] then [] else [f(xs[0])] + MapSeq(f, xs[1..])
  }

  /** The records in reverse order: what prepending them one at a time produces. */
  function Reverse<T>(xs: seq<T>): (r: seq<T>)
    ensures |r| == |xs|
    ensures forall i :: 0 <= i < |xs| ==> r[i] == xs[|xs| - 1 - i]
  {
    if xs == [] then [] else [xs[|xs| - 1]] + Reverse(xs[..|xs| - 1])
  }

  /**
   * The rows whose key is not in `have`, converted, in the order they arrive:
   * what pull takes from a remote result set when `have` is the set of local
   * keys read before the loop.
   */
  function Adopt<R, L>(rows: seq<R>, key: R -> string, conv: R -> L, have: set<string>): (r: seq<L>)
    ensures |r| <= |rows|
  {
    if rows == [] then []
    else
      var init := Adopt(rows[..|rows| - 1], key, conv, have);
      var last := rows[|rows| - 1];
      if key(last) in have then init else init + [conv(last)]
  }

  /** Upsert the rows one after the other: a row replaces the row stored under its key. */
  function UpsertAll<R>(m: map<string, R>, rows: seq<R>, key: R -> string): (r: map<string, R>)
  {
    if rows == [] then m
    else UpsertAll(m, rows[..|rows| - 1], key)[key(rows[|rows| - 1]) := rows[|rows| - 1]]
  }

  // ---------------------------------------------------------------------------
  // Reverse, concatenation and keys
  // ---------------------------------------------------------------------------

  lemma ReverseSnoc<T>(xs: seq<T>, x: T)
    ensures Reverse(xs + [x]) == [x] + Reverse(xs)
  {
    assert (xs + [x])[..|xs|] == xs;
  }

  lemma KeysSingleton<T>(x: T, key: T -> string)
    ensures Keys([x], key) == {key(x)}
  {
    forall k | k in Keys([x], key) ensures k == key(x) {
      var y :| y in [x] && key(y) == k;
    }
  }

  lemma KeysAppend<T>(a: seq<T>, b: seq<T>, key: T -> string)
    ensures Keys(a + b, key) == Keys(a, key) + Keys(b, key)
  {
    forall k | k in Keys(a + b, key) ensures k in Keys(a, key) + Keys(b, key) {
      var x :| x in a + b && key(x) == k;
      assert x in a || x in b;
    }
  }

  lemma KeysReverse<T>(xs: seq<T>, key: T -> string)
    ensures Keys(Reverse(xs), key) == Keys(xs, key)
  {
    var r := Reverse(xs);
    forall x | x in xs ensures x in r {
      var i :| 0 <= i < |xs| && xs[i] == x;
      assert r[|xs| - 1 - i] == x;
    }
    forall x | x in r ensures x in xs {
      var i :| 0 <= i < |r| && r[i] == x;
      assert xs[|xs| - 1 - i] == x;
    }
  }

  lemma DistinctReverse<T>(xs: seq<T>, key: T -> string)
    requires DistinctKeys(xs, key)
    ensures DistinctKeys(Reverse(xs), key)
  {
    var r := Reverse(xs);
    forall i, j | 0 <= i < j < |r| ensures key(r[i]) != key(r[j]) {
      assert r[i] == xs[|xs| - 1 - i] && r[j] == xs[|xs| - 1 - j];
    }
  }

  /** Two duplicate-free collections with disjoint keys concatenate to a duplicate-free one. */
  lemma DistinctAppend<T>(a: seq<T>, b: seq<T>, key: T -> string)
    requires DistinctKeys(a, key) && DistinctKeys(b, key)
    requires Keys(a, key) !! Keys(b, key)
    ensures DistinctKeys(a + b, key)
  {
    var ab := a + b;
    forall i, j | 0 <= i < j < |ab| ensures key(ab[i]) != key(ab[j]) {
      if i < |a| && |a| <= j {
        assert ab[i] in a && ab[j] in b;
        assert key(ab[i]) in Keys(a, key) && key(ab[j]) in Keys(b, key);
      } else if |a| <= i {
        assert ab[i] == b[i - |a|] && ab[j] == b[j - |a|];
      }
    }
  }

  // ---------------------------------------------------------------------------
  // Adopt: the pull-side filter
  // ---------------------------------------------------------------------------

  /** Every row whose key was not already held is adopted, converted. */
  lemma {:induction false} AdoptIncludes<R, L>(rows: seq<R>, key: R -> string, conv: R -> L, have: set<string>, r: R)
    requires r in rows && key(r) !in have
    ensures conv(r) in Adopt(rows, key, conv, have)
  {
    var init := rows[..|rows| - 1];
    if r != rows[|rows| - 1] {
      assert rows == init + [rows[|rows| - 1]];
      assert r in init;
      AdoptIncludes(init, key, conv, have, r);
    }
  }

  /** Every adopted record is the conversion of a row whose key was not already held. */
  lemma {:induction false} AdoptOrigin<R, L>(rows: seq<R>, key: R -> string, conv: R -> L, have: set<string>, l: L)
    requires l in Adopt(rows, key, conv, have)
    ensures exists r :: r in rows && key(r) !in have && conv(r) == l
  {
    var init := rows[..|rows| - 1];
    var last := rows[|rows| - 1];
    if l in Adopt(init, key, conv, have) {
      AdoptOrigin(init, key, conv, have, l);
      var r :| r in init && key(r) !in have && conv(r) == l;
      assert r in rows;
    } else {
      assert key(last) !in have && conv(last) == l && last in rows;
    }
  }

  /** The keys adopted are exactly the incoming keys that were not already held. */
  lemma AdoptKeys<R, L>(rows: seq<R>, key: R -> string, conv: R -> L, lkey: L -> string, have: set<string>)
    requires forall r :: lkey(conv(r)) == key(r)
    ensures Keys(Adopt(rows, key, conv, have), lkey) == Keys(rows, key) - have
  {
    var a := Adopt(rows, key, conv, have);
    forall k | k in Keys(a, lkey) ensures k in Keys(rows, key) - have {
      var l :| l in a && lkey(l) == k;
      AdoptOrigin(rows, key, conv, have, l);
      var r :| r in rows && key(r) !in have && conv(r) == l;
    }
    forall k | k in Keys(rows, key) - have ensures k in Keys(a, lkey) {
      var r :| r in rows && key(r) == k;
      AdoptIncludes(rows, key, conv, have, r);
    }
  }

  /** Nothing is adopted when every incoming key is already held. */
  lemma {:induction false} AdoptNothingNew<R, L>(rows: seq<R>, key: R -> string, conv: R -> L, have: set<string>)
    requires Keys(rows, key) <= have
    ensures Adopt(rows, key, conv, have) == []
  {
    if rows != [] {
      var init := rows[..|rows| - 1];
      assert Keys(init, key) <= Keys(rows, key) by {
        forall k | k in Keys(init, key) ensures k in Keys(rows, key) {
          var x :| x in init && key(x) == k;
          assert x in rows;
        }
      }
      AdoptNothingNew(init, key, conv, have);
      assert rows[|rows| - 1] in rows;
    }
  }

  /** Rows with distinct keys are adopted as records with distinct keys. */
  lemma {:induction false} AdoptDistinct<R, L>(rows: seq<R>, key: R -> string, conv: R -> L, lkey: L -> string, have: set<string>)
    requires forall r :: lkey(conv(r)) == key(r)
    requires DistinctKeys(rows, key)
    ensures DistinctKeys(Adopt(rows, key, conv, have), lkey)
  {
    if rows != [] {
      var init := rows[..|rows| - 1];
      var last := rows[|rows| - 1];
      assert DistinctKeys(init, key);
      AdoptDistinct(init, key, conv, lkey, have);
      if key(last) !in have {
        var a := Adopt(init, key, conv, have);
        AdoptKeys(init, key, conv, lkey, have);
        assert key(last) !in Keys(init, key) by {
          forall x | x in init ensures key(x) != key(last) {
            var i :| 0 <= i < |init| && init[i] == x;
            assert rows[i] == x;
          }
        }
        KeysSingleton(conv(last), lkey);
        DistinctAppend(a, [conv(last)], lkey);
      }
    }
  }

  // ---------------------------------------------------------------------------
  // UpsertAll: the push-side write
  // ---------------------------------------------------------------------------

  /** After the upserts the table holds its old keys plus every key pushed, and nothing else. */
  lemma {:induction false} UpsertAllKeys<R>(m: map<string, R>, rows: seq<R>, key: R -> string)
    ensures UpsertAll(m, rows, key).Keys == m.Keys + Keys(rows, key)
  {
    if rows != [] {
      var init := rows[..|rows| - 1];
      UpsertAllKeys(m, init, key);
      assert rows == init + [rows[|rows| - 1]];
      KeysAppend(init, [rows[|rows| - 1]], key);
    }
  }

  /** Upserting into a table is overriding it with the last-wins table of the rows. */
  lemma {:induction false} UpsertAllOverride<R>(m: map<string, R>, rows: seq<R>, key: R -> string)
    ensures UpsertAll(m, rows, key) == m + UpsertAll(map[], rows, key)
  {
    if rows != [] {
      var init := rows[..|rows| - 1];
      var last := rows[|rows| - 1];
      UpsertAllOverride(m, init, key);
      var l := UpsertAll(map[], init, key);
      assert (m + l)[key(last) := last] == m + l[key(last) := last];
    }
  }

  /** Pushing the same rows twice leaves the table as pushing them once. */
  lemma UpsertAllIdempotent<R>(m: map<string, R>, rows: seq<R>, key: R -> string)
    ensures UpsertAll(UpsertAll(m, rows, key), rows, key) == UpsertAll(m, rows, key)
  {
    var l := UpsertAll(map[], rows, key);
    UpsertAllOverride(m, rows, key);
    UpsertAllOverride(m + l, rows, key);
    assert (m + l) + l == m + l;
  }

  /**
   * A push in which only some upserts went through (`done` holds rows of
   * `rows`, in any order), followed by a full push, leaves the table as a
   * single full push does.
   */
  lemma UpsertAllRetry<R>(m: map<string, R>, done: seq<R>, rows: seq<R>, key: R -> string)
    requires forall x :: x in done ==> x in rows
    ensures UpsertAll(UpsertAll(m, done, key), rows, key) == UpsertAll(m, rows, key)
  {
    var l := UpsertAll(map[], rows, key);
    var p := UpsertAll(map[], done, key);
    UpsertAllOverride(m, done, key);
    UpsertAllOverride(m + p, rows, key);
    UpsertAllOverride(m, rows, key);
    UpsertAllKeys(map[], done, key);
    UpsertAllKeys(map[], rows, key);
    assert Keys(done, key) <= Keys(rows, key) by {
      forall k | k in Keys(done, key) ensures k in Keys(rows, key) {
        var x :| x in done && key(x) == k;
        assert x in rows;
      }
    }
    assert (m + p) + l == m + l;
  }

  /** Every row the table holds after the upserts is a pushed row or was there before. */
  lemma {:induction false} UpsertAllOrigin<R>(m: map<string, R>, rows: seq<R>, key: R -> string, k: string)
    requires k in UpsertAll(m, rows, key)
    ensures UpsertAll(m, rows, key)[k] in rows || (k in m && UpsertAll(m, rows, key)[k] == m[k])
  {
    if rows != [] {
      var init := rows[..|rows| - 1];
      var last := rows[|rows| - 1];
      if k != key(last) {
        UpsertAllOrigin(m, init, key, k);
        assert forall x :: x in init ==> x in rows;
      }
    }
  }

  /**
   * With distinct keys every pushed row is what the table holds under its
   * key, and a key that was not pushed keeps its old row.
   */
  lemma {:induction false} UpsertAllValues<R>(m: map<string, R>, rows: seq<R>, key: R -> string)
    requires DistinctKeys(rows, key)
    ensures forall r :: r in rows ==> key(r) in UpsertAll(m, rows, key) && UpsertAll(m, rows, key)[key(r)] == r
    ensures forall k :: k in m && k !in Keys(rows, key) ==>
      k in UpsertAll(m, rows, key) && UpsertAll(m, rows, key)[k] == m[k]
  {
    if rows != [] {
      var init := rows[..|rows| - 1];
      var last := rows[|rows| - 1];
      assert rows == init + [last];
      assert DistinctKeys(init, key) by {
        forall i, j | 0 <= i < j < |init| ensures key(init[i]) != key(init[j]) {
          assert init[i] == rows[i] && init[j] == rows[j];
        }
      }
      UpsertAllValues(m, init, key);
      forall r | r in rows ensures key(r) in UpsertAll(m, rows, key) && UpsertAll(m, rows, key)[key(r)] == r {
        if r != last {
          var i :| 0 <= i < |init| && init[i] == r;
          assert rows[i] == r && key(rows[i]) != key(rows[|rows| - 1]);
        }
      }
      KeysAppend(init, [last], key);
      KeysSingleton(last, key);
    }
  }

  /** The keys of the converted records are the keys of the records when the conversion keeps keys. */
  lemma MapSeqKeys<A, B>(f: A -> B, xs: seq<A>, key: A -> string, fkey: B -> string)
    requires forall x :: fkey(f(x)) == key(x)
    ensures Keys(MapSeq(f, xs), fkey) == Keys(xs, key)
    ensures DistinctKeys(xs, key) ==> DistinctKeys(MapSeq(f, xs), fkey)
    ensures forall x :: x in xs ==> f(x) in MapSeq(f, xs)
    ensures forall y :: y in MapSeq(f, xs) ==> exists x :: x in xs && y == f(x)
  {
    var ys := MapSeq(f, xs);
    forall x | x in xs ensures f(x) in ys {
      var i :| 0 <= i < |xs| && xs[i] == x;
      assert ys[i] == f(x);
    }
    forall y | y in ys ensures exists x :: x in xs && y == f(x) {
      var i :| 0 <= i < |ys| && ys[i] == y;
      assert xs[i] in xs;
    }
    forall k | k in Keys(ys, fkey) ensures k in Keys(xs, key) {
      var y :| y in ys && fkey(y) == k;
      var x :| x in xs && y == f(x);
    }
    forall k | k in Keys(xs, key) ensures k in Keys(ys, fkey) {
      var x :| x in xs && key(x) == k;
      assert f(x) in ys;
    }
  }

  /**
   * Pushing converted records with distinct keys: the table holds the old keys
   * plus the records' keys, each record's row sits under its key, and every
   * other key keeps its old row.
   */
  lemma UpsertMapped<L, R>(m: map<string, R>, xs: seq<L>, f: L -> R, key: L -> string, rkey: R -> string)
    requires forall x :: rkey(f(x)) == key(x)
    requires DistinctKeys(xs, key)
    ensures UpsertAll(m, MapSeq(f, xs), rkey).Keys == m.Keys + Keys(xs, key)
    ensures forall x :: x in xs ==> UpsertAll(m, MapSeq(f, xs), rkey)[key(x)] == f(x)
    ensures forall k :: k in m && k !in Keys(xs, key) ==> UpsertAll(m, MapSeq(f, xs), rkey)[k] == m[k]
  {
    var rows := MapSeq(f, xs);
    MapSeqKeys(f, xs, key, rkey);
    UpsertAllKeys(m, rows, rkey);
    UpsertAllValues(m, rows, rkey);
  }
}
