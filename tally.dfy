/**
 * The shot tallies the screens share: the `{ attempts, makes, threesMade }`
 * reducer, the entries of a set of sessions, and the group-by that fills a
 * JavaScript `Map` from bucket key to tally in a loop. A `Map` iterates in
 * insertion order, so a bucket table keeps its keys in `order`.
 */
module Tally {
  import opened Optional
  import opened Records
  import opened Keyed

  datatype Totals = Totals(attempts: int, makes: int, threesMade: int)

  const ZERO: Totals := Totals(0, 0, 0)

  function Plus(a: Totals, b: Totals): Totals {
    Totals(a.attempts + b.attempts, a.makes + b.makes, a.threesMade + b.threesMade)
  }

  /** One step of the reducer: add the entry's attempts and makes, and its makes to `threesMade` when it is a three. */
  function Add(t: Totals, e: Entry): Totals {
    Totals(t.attempts + e.attempts, t.makes + e.makes, if IsThree(e) then t.threesMade + e.makes else t.threesMade)
  }

  /** `es.reduce(add, { attempts: 0, makes: 0, threesMade: 0 })`. */
  function Sum(es: seq<Entry>): Totals {
    if es == [] then ZERO else Add(Sum(es[..|es| - 1]), es[|es| - 1])
  }

  /** The three-point entries, in order. */
  function Threes(es: seq<Entry>): (r: seq<Entry>)
    ensures forall e :: e in r <==> e in es && IsThree(e)
  {
    if es == [] then [] else
      var init := Threes(es[..|es| - 1]);
      var last := es[|es| - 1];
      assert forall e :: e in es <==> e in es[..|es| - 1] || e == last;
      if IsThree(last) then init + [last] else init
  }

  /** The tally of two runs of entries is the sum of their tallies. */
  lemma {:induction false} SumAppend(a: seq<Entry>, b: seq<Entry>)
    ensures Sum(a + b) == Plus(Sum(a), Sum(b))
  {
    if b != [] {
      var init := b[..|b| - 1];
      assert (a + b)[..|a + b| - 1] == a + init;
      SumAppend(a, init);
    } else {
      assert a + b == a;
    }
  }

  /** `threesMade` is the makes of the three-point entries, and never counts a two. */
  lemma {:induction false} SumThrees(es: seq<Entry>)
    ensures Sum(es).threesMade == Sum(Threes(es)).makes
    ensures Sum(Threes(es)).attempts <= Sum(es).attempts || exists e :: e in es && e.attempts < 0
  {
    if es != [] {
      var init := es[..|es| - 1];
      var last := es[|es| - 1];
      SumThrees(init);
      if IsThree(last) {
        SumAppend(Threes(init), [last]);
        assert Sum([last]) == Add(ZERO, last);
      }
      if exists e :: e in init && e.attempts < 0 {
        var e :| e in init && e.attempts < 0;
        assert e in es;
      }
    }
  }

  /** The entries whose `sessionId` is one of `ids`, in order (`entries.filter(e => ids.has(e.sessionId))`). */
  function EntriesOf(entries: seq<Entry>, ids: set<string>): (r: seq<Entry>)
    ensures |r| <= |entries|
    ensures forall e :: e in r <==> e in entries && e.sessionId.Some? && e.sessionId.value in ids
  {
    if entries == [] then [] else
      var init := EntriesOf(entries[..|entries| - 1], ids);
      var last := entries[|entries| - 1];
      assert forall e :: e in entries <==> e in entries[..|entries| - 1] || e == last;
      if last.sessionId.Some? && last.sessionId.value in ids then init + [last] else init
  }

  // ---------------------------------------------------------------------------
  // Group-by into an insertion-ordered Map
  // ---------------------------------------------------------------------------

  /** The bucket key of the by-zone tables. */
  function ZoneOf(e: Entry): string { e.zoneId }

  /** A `Map` from bucket key to bucket value; `order` is its iteration order. */
  datatype Buckets<V> = Buckets(order: seq<string>, tally: map<string, V>)

  /** No key is listed twice. */
  ghost predicate NoDup(s: seq<string>) {
    s == [] || (NoDup(s[..|s| - 1]) && s[|s| - 1] !in s[..|s| - 1])
  }

  /** Each key is listed once, and exactly the keys of the map are listed. */
  ghost predicate Valid<V>(b: Buckets<V>) {
    && NoDup(b.order)
    && (forall k :: k in b.order ==> k in b.tally)
    && (forall k :: k in b.tally ==> k in b.order)
  }

  /** Add one entry to its bucket, opening the bucket at `opening` (at the end of the order) if it is new. */
  function Into<V>(b: Buckets<V>, e: Entry, keyOf: Entry -> string, opening: V, add: (V, Entry) -> V): Buckets<V> {
    var k := keyOf(e);
    if k in b.tally then Buckets(b.order, b.tally[k := add(b.tally[k], e)])
    else Buckets(b.order + [k], b.tally[k := add(opening, e)])
  }

  /** Every entry added to its bucket in turn. */
  function Group<V>(b: Buckets<V>, es: seq<Entry>, keyOf: Entry -> string, opening: V, add: (V, Entry) -> V): Buckets<V> {
    if es == [] then b else Into(Group(b, es[..|es| - 1], keyOf, opening, add), es[|es| - 1], keyOf, opening, add)
  }

  /** The entries whose bucket key is `k`, in order. */
  function Matching(es: seq<Entry>, keyOf: Entry -> string, k: string): (r: seq<Entry>)
    ensures forall e :: e in r <==> e in es && keyOf(e) == k
  {
    if es == [] then [] else
      var init := Matching(es[..|es| - 1], keyOf, k);
      var last := es[|es| - 1];
      assert forall e :: e in es <==> e in es[..|es| - 1] || e == last;
      if keyOf(last) == k then init + [last] else init
  }

  /** `add` applied to each entry in turn, from `v`. */
  function Fold<V>(v: V, es: seq<Entry>, add: (V, Entry) -> V): V {
    if es == [] then v else add(Fold(v, es[..|es| - 1], add), es[|es| - 1])
  }

  /** `map.set(k, v)`: a new key goes to the end of the order, an existing one keeps its place. */
  function Put<V>(b: Buckets<V>, k: string, v: V): Buckets<V> {
    if k in b.tally then Buckets(b.order, b.tally[k := v]) else Buckets(b.order + [k], b.tally[k := v])
  }

  /** `for (const x of xs) map.set(key(x), val(x))`, from an empty map. */
  function Seed<T, V>(xs: seq<T>, key: T -> string, val: T -> V): Buckets<V> {
    if xs == [] then Buckets([], map[]) else Put(Seed(xs[..|xs| - 1], key, val), key(xs[|xs| - 1]), val(xs[|xs| - 1]))
  }

  /** The seeding loop itself. */
  method SeedInto<T, V>(xs: seq<T>, key: T -> string, val: T -> V) returns (b: Buckets<V>)
    ensures b == Seed(xs, key, val)
  {
    var order: seq<string> := [];
    var tally: map<string, V> := map[];
    for i := 0 to |xs|
      invariant Buckets(order, tally) == Seed(xs[..i], key, val)
    {
      assert xs[..i + 1][..i] == xs[..i];
      var k := key(xs[i]);
      if k !in tally {
        order := order + [k];
      }
      tally := tally[k := val(xs[i])];
    }
    assert xs[..|xs|] == xs;
    b := Buckets(order, tally);
  }

  /** A seeded table is well formed and holds a bucket for exactly the keys of `xs`. */
  lemma {:induction false} SeedShape<T, V>(xs: seq<T>, key: T -> string, val: T -> V)
    ensures Valid(Seed(xs, key, val))
    ensures Seed(xs, key, val).tally.Keys == Keys(xs, key)
  {
    if xs != [] {
      var init := xs[..|xs| - 1];
      var last := xs[|xs| - 1];
      SeedShape(init, key, val);
      PutShape(Seed(init, key, val), key(last), val(last));
      assert xs == init + [last];
      KeysAppend(init, [last], key);
      KeysSingleton(last, key);
    }
  }

  /** `map.set` keeps the buckets well formed and adds its key. */
  lemma PutShape<V>(b: Buckets<V>, k: string, v: V)
    requires Valid(b)
    ensures Valid(Put(b, k, v))
    ensures Put(b, k, v).tally.Keys == b.tally.Keys + {k}
  {
    if k !in b.tally {
      assert (b.order + [k])[..|b.order|] == b.order;
    }
  }

  /** When the keys of `xs` are distinct, each bucket holds its own seed value. */
  lemma {:induction false} SeedValue<T, V>(xs: seq<T>, key: T -> string, val: T -> V)
    requires DistinctKeys(xs, key)
    ensures forall i :: 0 <= i < |xs| ==> key(xs[i]) in Seed(xs, key, val).tally && Seed(xs, key, val).tally[key(xs[i])] == val(xs[i])
  {
    if xs != [] {
      var init := xs[..|xs| - 1];
      var last := xs[|xs| - 1];
      assert DistinctKeys(init, key) by {
        forall i, j | 0 <= i < j < |init| ensures key(init[i]) != key(init[j]) {
          assert init[i] == xs[i] && init[j] == xs[j];
        }
      }
      SeedValue(init, key, val);
      forall i | 0 <= i < |xs| - 1
        ensures key(xs[i]) in Seed(xs, key, val).tally && Seed(xs, key, val).tally[key(xs[i])] == val(xs[i])
      {
        assert init[i] == xs[i];
        assert key(xs[i]) != key(last);
      }
    }
  }

  /**
   * The loop that fills the map: for each entry, open its bucket if the map
   * does not have the key yet, then add the entry to the bucket.
   */
  method GroupInto<V>(seed: Buckets<V>, es: seq<Entry>, keyOf: Entry -> string, opening: V, add: (V, Entry) -> V)
    returns (b: Buckets<V>)
    ensures b == Group(seed, es, keyOf, opening, add)
  {
    var order := seed.order;
    var tally := seed.tally;
    for i := 0 to |es|
      invariant Buckets(order, tally) == Group(seed, es[..i], keyOf, opening, add)
    {
      assert es[..i + 1][..i] == es[..i];
      var k := keyOf(es[i]);
      if k !in tally {
        order := order + [k];
        tally := tally[k := opening];
      }
      tally := tally[k := add(tally[k], es[i])];
    }
    assert es[..|es|] == es;
    b := Buckets(order, tally);
  }

  /**
   * Grouping keeps the table well formed, keeps the seeded keys first and in
   * place, and its keys are the seeded ones plus the key of every entry.
   */
  lemma {:induction false} GroupShape<V>(b: Buckets<V>, es: seq<Entry>, keyOf: Entry -> string, opening: V, add: (V, Entry) -> V)
    requires Valid(b)
    ensures Valid(Group(b, es, keyOf, opening, add))
    ensures Group(b, es, keyOf, opening, add).tally.Keys == b.tally.Keys + Keys(es, keyOf)
    ensures b.order <= Group(b, es, keyOf, opening, add).order
  {
    if es != [] {
      var init := es[..|es| - 1];
      var last := es[|es| - 1];
      GroupShape(b, init, keyOf, opening, add);
      IntoShape(Group(b, init, keyOf, opening, add), last, keyOf, opening, add);
      assert es == init + [last];
      KeysAppend(init, [last], keyOf);
      KeysSingleton(last, keyOf);
    }
  }

  /** Adding one entry keeps the table well formed, adds the entry's key and keeps the order as a prefix. */
  lemma IntoShape<V>(b: Buckets<V>, e: Entry, keyOf: Entry -> string, opening: V, add: (V, Entry) -> V)
    requires Valid(b)
    ensures Valid(Into(b, e, keyOf, opening, add))
    ensures Into(b, e, keyOf, opening, add).tally.Keys == b.tally.Keys + {keyOf(e)}
    ensures b.order <= Into(b, e, keyOf, opening, add).order
  {
    if keyOf(e) !in b.tally {
      assert (b.order + [keyOf(e)])[..|b.order|] == b.order;
    }
  }

  /**
   * Every entry lands in exactly one bucket: a bucket holds its seed (or
   * `opening`) with the entries of its key added in order.
   */
  lemma {:induction false} GroupValue<V>(b: Buckets<V>, es: seq<Entry>, keyOf: Entry -> string, opening: V,
                                         add: (V, Entry) -> V, k: string)
    requires k in Group(b, es, keyOf, opening, add).tally
    ensures Group(b, es, keyOf, opening, add).tally[k] ==
      Fold(if k in b.tally then b.tally[k] else opening, Matching(es, keyOf, k), add)
  {
    if es != [] {
      var init := es[..|es| - 1];
      var last := es[|es| - 1];
      var g := Group(b, init, keyOf, opening, add);
      var m := Matching(init, keyOf, k);
      if keyOf(last) == k {
        assert (m + [last])[..|m|] == m;
        if k in g.tally {
          GroupValue(b, init, keyOf, opening, add, k);
        } else {
          GroupEmptyBucket(b, init, keyOf, opening, add, k);
        }
      } else {
        GroupValue(b, init, keyOf, opening, add, k);
      }
    }
  }

  /** A key the grouping never opened had no entries and no seed. */
  lemma {:induction false} GroupEmptyBucket<V>(b: Buckets<V>, es: seq<Entry>, keyOf: Entry -> string, opening: V,
                                               add: (V, Entry) -> V, k: string)
    requires k !in Group(b, es, keyOf, opening, add).tally
    ensures k !in b.tally && Matching(es, keyOf, k) == []
  {
    if es != [] {
      GroupEmptyBucket(b, es[..|es| - 1], keyOf, opening, add, k);
    }
  }

  /** Folding the reducer from a tally adds the tally of the entries. */
  lemma {:induction false} FoldAdd(t: Totals, es: seq<Entry>)
    ensures Fold(t, es, Add) == Plus(t, Sum(es))
  {
    if es != [] {
      FoldAdd(t, es[..|es| - 1]);
    }
  }

  /** The tally of bucket `k` (zero when there is none). */
  function TallyOf(tally: map<string, Totals>, k: string): Totals {
    if k in tally then tally[k] else ZERO
  }

  /** The sum of the bucket tallies, in order. */
  function TotalOver(order: seq<string>, tally: map<string, Totals>): Totals {
    if order == [] then ZERO else Plus(TotalOver(order[..|order| - 1], tally), TallyOf(tally, order[|order| - 1]))
  }

  /** Changing one bucket moves the sum by the change; buckets not listed do not count. */
  lemma {:induction false} TotalOverUpdate(order: seq<string>, tally: map<string, Totals>, k: string, t: Totals)
    requires NoDup(order)
    ensures k !in order ==> TotalOver(order, tally[k := t]) == TotalOver(order, tally)
    ensures k in order ==> Plus(TotalOver(order, tally[k := t]), TallyOf(tally, k)) == Plus(TotalOver(order, tally), t)
  {
    if order != [] {
      var init := order[..|order| - 1];
      var last := order[|order| - 1];
      TotalOverUpdate(init, tally, k, t);
      assert k in order ==> k == last || k in init;
    }
  }

  lemma PlusZero(t: Totals)
    ensures Plus(t, ZERO) == t
  {
  }

  lemma ZeroPlus(t: Totals)
    ensures Plus(ZERO, t) == t
  {
  }

  lemma PlusAdd(a: Totals, b: Totals, e: Entry)
    ensures Plus(Plus(a, b), Add(ZERO, e)) == Plus(a, Add(b, e))
  {
  }

  /** Adding one entry to a well-formed table adds the entry's tally to the sum of the buckets. */
  lemma IntoTotal(g: Buckets<Totals>, e: Entry, keyOf: Entry -> string)
    requires Valid(g)
    ensures Valid(Into(g, e, keyOf, ZERO, Add))
    ensures TotalOver(Into(g, e, keyOf, ZERO, Add).order, Into(g, e, keyOf, ZERO, Add).tally)
         == Plus(TotalOver(g.order, g.tally), Add(ZERO, e))
  {
    var k := keyOf(e);
    var n := Into(g, e, keyOf, ZERO, Add);
    if k in g.tally {
      TotalOverUpdate(g.order, g.tally, k, Add(g.tally[k], e));
    } else {
      TotalOverUpdate(g.order, g.tally, k, Add(ZERO, e));
      assert n.order[..|n.order| - 1] == g.order;
      assert n.order[|n.order| - 1] == k;
    }
  }

  /** Buckets that all hold zero sum to zero. */
  lemma {:induction false} ZeroSeedTotal(order: seq<string>, tally: map<string, Totals>)
    requires forall k :: k in tally ==> tally[k] == ZERO
    ensures TotalOver(order, tally) == ZERO
  {
    if order != [] {
      ZeroSeedTotal(order[..|order| - 1], tally);
    }
  }

  /**
   * The bucket tallies of a grouping by the reducer, seeded with any tallies,
   * add up to the seeds plus the tally of all the entries: no entry is lost
   * or counted twice.
   */
  lemma {:induction false} GroupTotal(b: Buckets<Totals>, es: seq<Entry>, keyOf: Entry -> string)
    requires Valid(b)
    ensures Valid(Group(b, es, keyOf, ZERO, Add))
    ensures TotalOver(Group(b, es, keyOf, ZERO, Add).order, Group(b, es, keyOf, ZERO, Add).tally)
         == Plus(TotalOver(b.order, b.tally), Sum(es))
  {
    if es != [] {
      var init := es[..|es| - 1];
      var last := es[|es| - 1];
      var g := Group(b, init, keyOf, ZERO, Add);
      GroupTotal(b, init, keyOf);
      IntoTotal(g, last, keyOf);
      var n := Into(g, last, keyOf, ZERO, Add);
      assert Group(b, es, keyOf, ZERO, Add) == n;
      assert Sum(es) == Add(Sum(init), last);
      PlusAdd(TotalOver(b.order, b.tally), Sum(init), last);
    } else {
      PlusZero(TotalOver(b.order, b.tally));
    }
  }
}
