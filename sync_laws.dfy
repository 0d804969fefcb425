/**
 * What push and pull promise, stated over their specifications `PushSpec`
 * and `PullSpec`: both are idempotent, a retried push repairs a partial one,
 * push makes every local record the remote row under its key (the local goal
 * wins on the remote side), pull never changes or drops a local record (the
 * local goal wins on the local side), pull adds no duplicate, and records
 * pushed by one device come back unchanged when another device pulls them
 * into a cleared store.
 */
module SyncLaws {
  import opened Optional
  import opened Records
  import opened Wire
  import opened Keyed
  import opened Db
  import opened Remote
  import opened Sync

  // ---------------------------------------------------------------------------
  // Push
  // ---------------------------------------------------------------------------

  /** Pushing the same local state twice leaves the remote tables as pushing once. */
  lemma PushIdempotent(r: RemoteState, uid: string, l: LocalState)
    ensures PushSpec(PushSpec(r, uid, l), uid, l) == PushSpec(r, uid, l)
  {
    UpsertAllIdempotent(r.sessions, SessionRows(l.sessions.GetOr([]), uid), SessionRowKey);
    UpsertAllIdempotent(r.entries, EntryRows(l.entries.GetOr([]), uid), EntryRowKey);
    UpsertAllIdempotent(r.markers, MarkerRows(l.markers.GetOr([]), uid), MarkerRowKey);
    UpsertAllIdempotent(r.goals, GoalRows(l.goals.GetOr([]), uid), GoalRowKey);
  }

  /**
   * A push whose upserts only partly went through (any of its rows, in any
   * order, per table), followed by a full push, gives the remote tables a
   * single full push gives.
   */
  lemma PushRetry(r: RemoteState, uid: string, l: LocalState,
                  ds: seq<SessionRow>, de: seq<EntryRow>, dm: seq<MarkerRow>, dg: seq<GoalRow>)
    requires forall x :: x in ds ==> x in SessionRows(l.sessions.GetOr([]), uid)
    requires forall x :: x in de ==> x in EntryRows(l.entries.GetOr([]), uid)
    requires forall x :: x in dm ==> x in MarkerRows(l.markers.GetOr([]), uid)
    requires forall x :: x in dg ==> x in GoalRows(l.goals.GetOr([]), uid)
    ensures PushSpec(RemoteState(UpsertAll(r.sessions, ds, SessionRowKey), UpsertAll(r.entries, de, EntryRowKey),
                                 UpsertAll(r.markers, dm, MarkerRowKey), UpsertAll(r.goals, dg, GoalRowKey)), uid, l)
            == PushSpec(r, uid, l)
  {
    UpsertAllRetry(r.sessions, ds, SessionRows(l.sessions.GetOr([]), uid), SessionRowKey);
    UpsertAllRetry(r.entries, de, EntryRows(l.entries.GetOr([]), uid), EntryRowKey);
    UpsertAllRetry(r.markers, dm, MarkerRows(l.markers.GetOr([]), uid), MarkerRowKey);
    UpsertAllRetry(r.goals, dg, GoalRows(l.goals.GetOr([]), uid), GoalRowKey);
  }

  /**
   * With unique local ids, after a push every local session and entry is the
   * remote row under its id, stamped with the user's id; the remote ids are
   * the old ones plus the local ones, and rows under other ids are untouched.
   */
  lemma PushWritesSessionsAndEntries(r: RemoteState, uid: string, l: LocalState)
    requires DistinctKeys(l.sessions.GetOr([]), SessionKey)
    requires DistinctKeys(l.entries.GetOr([]), EntryKey)
    ensures var p := PushSpec(r, uid, l);
      && p.sessions.Keys == r.sessions.Keys + Keys(l.sessions.GetOr([]), SessionKey)
      && (forall s :: s in l.sessions.GetOr([]) ==> p.sessions[s.id] == SessionToRow(s, uid) && p.sessions[s.id].userId == uid)
      && (forall k :: k in r.sessions && k !in Keys(l.sessions.GetOr([]), SessionKey) ==> p.sessions[k] == r.sessions[k])
      && p.entries.Keys == r.entries.Keys + Keys(l.entries.GetOr([]), EntryKey)
      && (forall e :: e in l.entries.GetOr([]) ==> p.entries[e.id] == EntryToRow(e, uid) && p.entries[e.id].userId == uid)
      && (forall k :: k in r.entries && k !in Keys(l.entries.GetOr([]), EntryKey) ==> p.entries[k] == r.entries[k])
  {
    UpsertMapped(r.sessions, l.sessions.GetOr([]), SessionRowOf(uid), SessionKey, SessionRowKey);
    UpsertMapped(r.entries, l.entries.GetOr([]), EntryRowOf(uid), EntryKey, EntryRowKey);
  }

  /**
   * With unique local marker ids and goal types, after a push every local
   * marker is the remote row under its id, and every local goal's target
   * overwrites the remote goal of its type (the local goal wins).
   */
  lemma PushWritesMarkersAndGoals(r: RemoteState, uid: string, l: LocalState)
    requires DistinctKeys(l.markers.GetOr([]), MarkerKey)
    requires DistinctKeys(l.goals.GetOr([]), GoalKey)
    ensures var p := PushSpec(r, uid, l);
      && p.markers.Keys == r.markers.Keys + Keys(l.markers.GetOr([]), MarkerKey)
      && (forall m :: m in l.markers.GetOr([]) ==> p.markers[m.id] == MarkerToRow(m, uid))
      && (forall k :: k in r.markers && k !in Keys(l.markers.GetOr([]), MarkerKey) ==> p.markers[k] == r.markers[k])
      && p.goals.Keys == r.goals.Keys + Keys(l.goals.GetOr([]), GoalKey)
      && (forall g :: g in l.goals.GetOr([]) ==> p.goals[g.goalType].target == g.target && p.goals[g.goalType].userId == uid)
      && (forall k :: k in r.goals && k !in Keys(l.goals.GetOr([]), GoalKey) ==> p.goals[k] == r.goals[k])
  {
    UpsertMapped(r.markers, l.markers.GetOr([]), MarkerRowOf(uid), MarkerKey, MarkerRowKey);
    UpsertMapped(r.goals, l.goals.GetOr([]), GoalRowOf(uid), GoalKey, GoalRowKey);
  }

  // ---------------------------------------------------------------------------
  // Pull
  // ---------------------------------------------------------------------------

  /**
   * What pull does to one table whose new records are prepended or appended
   * (`merged`): every local record stays; every other record is a remote one
   * whose key was not local; every such remote record arrives; the keys are
   * the local ones plus the remote ones; unique keys stay unique.
   */
  predicate PullMerge<R(==), L(==)>(local: seq<L>, rows: seq<R>, key: R -> string, conv: R -> L,
                            lkey: L -> string, merged: seq<L>)
  {
    && (forall x :: x in local ==> x in merged)
    && (forall x :: x in merged ==> x in local || exists r :: r in rows && key(r) !in Keys(local, lkey) && x == conv(r))
    && (forall r :: r in rows && key(r) !in Keys(local, lkey) ==> conv(r) in merged)
    && Keys(merged, lkey) == Keys(local, lkey) + Keys(rows, key)
    && (DistinctKeys(local, lkey) && DistinctKeys(rows, key) ==> DistinctKeys(merged, lkey))
  }

  /** The records of `Reverse(xs)` are those of `xs`. */
  lemma ReverseMembers<T>(xs: seq<T>)
    ensures forall x :: x in Reverse(xs) <==> x in xs
  {
    var r := Reverse(xs);
    forall x | x in r ensures x in xs {
      var i :| 0 <= i < |r| && r[i] == x;
      assert xs[|xs| - 1 - i] == x;
    }
    forall x | x in xs ensures x in r {
      var i :| 0 <= i < |xs| && xs[i] == x;
      assert r[|xs| - 1 - i] == x;
    }
  }

  /** `front + local` where `front` holds the adopted records in some order. */
  lemma MergeMembers<R, L>(local: seq<L>, rows: seq<R>, key: R -> string, conv: R -> L, lkey: L -> string,
                           front: seq<L>)
    requires forall x :: x in front ==> x in Adopt(rows, key, conv, Keys(local, lkey))
    requires forall x :: x in Adopt(rows, key, conv, Keys(local, lkey)) ==> x in front
    ensures forall x :: x in front + local ==> x in local || exists r :: r in rows && key(r) !in Keys(local, lkey) && x == conv(r)
    ensures forall r :: r in rows && key(r) !in Keys(local, lkey) ==> conv(r) in front + local
  {
    var have := Keys(local, lkey);
    forall x | x in front + local && x !in local
      ensures exists r :: r in rows && key(r) !in have && x == conv(r)
    {
      AdoptOrigin(rows, key, conv, have, x);
    }
    forall r | r in rows && key(r) !in have ensures conv(r) in front + local {
      AdoptIncludes(rows, key, conv, have, r);
      assert conv(r) in Adopt(rows, key, conv, Keys(local, lkey));
      assert conv(r) in front;
    }
  }

  lemma MergeLaw<R, L>(local: seq<L>, rows: seq<R>, key: R -> string, conv: R -> L, lkey: L -> string, merged: seq<L>)
    requires forall r :: lkey(conv(r)) == key(r)
    requires merged == Reverse(Adopt(rows, key, conv, Keys(local, lkey))) + local
          || merged == Adopt(rows, key, conv, Keys(local, lkey)) + local
    ensures PullMerge(local, rows, key, conv, lkey, merged)
  {
    var have := Keys(local, lkey);
    var news := Adopt(rows, key, conv, have);
    var front := if merged == Reverse(news) + local then Reverse(news) else news;
    assert merged == front + local;
    ReverseMembers(news);
    MergeMembers(local, rows, key, conv, lkey, front);
    MergeKeys(local, rows, key, conv, lkey, front);
  }

  /** The keys of `front + local`, where `front` is the adopted records in either order. */
  lemma MergeKeys<R, L>(local: seq<L>, rows: seq<R>, key: R -> string, conv: R -> L, lkey: L -> string, front: seq<L>)
    requires forall r :: lkey(conv(r)) == key(r)
    requires front == Reverse(Adopt(rows, key, conv, Keys(local, lkey))) || front == Adopt(rows, key, conv, Keys(local, lkey))
    ensures Keys(front + local, lkey) == Keys(local, lkey) + Keys(rows, key)
    ensures DistinctKeys(local, lkey) && DistinctKeys(rows, key) ==> DistinctKeys(front + local, lkey)
  {
    var have := Keys(local, lkey);
    var news := Adopt(rows, key, conv, have);
    AdoptKeys(rows, key, conv, lkey, have);
    KeysReverse(news, lkey);
    assert Keys(front, lkey) == Keys(rows, key) - have;
    KeysAppend(front, local, lkey);
    if DistinctKeys(local, lkey) && DistinctKeys(rows, key) {
      AdoptDistinct(rows, key, conv, lkey, have);
      DistinctReverse(news, lkey);
      DistinctAppend(front, local, lkey);
    }
  }

  /** Pull's merge of the sessions table. */
  lemma PullSessionsMerge(cur: Option<seq<Session>>, rows: seq<SessionRow>)
    ensures PullMerge(cur.GetOr([]), rows, SessionRowKey, SessionFromRow, SessionKey, PulledSessions(cur, rows).GetOr([]))
  {
    var local := cur.GetOr([]);
    assert local == [] + local;
    MergeLaw(local, rows, SessionRowKey, SessionFromRow, SessionKey, PulledSessions(cur, rows).GetOr([]));
  }

  /** Pull's merge of the entries table. */
  lemma PullEntriesMerge(cur: Option<seq<Entry>>, rows: seq<EntryRow>)
    ensures PullMerge(cur.GetOr([]), rows, EntryRowKey, EntryFromRow, EntryKey, PulledEntries(cur, rows).GetOr([]))
  {
    var local := cur.GetOr([]);
    assert local == [] + local;
    MergeLaw(local, rows, EntryRowKey, EntryFromRow, EntryKey, PulledEntries(cur, rows).GetOr([]));
  }

  /** Pull's merge of the markers table. */
  lemma PullMarkersMerge(cur: Option<seq<Marker>>, rows: seq<MarkerRow>)
    ensures PullMerge(cur.GetOr([]), rows, MarkerRowKey, MarkerFromRow, MarkerKey, PulledMarkers(cur, rows).GetOr([]))
  {
    var local := cur.GetOr([]);
    assert local == [] + local;
    MergeLaw(local, rows, MarkerRowKey, MarkerFromRow, MarkerKey, PulledMarkers(cur, rows).GetOr([]));
  }

  /** Upserting goals one by one: the types are the old ones plus the new ones. */
  lemma {:induction false} UpsertGoalsKeys(goals: seq<Goal>, news: seq<Goal>)
    ensures Keys(UpsertGoals(goals, news), GoalKey) == Keys(goals, GoalKey) + Keys(news, GoalKey)
  {
    if news != [] {
      var init := news[..|news| - 1];
      var last := news[|news| - 1];
      var before := UpsertGoals(goals, init);
      var after := UpsertGoals(goals, news);
      assert after == UpsertGoalInto(before, last);
      assert Keys(after, GoalKey) == Keys(before, GoalKey) + {last.goalType} by {
        UpsertGoalEffect(before, last);
      }
      assert Keys(news, GoalKey) == Keys(init, GoalKey) + {last.goalType} by {
        assert news == init + [last];
        KeysAppend(init, [last], GoalKey);
        KeysSingleton(last, GoalKey);
      }
      UpsertGoalsKeys(goals, init);
    }
  }

  /** A goal whose type none of the upserted goals has stays stored. */
  lemma {:induction false} UpsertGoalsKeeps(goals: seq<Goal>, news: seq<Goal>)
    ensures forall x :: x in goals && x.goalType !in Keys(news, GoalKey) ==> x in UpsertGoals(goals, news)
  {
    if news != [] {
      var init := news[..|news| - 1];
      var last := news[|news| - 1];
      UpsertGoalsKeeps(goals, init);
      UpsertGoalEffect(UpsertGoals(goals, init), last);
      assert news == init + [last];
      KeysAppend(init, [last], GoalKey);
      KeysSingleton(last, GoalKey);
    }
  }

  /** Upserted goals of distinct types are all stored. */
  lemma {:induction false} UpsertGoalsStores(goals: seq<Goal>, news: seq<Goal>)
    requires DistinctKeys(news, GoalKey)
    ensures forall g :: g in news ==> g in UpsertGoals(goals, news)
  {
    if news != [] {
      var init := news[..|news| - 1];
      var last := news[|news| - 1];
      var before := UpsertGoals(goals, init);
      assert UpsertGoals(goals, news) == UpsertGoalInto(before, last);
      assert DistinctKeys(init, GoalKey);
      UpsertGoalsStores(goals, init);
      UpsertGoalEffect(before, last);
      forall g | g in news ensures g in UpsertGoalInto(before, last) {
        var i :| 0 <= i < |news| && news[i] == g;
        if i < |news| - 1 {
          assert g in init && g.goalType != last.goalType;
        }
      }
    }
  }

  /** A stored goal after the upserts was stored before or is one of the upserted goals. */
  lemma {:induction false} UpsertGoalsOrigin(goals: seq<Goal>, news: seq<Goal>)
    ensures forall x :: x in UpsertGoals(goals, news) ==> x in goals || x in news
  {
    if news != [] {
      var init := news[..|news| - 1];
      var last := news[|news| - 1];
      UpsertGoalsOrigin(goals, init);
      var before := UpsertGoals(goals, init);
      forall x | x in UpsertGoalInto(before, last) ensures x in before || x == last {
        if last.goalType in Keys(before, GoalKey) {
          var i :| 0 <= i < |before| && ReplaceGoal(before, last)[i] == x;
        }
      }
      assert news == init + [last];
    }
  }

  /** Upserts keep goal types unique. */
  lemma {:induction false} UpsertGoalsDistinct(goals: seq<Goal>, news: seq<Goal>)
    requires DistinctKeys(goals, GoalKey)
    ensures DistinctKeys(UpsertGoals(goals, news), GoalKey)
  {
    if news != [] {
      UpsertGoalsDistinct(goals, news[..|news| - 1]);
      UpsertGoalDistinct(UpsertGoals(goals, news[..|news| - 1]), news[|news| - 1]);
    }
  }

  /**
   * Pull's merge of the goals table: no local goal is changed or dropped (the
   * local goal wins), every other goal is a remote goal of a type not held
   * locally, the types are the local ones plus the remote ones, every remote
   * goal of a new type arrives when the remote types are unique, and unique
   * local types stay unique.
   */
  lemma PullGoalsMerge(cur: Option<seq<Goal>>, rows: seq<GoalRow>)
    ensures var local, res := cur.GetOr([]), PulledGoals(cur, rows).GetOr([]);
      && (forall x :: x in local ==> x in res)
      && (forall x :: x in res ==> x in local || exists r :: r in rows && r.goalType !in Keys(local, GoalKey) && x == GoalFromRow(r))
      && Keys(res, GoalKey) == Keys(local, GoalKey) + Keys(rows, GoalRowKey)
      && (DistinctKeys(rows, GoalRowKey) ==>
            forall r :: r in rows && r.goalType !in Keys(local, GoalKey) ==> GoalFromRow(r) in res)
      && (DistinctKeys(local, GoalKey) ==> DistinctKeys(res, GoalKey))
  {
    var local := cur.GetOr([]);
    var have := Keys(local, GoalKey);
    var news := Adopt(rows, GoalRowKey, GoalFromRow, have);
    assert PulledGoals(cur, rows).GetOr([]) == UpsertGoals(local, news);
    AdoptKeys(rows, GoalRowKey, GoalFromRow, GoalKey, have);
    UpsertGoalsKeys(local, news);
    UpsertGoalsKeeps(local, news);
    UpsertGoalsOrigin(local, news);
    forall x | x in news ensures exists r :: r in rows && r.goalType !in have && x == GoalFromRow(r) {
      AdoptOrigin(rows, GoalRowKey, GoalFromRow, have, x);
    }
    if DistinctKeys(rows, GoalRowKey) {
      AdoptDistinct(rows, GoalRowKey, GoalFromRow, GoalKey, have);
      UpsertGoalsStores(local, news);
      forall r | r in rows && r.goalType !in have ensures GoalFromRow(r) in news {
        AdoptIncludes(rows, GoalRowKey, GoalFromRow, have, r);
      }
    }
    if DistinctKeys(local, GoalKey) {
      UpsertGoalsDistinct(local, news);
    }
  }

  /** Pulling the same result sets twice leaves the local store as pulling once. */
  lemma PullIdempotent(l: LocalState, s: Option<seq<SessionRow>>, e: Option<seq<EntryRow>>,
                       m: Option<seq<MarkerRow>>, g: Option<seq<GoalRow>>)
    ensures PullSpec(PullSpec(l, s, e, m, g), s, e, m, g) == PullSpec(l, s, e, m, g)
  {
    var p := PullSpec(l, s, e, m, g);
    PullSessionsMerge(l.sessions, s.GetOr([]));
    AdoptNothingNew(s.GetOr([]), SessionRowKey, SessionFromRow, Keys(p.sessions.GetOr([]), SessionKey));
    PullEntriesMerge(l.entries, e.GetOr([]));
    AdoptNothingNew(e.GetOr([]), EntryRowKey, EntryFromRow, Keys(p.entries.GetOr([]), EntryKey));
    PullMarkersMerge(l.markers, m.GetOr([]));
    AdoptNothingNew(m.GetOr([]), MarkerRowKey, MarkerFromRow, Keys(p.markers.GetOr([]), MarkerKey));
    PullGoalsMerge(l.goals, g.GetOr([]));
    AdoptNothingNew(g.GetOr([]), GoalRowKey, GoalFromRow, Keys(p.goals.GetOr([]), GoalKey));
  }

  /** With unique keys locally and in each result set, pull adds no duplicate record. */
  lemma PullNoDuplicates(l: LocalState, s: Option<seq<SessionRow>>, e: Option<seq<EntryRow>>,
                         m: Option<seq<MarkerRow>>, g: Option<seq<GoalRow>>)
    requires DistinctKeys(l.sessions.GetOr([]), SessionKey) && DistinctKeys(s.GetOr([]), SessionRowKey)
    requires DistinctKeys(l.entries.GetOr([]), EntryKey) && DistinctKeys(e.GetOr([]), EntryRowKey)
    requires DistinctKeys(l.markers.GetOr([]), MarkerKey) && DistinctKeys(m.GetOr([]), MarkerRowKey)
    requires DistinctKeys(l.goals.GetOr([]), GoalKey)
    ensures var p := PullSpec(l, s, e, m, g);
      && DistinctKeys(p.sessions.GetOr([]), SessionKey)
      && DistinctKeys(p.entries.GetOr([]), EntryKey)
      && DistinctKeys(p.markers.GetOr([]), MarkerKey)
      && DistinctKeys(p.goals.GetOr([]), GoalKey)
  {
    PullSessionsMerge(l.sessions, s.GetOr([]));
    PullEntriesMerge(l.entries, e.GetOr([]));
    PullMarkersMerge(l.markers, m.GetOr([]));
    PullGoalsMerge(l.goals, g.GetOr([]));
  }

  // ---------------------------------------------------------------------------
  // Push on one device, pull on another
  // ---------------------------------------------------------------------------

  /**
   * Records with unique keys that survive their row conversion, pushed into
   * an empty table and listed back in any order, are adopted into an empty
   * store as exactly the records pushed.
   */
  lemma PushedThenAdopted<L, R>(xs: seq<L>, toRow: L -> R, fromRow: R -> L, key: L -> string, rkey: R -> string,
                                listing: seq<R>)
    requires forall x :: rkey(toRow(x)) == key(x)
    requires DistinctKeys(xs, key)
    requires forall x :: x in xs ==> fromRow(toRow(x)) == x
    requires forall row :: row in listing <==> row in UpsertAll(map[], MapSeq(toRow, xs), rkey).Values
    ensures forall x :: x in Adopt(listing, rkey, fromRow, {}) <==> x in xs
  {
    var rows := MapSeq(toRow, xs);
    var t := UpsertAll(map[], rows, rkey);
    MapSeqKeys(toRow, xs, key, rkey);
    UpsertMapped(map[], xs, toRow, key, rkey);
    forall x | x in Adopt(listing, rkey, fromRow, {}) ensures x in xs {
      AdoptOrigin(listing, rkey, fromRow, {}, x);
      var row :| row in listing && x == fromRow(row);
      var k :| k in t && t[k] == row;
      UpsertAllOrigin(map[], rows, rkey, k);
      var y :| y in xs && row == toRow(y);
    }
    forall x | x in xs ensures x in Adopt(listing, rkey, fromRow, {}) {
      assert t[key(x)] == toRow(x);
      assert toRow(x) in listing;
      AdoptIncludes(listing, rkey, fromRow, {}, toRow(x));
    }
  }

  /**
   * Sessions pushed by one device (`ss`, unique ids, notes present) come back
   * as exactly those sessions when another device with an empty or cleared
   * sessions key pulls the remote table (`listing`, its rows in any order).
   */
  lemma SessionsRoundTrip(ss: seq<Session>, uid: string, cur: Option<seq<Session>>, listing: seq<SessionRow>)
    requires DistinctKeys(ss, SessionKey)
    requires forall s :: s in ss ==> SessionPopulated(s)
    requires cur.GetOr([]) == []
    requires forall row :: row in listing <==> row in UpsertAll(map[], SessionRows(ss, uid), SessionRowKey).Values
    ensures forall x :: x in PulledSessions(cur, listing).GetOr([]) <==> x in ss
  {
    forall s | s in ss ensures SessionFromRow(SessionRowOf(uid)(s)) == s {
      SessionRoundTrip(s, uid);
    }
    PushedThenAdopted(ss, SessionRowOf(uid), SessionFromRow, SessionKey, SessionRowKey, listing);
    assert Keys(cur.GetOr([]), SessionKey) == {};
    ReverseMembers(Adopt(listing, SessionRowKey, SessionFromRow, {}));
  }

  /**
   * Entries pushed by one device (unique ids, every optional field present)
   * come back as exactly those entries when another device with an empty or
   * cleared entries key pulls the remote table.
   */
  lemma EntriesRoundTrip(es: seq<Entry>, uid: string, cur: Option<seq<Entry>>, listing: seq<EntryRow>)
    requires DistinctKeys(es, EntryKey)
    requires forall e :: e in es ==> EntryPopulated(e)
    requires cur.GetOr([]) == []
    requires forall row :: row in listing <==> row in UpsertAll(map[], EntryRows(es, uid), EntryRowKey).Values
    ensures forall x :: x in PulledEntries(cur, listing).GetOr([]) <==> x in es
  {
    forall e | e in es ensures EntryFromRow(EntryRowOf(uid)(e)) == e {
      EntryRoundTrip(e, uid);
    }
    PushedThenAdopted(es, EntryRowOf(uid), EntryFromRow, EntryKey, EntryRowKey, listing);
    assert Keys(cur.GetOr([]), EntryKey) == {};
    var news := Adopt(listing, EntryRowKey, EntryFromRow, {});
    assert news + [] == news;
  }

  /**
   * Markers pushed by one device (unique ids) come back as exactly those
   * markers when a device with no markers pulls the remote table.
   */
  lemma MarkersRoundTrip(ms: seq<Marker>, uid: string, cur: Option<seq<Marker>>, listing: seq<MarkerRow>)
    requires DistinctKeys(ms, MarkerKey)
    requires cur.GetOr([]) == []
    requires forall row :: row in listing <==> row in UpsertAll(map[], MarkerRows(ms, uid), MarkerRowKey).Values
    ensures forall x :: x in PulledMarkers(cur, listing).GetOr([]) <==> x in ms
  {
    forall m | m in ms ensures MarkerFromRow(MarkerRowOf(uid)(m)) == m {
      MarkerRoundTrip(m, uid);
    }
    PushedThenAdopted(ms, MarkerRowOf(uid), MarkerFromRow, MarkerKey, MarkerRowKey, listing);
    assert Keys(cur.GetOr([]), MarkerKey) == {};
    ReverseMembers(Adopt(listing, MarkerRowKey, MarkerFromRow, {}));
  }
}
