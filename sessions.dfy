/**
 * The session store. The document collection is an in-memory map from
 * session id to record; the id source and the clock are parameters.
 */
module Sessions {
  import opened Wrappers
  import opened Errors
  import opened AppConstants

  /** A stored session; timestamps are integers on the store's clock. */
  datatype Session = Session(sessionId: string, region: string, status: Status, createdAt: int, updatedAt: int)

  /** The query `listSessions` receives, already validated by its caller. */
  datatype ListQuery = ListQuery(status: Option<Status>, region: Option<string>, limit: Option<nat>, offset: Option<nat>)

  /** The equality filters a query applies; `None` filters nothing. */
  datatype Filter = Filter(status: Option<Status>, region: Option<string>)

  predicate Matches(s: Session, f: Filter) {
    (f.status.None? || s.status == f.status.value) && (f.region.None? || s.region == f.region.value)
  }

  /** The filters a query turns into `where` clauses: only truthy fields count, so an empty region filters nothing. */
  function FilterOf(q: ListQuery): (f: Filter)
    ensures f.status == q.status
    ensures f.region.Some? <==> q.region.Some? && q.region.value != ""
    ensures f.region.Some? ==> f.region == q.region
  {
    Filter(q.status, if q.region.Some? && q.region.value != "" then q.region else None)
  }

  /** `x || fallback` on an optional count: absent and zero both give the fallback. */
  function OrDefault(x: Option<nat>, fallback: nat): (r: nat)
    ensures x.None? || x == Some(0) ==> r == fallback
    ensures x.Some? && x.value != 0 ==> r == x.value
  {
    if x.None? || x.value == 0 then fallback else x.value
  }

  /** The record `s` is what the store holds under its own id. */
  ghost predicate IsStored(m: map<string, Session>, s: Session) {
    s.sessionId in m && m[s.sessionId] == s
  }

  /** The ids of the stored records that pass the filter. */
  ghost function MatchingIds(m: map<string, Session>, f: Filter): (ids: set<string>)
  {
    set id | id in m && Matches(m[id], f)
  }

  /** The ids of the records in a list. */
  ghost function IdsOf(s: seq<Session>): (ids: set<string>)
  {
    set x | x in s :: x.sessionId
  }

  /** Ordered by `createdAt`, newest first. */
  predicate SortedNewestFirst(s: seq<Session>) {
    forall i, j :: 0 <= i < j < |s| ==> s[i].createdAt >= s[j].createdAt
  }

  /**
   * `ordered` is a result the database may give for the filtered query
   * ordered by `createdAt` descending: every matching record once, newest
   * first. Records with equal `createdAt` may come in any order.
   */
  ghost predicate IsListing(m: map<string, Session>, f: Filter, ordered: seq<Session>) {
    && SortedNewestFirst(ordered)
    && (forall x :: x in ordered ==> IsStored(m, x) && Matches(x, f))
    && IdsOf(ordered) == MatchingIds(m, f)
    && |ordered| == |IdsOf(ordered)|
  }

  /** The page: the first `offset` entries dropped, at most `limit` of the rest taken. */
  function Page<T>(s: seq<T>, offset: nat, limit: nat): (p: seq<T>)
    ensures offset <= |s| ==> |p| == if limit < |s| - offset then limit else |s| - offset
    ensures offset > |s| ==> p == []
    ensures forall i :: 0 <= i < |p| ==> offset + i < |s| && p[i] == s[offset + i]
  {
    var rest := if offset >= |s| then [] else s[offset..];
    if limit >= |rest| then rest else rest[..limit]
  }

  /** Inserts `x` behind every entry at least as new, keeping the order. */
  function InsertNewestFirst(s: seq<Session>, x: Session): (r: seq<Session>)
    requires SortedNewestFirst(s)
    ensures SortedNewestFirst(r)
    ensures |r| == |s| + 1
    ensures forall y :: y in r <==> y in s || y == x
    ensures multiset(r) == multiset(s) + multiset{x}
  {
    if s == [] || x.createdAt >= s[0].createdAt then
      assert forall k :: 0 <= k < |s| ==> s[k].createdAt <= s[0].createdAt;
      PrependNewest(x, s);
      [x] + s
    else
      assert s == [s[0]] + s[1..];
      var tail := InsertNewestFirst(s[1..], x);
      TailNotNewer(s, x, tail);
      PrependNewest(s[0], tail);
      [s[0]] + tail
  }

  /** A record no older than every entry of a sorted list may go in front of it. */
  lemma PrependNewest(h: Session, t: seq<Session>)
    requires SortedNewestFirst(t)
    requires forall k :: 0 <= k < |t| ==> t[k].createdAt <= h.createdAt
    ensures SortedNewestFirst([h] + t)
    ensures forall y :: y in [h] + t <==> y == h || y in t
  {
  }

  /** Inserting an older record into the rest of a sorted list yields nothing newer than its head. */
  lemma TailNotNewer(s: seq<Session>, x: Session, tail: seq<Session>)
    requires SortedNewestFirst(s) && s != [] && x.createdAt < s[0].createdAt
    requires forall y :: y in tail <==> y in s[1..] || y == x
    ensures forall k :: 0 <= k < |tail| ==> tail[k].createdAt <= s[0].createdAt
  {
    forall k | 0 <= k < |tail| ensures tail[k].createdAt <= s[0].createdAt {
      assert tail[k] in tail;
      if tail[k] != x {
        var j :| 0 <= j < |s[1..]| && s[1..][j] == tail[k];
        assert s[1 + j] == tail[k];
      }
    }
  }

  /** Orders records newest first (insertion sort); the records themselves are unchanged. */
  function SortNewestFirst(s: seq<Session>): (r: seq<Session>)
    ensures SortedNewestFirst(r)
    ensures |r| == |s|
    ensures forall y :: y in r <==> y in s
    ensures multiset(r) == multiset(s)
  {
    if s == [] then []
    else
      var init := s[..|s| - 1];
      assert forall y :: y in s <==> y in init || y == s[|s| - 1] by {
        assert s == init + [s[|s| - 1]];
      }
      assert s == init + [s[|s| - 1]];
      InsertNewestFirst(SortNewestFirst(init), s[|s| - 1])
  }

  /** Ordering every matching record, each once, newest first gives a listing. */
  lemma SortedIsListing(m: map<string, Session>, f: Filter, found: seq<Session>)
    requires forall x :: x in found ==> IsStored(m, x) && Matches(x, f)
    requires IdsOf(found) == MatchingIds(m, f)
    requires |found| == |IdsOf(found)|
    ensures IsListing(m, f, SortNewestFirst(found))
  {
    assert IdsOf(SortNewestFirst(found)) == IdsOf(found);
  }

  /**
   * The keys already visited are `m.Keys - remaining`; `found` holds each
   * visited record that matches, once.
   */
  ghost predicate Collected(m: map<string, Session>, f: Filter, found: seq<Session>, remaining: set<string>) {
    && remaining <= m.Keys
    && (forall x :: x in found ==> IsStored(m, x) && Matches(x, f))
    && IdsOf(found) == MatchingIds(m, f) - remaining
    && |found| == |IdsOf(found)|
  }

  lemma IdsOfAppend(s: seq<Session>, x: Session)
    ensures IdsOf(s + [x]) == IdsOf(s) + {x.sessionId}
  {
    assert forall y :: y in s + [x] <==> y in s || y == x;
  }

  lemma MatchingStep(m: map<string, Session>, f: Filter, remaining: set<string>, id: string)
    requires id in remaining
    ensures MatchingIds(m, f) - (remaining - {id})
         == (MatchingIds(m, f) - remaining) + (if id in m && Matches(m[id], f) then {id} else {})
  {
  }

  /** Visiting one more key keeps `Collected`. */
  lemma CollectStep(m: map<string, Session>, f: Filter, found: seq<Session>, remaining: set<string>, id: string)
    requires forall k :: k in m ==> m[k].sessionId == k
    requires Collected(m, f, found, remaining) && id in remaining
    ensures Collected(m, f, if Matches(m[id], f) then found + [m[id]] else found, remaining - {id})
  {
    MatchingStep(m, f, remaining, id);
    if Matches(m[id], f) {
      CollectMatching(m, f, found, remaining, id);
    }
  }

  /** A visited key whose record matches adds that record, which was not yet collected. */
  lemma CollectMatching(m: map<string, Session>, f: Filter, found: seq<Session>, remaining: set<string>, id: string)
    requires id in m && m[id].sessionId == id && Matches(m[id], f)
    requires Collected(m, f, found, remaining) && id in remaining
    requires MatchingIds(m, f) - (remaining - {id}) == (MatchingIds(m, f) - remaining) + {id}
    ensures Collected(m, f, found + [m[id]], remaining - {id})
  {
    var x := m[id];
    var grown := found + [x];
    IdsOfAppend(found, x);
    assert id !in IdsOf(found);
    assert forall y :: y in grown ==> y in found || y == x;
  }

  /** A sequence names at most as many sessions as it has entries. */
  lemma {:induction false} IdsOfBound(s: seq<Session>)
    ensures |IdsOf(s)| <= |s|
  {
    if s != [] {
      var init := s[..|s| - 1];
      IdsOfBound(init);
      assert s == init + [s[|s| - 1]];
      assert IdsOf(s) == IdsOf(init) + {s[|s| - 1].sessionId};
    }
  }

  /** A listing names each session at most once. */
  lemma ListingHasNoDuplicates(s: seq<Session>)
    requires |s| == |IdsOf(s)|
    ensures forall i, j :: 0 <= i < j < |s| ==> s[i].sessionId != s[j].sessionId
  {
    forall i, j | 0 <= i < j < |s| ensures s[i].sessionId != s[j].sessionId {
      if s[i].sessionId == s[j].sessionId {
        var without := s[..j] + s[j + 1..];
        assert IdsOf(without) == IdsOf(s) by {
          assert s[i] in without;
          assert forall x :: x in s ==> x in without || x == s[j];
          assert forall x :: x in without ==> x in s;
        }
        IdsOfBound(without);
        assert false;
      }
    }
  }

  /** The store. `Valid` says every record is filed under its own id. */
  class SessionService {
    var sessions: map<string, Session>

    ghost predicate Valid()
      reads this
    {
      forall id :: id in sessions ==> sessions[id].sessionId == id
    }

    constructor ()
      ensures Valid() && sessions == map[]
    {
      sessions := map[];
    }

    /**
     * `createSession`: a pending record stamped `now` twice, filed under the
     * id the id source supplied, which names no existing record.
     */
    method CreateSession(region: string, freshId: string, now: int) returns (s: Session)
      requires Valid()
      requires freshId !in sessions
      modifies this
      ensures Valid()
      ensures s == Session(freshId, region, Pending, now, now)
      ensures sessions == old(sessions)[freshId := s]
      ensures |sessions| == |old(sessions)| + 1
    {
      s := Session(freshId, region, Pending, now, now);
      sessions := sessions[freshId := s];
    }

    /** `getSession`: the stored record, or NotFound("Session"). */
    method GetSession(sessionId: string) returns (r: Result<Session, AppError>)
      requires Valid()
      ensures r.Ok? <==> sessionId in sessions
      ensures r.Ok? ==> r.value == sessions[sessionId] && r.value.sessionId == sessionId
      ensures r.Err? ==> r.error == NotFound("Session") && r.error.Message() == "Session not found"
    {
      if sessionId !in sessions {
        return Err(NotFound("Session"));
      }
      r := Ok(sessions[sessionId]);
    }

    /**
     * `updateSessionStatus`: after the existence check, a partial write of
     * `status` and `updatedAt`, then the record is read back.
     */
    method UpdateSessionStatus(sessionId: string, status: Status, now: int) returns (r: Result<Session, AppError>)
      requires Valid()
      modifies this
      ensures Valid()
      ensures sessionId !in old(sessions) ==> r == Err(NotFound("Session")) && sessions == old(sessions)
      ensures sessionId in old(sessions) ==>
        && sessions == old(sessions)[sessionId := old(sessions)[sessionId].(status := status, updatedAt := now)]
        && r == Ok(sessions[sessionId])
    {
      if sessionId !in sessions {
        return Err(NotFound("Session"));
      }
      sessions := sessions[sessionId := sessions[sessionId].(status := status, updatedAt := now)];
      r := Ok(sessions[sessionId]);
    }

    /**
     * What the database returns for the filtered query ordered by
     * `createdAt` descending (without limit or cursor).
     */
    method RunQuery(f: Filter) returns (ordered: seq<Session>)
      requires Valid()
      ensures IsListing(sessions, f, ordered)
    {
      var remaining := sessions.Keys;
      var found: seq<Session> := [];
      while remaining != {}
        invariant Collected(sessions, f, found, remaining)
        decreases remaining
      {
        var id :| id in remaining;
        CollectStep(sessions, f, found, remaining, id);
        if Matches(sessions[id], f) {
          found := found + [sessions[id]];
        }
        remaining := remaining - {id};
      }
      ordered := SortNewestFirst(found);
      SortedIsListing(sessions, f, found);
    }

    /**
     * `listSessions`: the total counts every matching record; the page skips
     * `offset` of them, newest first, and takes at most `limit`.
     */
    method ListSessions(query: ListQuery) returns (page: seq<Session>, total: nat)
      requires Valid()
      ensures total == |MatchingIds(sessions, FilterOf(query))|
      ensures exists ordered :: IsListing(sessions, FilterOf(query), ordered)
                && page == Page(ordered, OrDefault(query.offset, DEFAULT_OFFSET), OrDefault(query.limit, DEFAULT_LIMIT))
      ensures |page| <= OrDefault(query.limit, DEFAULT_LIMIT)
      ensures forall x :: x in page ==> IsStored(sessions, x) && Matches(x, FilterOf(query))
      ensures SortedNewestFirst(page)
    {
      var filter := Filter(None, None);
      if query.status.Some? {
        filter := filter.(status := query.status);
      }
      if query.region.Some? && query.region.value != "" {
        filter := filter.(region := query.region);
      }
      var limit := OrDefault(query.limit, DEFAULT_LIMIT);
      var offset := OrDefault(query.offset, DEFAULT_OFFSET);

      // The store does not change between the reads of this call and orders
      // deterministically, so one evaluation stands for every read of the query.
      var ordered := RunQuery(filter);
      total := |ordered|;

      var skip: nat := 0;
      if offset > 0 {
        var offsetDocs := Page(ordered, 0, offset);
        if |offsetDocs| > 0 {
          skip := |offsetDocs|;   // startAfter(lastDoc)
        }
      }
      page := Page(ordered, skip, limit);

      assert page == Page(ordered, offset, limit);
      forall x | x in page ensures IsStored(sessions, x) && Matches(x, filter) {
        var i :| 0 <= i < |page| && page[i] == x;
        assert ordered[skip + i] in ordered;
      }
    }
  }

  /** A client of the store: the lifecycle the HTTP endpoints drive, checked from the contracts alone. */
  method Lifecycle(id: string, other: string, t0: int, t1: int)
    requires id != other
  {
    var store := new SessionService();
    var created := store.CreateSession("eu-central", id, t0);
    assert created.status == Pending && created.createdAt == created.updatedAt;

    var fetched := store.GetSession(id);
    assert fetched == Ok(created);
    var missing := store.GetSession(other);
    assert missing == Err(NotFound("Session"));

    var updated := store.UpdateSessionStatus(id, Active, t1);
    assert updated.Ok? && updated.value.status == Active;
    assert updated.value.createdAt == t0 && updated.value.updatedAt == t1 && updated.value.region == "eu-central";

    var page, total := store.ListSessions(ListQuery(None, Some("us-east"), Some(10), Some(0)));
    assert |page| <= 10;
    assert forall x :: x in page ==> x.region == "us-east";
  }
}
