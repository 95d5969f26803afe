/** The early-stopping count of a session's traces (launcher/opik.py:53-87). */
module Opik {
  import opened Text

  /** A missing or empty start time is None; times are ordered as the ISO strings they are. */
  datatype Trace = Trace(thread: Option<string>, start: Option<int>)

  datatype Page = Unreachable | Items(content: seq<Trace>, total: nat)

  const PAGES := 200
  const SIZE := 100

  predicate Matches(t: Trace, session: string) {
    t.thread == Some(session)
  }

  function Count(ts: seq<Trace>, session: string): nat {
    if ts == [] then 0
    else Count(ts[..|ts| - 1], session) + if Matches(ts[|ts| - 1], session) then 1 else 0
  }

  /** The positions at which the session's traces stand. */
  function Hits(ts: seq<Trace>, session: string): set<nat> {
    set k: nat | k < |ts| && ts[k].thread == Some(session)
  }

  lemma {:induction false} CountByPosition(ts: seq<Trace>, session: string)
    ensures Count(ts, session) == |Hits(ts, session)|
  {
    if ts == [] {
      assert Hits(ts, session) == {};
    } else {
      var init, n := ts[..|ts| - 1], |ts| - 1;
      CountByPosition(init, session);
      assert Hits(ts, session) == Hits(init, session) + if ts[n].thread == Some(session) then {n} else {};
    }
  }

  /** Some item has a start before `since` and none lacks its start: the page's oldest is that old. */
  predicate OlderThan(items: seq<Trace>, since: int) {
    (forall t | t in items :: t.start.Some?) && exists t :: t in items && t.start.Some? && t.start.value < since
  }

  /** The smallest start; a missing one counts as the empty string, which is smallest. */
  method Oldest(items: seq<Trace>) returns (oldest: Option<int>)
    requires items != []
    ensures oldest.Some? <==> forall t | t in items :: t.start.Some?
    ensures oldest.Some? ==> exists t :: t in items && t.start == oldest
    ensures oldest.Some? ==> forall t | t in items :: t.start.value >= oldest.value
    ensures forall since :: OlderThan(items, since) <==> oldest.Some? && oldest.value < since
  {
    oldest := items[0].start;
    for k := 1 to |items|
      invariant oldest.Some? <==> forall t | t in items[..k] :: t.start.Some?
      invariant oldest.Some? ==> exists t :: t in items[..k] && t.start == oldest
      invariant oldest.Some? ==> forall t | t in items[..k] :: t.start.value >= oldest.value
    {
      var t := items[k];
      assert items[..k + 1] == items[..k] + [t];
      if t.start.None? || (oldest.Some? && t.start.value < oldest.value) {
        oldest := t.start;
      }
    }
    assert items[..|items|] == items;
  }

  /** What the scan returns when it goes on at `page`, for whatever the server answers. */
  function Scan(server: nat -> Page, session: string, since: int, page: nat, count: nat): Option<nat>
    decreases PAGES + 1 - page
  {
    if page > PAGES then Some(count)
    else
      match server(page)
      case Unreachable => None
      case Items(items, total) =>
        var c := count + Count(items, session);
        if items == [] || OlderThan(items, since) || page * SIZE >= total then Some(c)
        else Scan(server, session, since, page + 1, c)
  }

  lemma ScanStep(server: nat -> Page, session: string, since: int, page: nat, count: nat)
    requires page <= PAGES
    ensures Scan(server, session, since, page, count) ==
            match server(page)
            case Unreachable => None
            case Items(items, total) =>
              var c := count + Count(items, session);
              if items == [] || OlderThan(items, since) || page * SIZE >= total then Some(c)
              else Scan(server, session, since, page + 1, c)
  {
  }

  lemma ScanOver(server: nat -> Page, session: string, since: int, page: nat, count: nat)
    requires page > PAGES
    ensures Scan(server, session, since, page, count) == Some(count)
  {
  }

  lemma CountNone(session: string)
    ensures Count([], session) == 0
  {
  }

  lemma CountSnoc(ts: seq<Trace>, session: string, k: nat)
    requires k < |ts|
    ensures Count(ts[..k + 1], session) == Count(ts[..k], session) + if Matches(ts[k], session) then 1 else 0
  {
    assert ts[..k + 1][..k] == ts[..k];
  }

  method SessionTraceCount(server: nat -> Page, session: string, since: int) returns (r: Option<nat>)
    ensures r == Scan(server, session, since, 1, 0)
  {
    hide OlderThan, Scan, Count, Matches;
    var count, page := 0, 1;
    CountNone(session);
    while page <= PAGES
      invariant 1 <= page <= PAGES + 1
      invariant Scan(server, session, since, page, count) == Scan(server, session, since, 1, 0)
    {
      ScanStep(server, session, since, page, count);
      match server(page) {
        case Unreachable => return None;
        case Items(items, total) =>
          if items == [] {
            break;
          }
          var before := count;
          for k := 0 to |items|
            invariant count == before + Count(items[..k], session)
          {
            CountSnoc(items, session, k);
            if Matches(items[k], session) {
              count := count + 1;
            }
          }
          assert items[..|items|] == items;
          var oldest := Oldest(items);
          if oldest.Some? && oldest.value < since {
            break;
          }
          if page * SIZE >= total {
            break;
          }
          page := page + 1;
      }
    }
    ScanOver(server, session, since, PAGES + 1, count);
    r := Some(count);
  }

  // ---------------------------------------------------------------- against the whole list

  function Min(a: nat, b: nat): nat {
    if a < b then a else b
  }

  /** The server pages one list, honestly. */
  ghost predicate Serves(server: nat -> Page, all: seq<Trace>) {
    forall p | 1 <= p <= PAGES ::
      server(p) == Items(all[Min((p - 1) * SIZE, |all|)..Min(p * SIZE, |all|)], |all|)
  }

  ghost predicate NewestFirst(all: seq<Trace>) {
    forall i, j | 0 <= i < j < |all| && all[i].start.Some? && all[j].start.Some? ::
        all[i].start.value >= all[j].start.value
  }

  /** Every trace of the session started at or after `since`. */
  ghost predicate Since(all: seq<Trace>, session: string, since: int) {
    forall t | t in all && Matches(t, session) :: t.start.Some? && t.start.value >= since
  }

  lemma {:induction false} CountSplit(all: seq<Trace>, session: string, i: nat, j: nat)
    requires i <= j <= |all|
    ensures Count(all[..j], session) == Count(all[..i], session) + Count(all[i..j], session)
  {
    if i < j {
      CountSplit(all, session, i, j - 1);
      assert all[..j][..j - 1] == all[..j - 1] && all[i..j][..j - 1 - i] == all[i..j - 1];
    } else {
      assert all[i..j] == [];
    }
  }

  lemma {:induction false} NoneMatch(ts: seq<Trace>, session: string)
    requires forall t | t in ts :: !Matches(t, session)
    ensures Count(ts, session) == 0
  {
    if ts != [] {
      NoneMatch(ts[..|ts| - 1], session);
    }
  }

  /** Behind a page whose oldest trace is older than the run there is no trace of the session. */
  lemma NothingBelow(all: seq<Trace>, session: string, since: int, i: nat, j: nat, n: nat)
    requires NewestFirst(all) && Since(all, session, since) && i <= j <= n <= |all| && OlderThan(all[i..j], since)
    ensures Count(all[..n], session) == Count(all[..j], session)
  {
    var t :| t in all[i..j] && t.start.Some? && t.start.value < since;
    var k :| 0 <= k < j - i && all[i..j][k] == t;
    assert all[i + k] == t;
    forall u | u in all[j..n]
      ensures !Matches(u, session)
    {
      var m :| 0 <= m < n - j && all[j..n][m] == u;
      assert all[j + m] == u && u in all;
      assert u.start.Some? ==> all[i + k].start.value >= all[j + m].start.value;
    }
    NoneMatch(all[j..n], session);
    CountSplit(all, session, j, n);
  }

  lemma {:induction false} ScanCounts(server: nat -> Page, all: seq<Trace>, session: string, since: int, page: nat)
    requires Serves(server, all) && NewestFirst(all) && Since(all, session, since) && 1 <= page <= PAGES + 1
    ensures var seen, n := Min((page - 1) * SIZE, |all|), Min(PAGES * SIZE, |all|);
            Scan(server, session, since, page, Count(all[..seen], session)) == Some(Count(all[..n], session))
    decreases PAGES + 1 - page
  {
    hide Count, OlderThan, NewestFirst, Since;
    if page <= PAGES {
      var i, j, n := Min((page - 1) * SIZE, |all|), Min(page * SIZE, |all|), Min(PAGES * SIZE, |all|);
      CountSplit(all, session, i, j);
      var items := all[i..j];
      if items == [] {
        assert i == j == n;
        NoneMatch(items, session);
      } else if OlderThan(items, since) {
        NothingBelow(all, session, since, i, j, n);
      } else if page * SIZE >= |all| {
        assert j == n;
      } else {
        ScanCounts(server, all, session, since, page + 1);
      }
    }
  }

  /** The scan counts the session's traces among the first 20000 of the list, so in the whole list
      exactly when the ones behind hold none of them: always, for a list of at most 200 pages. */
  lemma ScanIsCount(server: nat -> Page, all: seq<Trace>, session: string, since: int)
    requires Serves(server, all) && NewestFirst(all) && Since(all, session, since)
    ensures var n := Min(PAGES * SIZE, |all|);
            && Scan(server, session, since, 1, 0) == Some(Count(all[..n], session))
            && (Scan(server, session, since, 1, 0) == Some(Count(all, session)) <==> Count(all[n..], session) == 0)
            && (|all| <= PAGES * SIZE ==> Scan(server, session, since, 1, 0) == Some(Count(all, session)))
            && Count(all, session) == |Hits(all, session)|
  {
    hide Scan, NewestFirst, Since, Serves;
    ScanCounts(server, all, session, since, 1);
    CountByPosition(all, session);
    var n := Min(PAGES * SIZE, |all|);
    CountSplit(all, session, n, |all|);
    assert all[..|all|] == all && all[n..|all|] == all[n..] && all[..0] == [];
  }
}
