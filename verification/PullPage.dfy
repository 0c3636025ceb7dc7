/** voucher_pull_store.go List: one page of voucher metadata, filtered after the limited query. */
module PullPage {
  import opened Common
  import opened Records
  import opened Queries
  import opened TransmissionStore

  datatype VoucherInfo = VoucherInfo(guid: string, serial: string, model: string, createdAt: Time)

  datatype Page = Page(vouchers: seq<VoucherInfo>, continuation: Option<Time>, hasMore: bool, totalCount: nat)

  datatype Window = Window(since: Option<Time>, until: Option<Time>)

  predicate NotBefore(w: Window, r: Row) { w.since.Some? ==> r.createdAt >= w.since.value }

  predicate NotAfter(w: Window, r: Row) { w.until.Some? ==> r.createdAt <= w.until.value }

  predicate Within(w: Window, r: Row) { NotBefore(w, r) && NotAfter(w, r) }

  function Filter(records: seq<Row>, w: Window): seq<Row> {
    if records == [] then []
    else
      var init, last := Filter(records[..|records| - 1], w), records[|records| - 1];
      if Within(w, last) then init + [last] else init
  }

  predicate HasMore(records: seq<Row>, w: Window, limit: nat) { |Filter(records, w)| > limit }

  function Kept(records: seq<Row>, w: Window, limit: nat): seq<Row> {
    if HasMore(records, w, limit) then Filter(records, w)[..limit] else Filter(records, w)
  }

  predicate Occurs(rows: seq<Row>, guid: string) { exists r :: r in rows && r.guid == guid }

  function Info(r: Row): VoucherInfo { VoucherInfo(r.guid, r.serial, r.model, r.createdAt) }

  function FirstPerGuid(rows: seq<Row>): seq<VoucherInfo> {
    if rows == [] then []
    else
      var init, last := rows[..|rows| - 1], rows[|rows| - 1];
      if Occurs(init, last.guid) then FirstPerGuid(init) else FirstPerGuid(init) + [Info(last)]
  }

  function BuildPage(records: seq<Row>, w: Window, limit: nat): Page {
    var kept := Kept(records, w, limit);
    Page(FirstPerGuid(kept),
         if HasMore(records, w, limit) && kept != [] then Some(kept[|kept| - 1].createdAt) else None,
         HasMore(records, w, limit), |FirstPerGuid(kept)|)
  }

  ghost function Scope(rows: seq<Row>, grants: seq<Grant>, fp: Option<string>): set<Row> {
    if fp.Some? then VisibleRows(rows, grants, fp.value) else Elems(rows)
  }

  /** The page is built from a legal answer to the query for one row more than the limit. */
  ghost predicate PageOf(records: seq<Row>, all: set<Row>, w: Window, limit: nat, page: Page) {
    Limited(records, all, NewestFirst, limit + 1) && page == BuildPage(records, w, limit)
  }

  class PullVoucherStore {
    const store: VoucherTransmissionStore

    constructor (store: VoucherTransmissionStore)
      ensures this.store == store
    {
      this.store := store;
    }

    /** The since/until loop. */
    method ApplyWindow(records: seq<Row>, w: Window) returns (filtered: seq<Row>)
      ensures filtered == Filter(records, w)
    {
      filtered := [];
      for i := 0 to |records|
        invariant filtered == Filter(records[..i], w)
      {
        assert records[..i + 1][..i] == records[..i];
        var rec := records[i];
        if w.since.Some? && rec.createdAt < w.since.value {
          continue;
        }
        if w.until.Some? && rec.createdAt > w.until.value {
          continue;
        }
        filtered := filtered + [rec];
      }
      assert records[..|records|] == records;
    }

    /** The loop that drops further records of a voucher already on the page. */
    method DeduplicateByGuid(filtered: seq<Row>) returns (vouchers: seq<VoucherInfo>)
      ensures vouchers == FirstPerGuid(filtered)
    {
      var seen: set<string> := {};
      vouchers := [];
      for i := 0 to |filtered|
        invariant vouchers == FirstPerGuid(filtered[..i])
        invariant forall g :: g in seen <==> Occurs(filtered[..i], g)
      {
        var rec := filtered[i];
        assert filtered[..i + 1] == filtered[..i] + [rec];
        OccursSnoc(filtered[..i], rec);
        if rec.guid in seen {
          continue;
        }
        seen := seen + {rec.guid};
        vouchers := vouchers + [Info(rec)];
      }
      assert filtered[..|filtered|] == filtered;
    }

    method List(fp: Option<string>, limit: int, w: Window) returns (page: Page)
      requires store.Valid()
      ensures exists records: seq<Row> ::
        PageOf(records, Scope(store.rows, store.grants, fp), w, LimitOr(limit, 50), page)
      ensures |page.vouchers| <= (if limit > 0 then limit else 50)
    {
      var queryLimit := limit;
      if queryLimit <= 0 {
        queryLimit := 50;
      }
      var records: seq<Row>;
      if fp.Some? {
        records := store.ListByAccessGrant(fp.value, queryLimit + 1);
      } else {
        records := store.ListTransmissions(None, "", queryLimit + 1);
        assert Matching(store.rows, Selected(None, "")) == Elems(store.rows);
      }
      page := Assemble(records, queryLimit, w);
      PageReads(records, w, queryLimit);
      assert PageOf(records, Scope(store.rows, store.grants, fp), w, LimitOr(limit, 50), page);
    }

    /** From the query's answer to the page. */
    method Assemble(records: seq<Row>, queryLimit: nat, w: Window) returns (page: Page)
      ensures page == BuildPage(records, w, queryLimit)
    {
      var filtered := ApplyWindow(records, w);
      var hasMore := |filtered| > queryLimit;
      if hasMore {
        filtered := filtered[..queryLimit];
      }
      assert filtered == Kept(records, w, queryLimit);
      var vouchers := DeduplicateByGuid(filtered);
      var continuation: Option<Time> := None;
      if hasMore && |filtered| > 0 {
        continuation := Some(filtered[|filtered| - 1].createdAt);
      }
      page := Page(vouchers, continuation, hasMore, |vouchers|);
    }
  }

  lemma OccursSnoc(rows: seq<Row>, r: Row)
    ensures (rows + [r])[..|rows|] == rows
    ensures forall g :: Occurs(rows + [r], g) <==> Occurs(rows, g) || g == r.guid
  {
    forall g ensures Occurs(rows + [r], g) <==> Occurs(rows, g) || g == r.guid {
      assert r in rows + [r];
    }
  }

  // ---------- what a page contains ----------

  lemma {:induction false} FilterMembers(records: seq<Row>, w: Window)
    ensures forall r :: r in Filter(records, w) <==> r in records && Within(w, r)
    ensures |Filter(records, w)| <= |records|
  {
    if records != [] {
      var init := records[..|records| - 1];
      FilterMembers(init, w);
      assert records == init + [records[|records| - 1]];
    }
  }

  lemma {:induction false} FilterKeepsOrder(records: seq<Row>, w: Window)
    requires Distinct(records) && Sorted(records, NewestFirst)
    ensures Distinct(Filter(records, w)) && Sorted(Filter(records, w), NewestFirst)
  {
    if records != [] {
      var init, last := records[..|records| - 1], records[|records| - 1];
      FilterKeepsOrder(init, w);
      FilterMembers(init, w);
      forall r | r in Filter(init, w) ensures r != last && NewestFirst(r, last) {
        var i :| 0 <= i < |init| && init[i] == r;
        assert records[i] == r;
      }
    }
  }

  /** The position at which a GUID first occurs. */
  function FirstIndex(rows: seq<Row>, guid: string): (i: nat)
    requires Occurs(rows, guid)
    ensures i < |rows| && rows[i].guid == guid
    ensures forall j :: 0 <= j < i ==> rows[j].guid != guid
  {
    var init := rows[..|rows| - 1];
    if Occurs(init, guid) then FirstIndex(init, guid)
    else
      assert forall j :: 0 <= j < |init| ==> init[j] in init;
      |rows| - 1
  }

  ghost predicate ListsFirsts(rows: seq<Row>, f: seq<VoucherInfo>) {
    && (forall i :: 0 <= i < |f| ==> Occurs(rows, f[i].guid) && f[i] == Info(rows[FirstIndex(rows, f[i].guid)]))
    && (forall i, j :: 0 <= i < j < |f| ==> f[i].guid != f[j].guid)
    && (forall i, j :: 0 <= i < j < |f| ==> FirstIndex(rows, f[i].guid) < FirstIndex(rows, f[j].guid))
  }

  /** Each GUID of the kept rows once, described by its first row, in order of first occurrence. */
  ghost predicate DescribesFirsts(rows: seq<Row>, f: seq<VoucherInfo>) {
    && ListsFirsts(rows, f)
    && (forall g :: Occurs(rows, g) ==> exists i :: 0 <= i < |f| && f[i].guid == g)
  }

  lemma FirstIndexSnoc(rows: seq<Row>, r: Row, g: string)
    requires Occurs(rows, g)
    ensures Occurs(rows + [r], g) && FirstIndex(rows + [r], g) == FirstIndex(rows, g)
  {
    OccursSnoc(rows, r);
  }

  lemma {:induction false} FirstPerGuidMeaning(rows: seq<Row>)
    ensures DescribesFirsts(rows, FirstPerGuid(rows))
  {
    if rows != [] {
      var init, last := rows[..|rows| - 1], rows[|rows| - 1];
      FirstPerGuidMeaning(init);
      assert rows == init + [last];
      FirstsSnoc(init, last, FirstPerGuid(init));
    }
  }

  /** What a description of `init` says about `rows`, which extends `init`. */
  ghost predicate CarriesOver(init: seq<Row>, rows: seq<Row>, f: seq<VoucherInfo>) {
    && ListsFirsts(rows, f)
    && (forall i :: 0 <= i < |f| ==> FirstIndex(rows, f[i].guid) < |init| <= |rows|)
    && (forall g :: Occurs(init, g) ==> exists i :: 0 <= i < |f| && f[i].guid == g)
  }

  lemma DescriptionCarriesOver(init: seq<Row>, last: Row, f: seq<VoucherInfo>)
    requires DescribesFirsts(init, f)
    ensures CarriesOver(init, init + [last], f)
  {
    var rows := init + [last];
    forall i | 0 <= i < |f|
      ensures Occurs(rows, f[i].guid) && FirstIndex(rows, f[i].guid) == FirstIndex(init, f[i].guid) < |init|
      ensures f[i] == Info(rows[FirstIndex(rows, f[i].guid)])
    {
      FirstIndexSnoc(init, last, f[i].guid);
    }
  }

  lemma FirstsSnoc(init: seq<Row>, last: Row, f: seq<VoucherInfo>)
    requires DescribesFirsts(init, f)
    ensures DescribesFirsts(init + [last], if Occurs(init, last.guid) then f else f + [Info(last)])
  {
    var rows := init + [last];
    DescriptionCarriesOver(init, last, f);
    OccursSnoc(init, last);
    if Occurs(init, last.guid) {
      NoNewFirst(init, rows, f);
    } else {
      NewFirst(init, last, rows, f);
    }
  }

  lemma NoNewFirst(init: seq<Row>, rows: seq<Row>, f: seq<VoucherInfo>)
    requires CarriesOver(init, rows, f)
    requires forall g :: Occurs(rows, g) <==> Occurs(init, g)
    ensures DescribesFirsts(rows, f)
  {
  }

  lemma FirstIndexOfNew(init: seq<Row>, last: Row)
    requires !Occurs(init, last.guid)
    ensures Occurs(init + [last], last.guid) && FirstIndex(init + [last], last.guid) == |init|
  {
    OccursSnoc(init, last);
    assert forall j :: 0 <= j < |init| ==> init[j] in init;
  }

  lemma NewFirst(init: seq<Row>, last: Row, rows: seq<Row>, f: seq<VoucherInfo>)
    requires rows == init + [last] && !Occurs(init, last.guid) && CarriesOver(init, rows, f)
    requires forall g :: Occurs(rows, g) <==> Occurs(init, g) || g == last.guid
    ensures DescribesFirsts(rows, f + [Info(last)])
  {
    FirstIndexOfNew(init, last);
    CoversNew(init, last, f);
    NewGuidDiffers(init, last, f);
    NewIsLast(rows, f, Info(last));
  }

  /** An entry whose first row comes after those of all others may be appended. */
  lemma NewIsLast(rows: seq<Row>, f: seq<VoucherInfo>, info: VoucherInfo)
    requires ListsFirsts(rows, f)
    requires Occurs(rows, info.guid) && info == Info(rows[FirstIndex(rows, info.guid)])
    requires forall i :: 0 <= i < |f| ==>
      f[i].guid != info.guid && FirstIndex(rows, f[i].guid) < FirstIndex(rows, info.guid)
    ensures ListsFirsts(rows, f + [info])
  {
    var f' := f + [info];
    assert forall i :: 0 <= i < |f'| ==> f'[i] == if i < |f| then f[i] else info;
  }

  lemma NewGuidDiffers(init: seq<Row>, last: Row, f: seq<VoucherInfo>)
    requires !Occurs(init, last.guid) && CarriesOver(init, init + [last], f)
    ensures forall i :: 0 <= i < |f| ==> f[i].guid != last.guid
  {
    forall i | 0 <= i < |f| ensures f[i].guid != last.guid {
      assert init[FirstIndex(init + [last], f[i].guid)] in init;
    }
  }

  lemma CoversNew(init: seq<Row>, last: Row, f: seq<VoucherInfo>)
    requires forall g :: Occurs(init, g) ==> exists i :: 0 <= i < |f| && f[i].guid == g
    ensures
      var f' := f + [Info(last)];
      forall g :: Occurs(init, g) || g == last.guid ==> exists i :: 0 <= i < |f'| && f'[i].guid == g
  {
    var f' := f + [Info(last)];
    forall g | Occurs(init, g) || g == last.guid ensures exists i :: 0 <= i < |f'| && f'[i].guid == g {
      if g == last.guid {
        assert f'[|f|].guid == g;
      } else {
        var i :| 0 <= i < |f| && f[i].guid == g;
        assert f'[i].guid == g;
      }
    }
  }

  /** Rows on the page lie in the window, and a continuation is a lower bound on them. */
  lemma PageBounds(records: seq<Row>, all: set<Row>, w: Window, limit: nat)
    requires Limited(records, all, NewestFirst, limit + 1)
    ensures
      var kept := Kept(records, w, limit);
      && (forall r :: r in kept ==> r in all && Within(w, r))
      && (forall r :: r in kept && BuildPage(records, w, limit).continuation.Some? ==>
            BuildPage(records, w, limit).continuation.value <= r.createdAt)
  {
    FilterKeepsOrder(records, w);
    FilterMembers(records, w);
    var kept := Kept(records, w, limit);
    forall r | r in kept ensures r in all && Within(w, r) && r.createdAt >= kept[|kept| - 1].createdAt {
      var i :| 0 <= i < |kept| && kept[i] == r;
      assert Filter(records, w)[i] == r;
      assert r in Elems(records);
      assert i == |kept| - 1 || NewestFirst(Filter(records, w)[i], Filter(records, w)[|kept| - 1]);
    }
  }

  /** An entry gives the voucher's newest kept record: GUID, serial, model and time. */
  predicate EntryFits(kept: seq<Row>, e: VoucherInfo) {
    exists i :: 0 <= i < |kept| && kept[i].guid == e.guid && kept[i].serial == e.serial && kept[i].model == e.model
      && kept[i].createdAt == e.createdAt && forall j :: 0 <= j < |kept| && kept[j].guid == e.guid ==> i <= j
  }

  ghost predicate KeptInWindow(records: seq<Row>, w: Window, kept: seq<Row>) {
    forall r :: r in kept ==>
      r in records && (w.since == None || w.since.value <= r.createdAt)
        && (w.until == None || r.createdAt <= w.until.value)
  }

  lemma KeptFits(records: seq<Row>, w: Window, limit: nat)
    ensures KeptInWindow(records, w, Kept(records, w, limit))
  {
    FilterMembers(records, w);
    forall r | r in Kept(records, w, limit) ensures r in Filter(records, w) {
    }
  }

  lemma EntriesFit(kept: seq<Row>)
    ensures forall e :: e in FirstPerGuid(kept) ==> EntryFits(kept, e)
  {
    FirstPerGuidMeaning(kept);
    forall e | e in FirstPerGuid(kept) ensures EntryFits(kept, e) {
      var k :| 0 <= k < |FirstPerGuid(kept)| && FirstPerGuid(kept)[k] == e;
      assert kept[FirstIndex(kept, e.guid)].guid == e.guid;
    }
  }

  /**
   * The page in the terms of its reader: entries lie between Since and Until, inclusive, and describe the newest
   * such record of their voucher; there are at most `limit`; and there is a continuation exactly when there is more.
   */
  lemma PageReads(records: seq<Row>, w: Window, limit: nat)
    requires limit > 0
    ensures
      var page, kept := BuildPage(records, w, limit), Kept(records, w, limit);
      && |page.vouchers| <= |kept| <= limit && page.totalCount == |page.vouchers|
      && KeptInWindow(records, w, kept) && (forall e :: e in page.vouchers ==> EntryFits(kept, e))
      && (page.continuation.Some? <==> page.hasMore) && (page.hasMore ==> |kept| == limit)
      && (page.hasMore ==> page.continuation == Some(kept[limit - 1].createdAt))
  {
    KeptFits(records, w, limit);
    EntriesFit(Kept(records, w, limit));
    FirstPerGuidShorter(Kept(records, w, limit));
  }

  lemma {:induction false} FirstPerGuidShorter(rows: seq<Row>)
    ensures |FirstPerGuid(rows)| <= |rows|
  {
    if rows != [] { FirstPerGuidShorter(rows[..|rows| - 1]); }
  }

  /** Without a Since or Until bound, or with one, exactly the records between them qualify. */
  lemma QualifyingMeans(all: set<Row>, w: Window, r: Row)
    ensures r in Qualifying(all, w) <==>
      r in all && (w.since == None || w.since.value <= r.createdAt) && (w.until == None || r.createdAt <= w.until.value)
    ensures r in TooNew(all, w) <==> r in all && w.until.Some? && w.until.value < r.createdAt
  {
  }

  ghost function Qualifying(all: set<Row>, w: Window): set<Row> {
    set r | r in all && Within(w, r)
  }

  ghost function TooNew(all: set<Row>, w: Window): set<Row> {
    set r | r in all && !NotAfter(w, r)
  }

  lemma FilterIsIntersection(records: seq<Row>, all: set<Row>, w: Window, limit: nat)
    requires Limited(records, all, NewestFirst, limit + 1)
    ensures
      var f := Filter(records, w);
      && Elems(f) == Elems(records) * Qualifying(all, w)
      && Distinct(f) && Sorted(f, NewestFirst) && |f| <= |records|
      && |Elems(f)| == |f| && |Elems(records)| == |records|
  {
    FilterKeepsOrder(records, w);
    FilterMembers(records, w);
    DistinctCount(Filter(records, w));
    DistinctCount(records);
    assert forall r :: r in Filter(records, w) <==> r in Elems(Filter(records, w));
    assert forall r :: r in records <==> r in Elems(records);
  }

  /** A qualifying row outside the query result means every row in the result is recent enough. */
  lemma MissedMeansRecent(records: seq<Row>, all: set<Row>, w: Window, limit: nat, missed: Row)
    requires Limited(records, all, NewestFirst, limit + 1)
    requires missed in Qualifying(all, w) && missed !in records
    ensures Elems(records) <= Qualifying(all, w) + TooNew(all, w)
    ensures |records| == limit + 1
  {
    forall r | r in records ensures r in Qualifying(all, w) + TooNew(all, w) {
      assert NewestFirst(r, missed);
      assert r in Elems(records);
    }
    if |all| <= limit + 1 {
      UnlimitedIsAll(records, all, NewestFirst, limit + 1);
      assert false;
    }
  }

  /**
   * When no visible row is newer than the Until bound, the page is exact: its rows are the newest `limit`
   * qualifying rows, and HasMore is set exactly when there are more than `limit` of them.
   */
  lemma PageIsExact(records: seq<Row>, all: set<Row>, w: Window, limit: nat)
    requires Limited(records, all, NewestFirst, limit + 1) && TooNew(all, w) == {}
    ensures HasMore(records, w, limit) <==> |Qualifying(all, w)| > limit
    ensures Limited(Kept(records, w, limit), Qualifying(all, w), NewestFirst, limit)
  {
    var f, q := Filter(records, w), Qualifying(all, w);
    FilterIsIntersection(records, all, w, limit);
    SubsetCount(Elems(f), q);
    if |f| <= limit {
      if missed :| missed in q && missed !in records {
        LossNeedsTooNew(records, all, w, limit, missed);
        assert false;
      }
      assert forall r :: r in records <==> r in Elems(records);
      assert Elems(f) == q;
      assert forall r :: r in f <==> r in Elems(f);
    } else {
      var kept := f[..limit];
      assert Elems(kept) <= q by {
        assert forall r :: r in kept ==> r in Elems(f);
      }
      forall r, s | r in q && r !in kept && s in kept ensures NewestFirst(s, r) {
        assert s in Elems(f);
        if r in records {
          assert r in Elems(f);
          assert r in f[limit..];
        }
      }
    }
  }

  /** Without an Until bound no row can be too new, so every such page is exact. */
  lemma PageWithoutUntil(records: seq<Row>, all: set<Row>, w: Window, limit: nat)
    requires Limited(records, all, NewestFirst, limit + 1) && w.until == None
    ensures HasMore(records, w, limit) <==> |Qualifying(all, w)| > limit
    ensures Limited(Kept(records, w, limit), Qualifying(all, w), NewestFirst, limit)
  {
    PageIsExact(records, all, w, limit);
  }

  /**
   * Counted in records, a page that reports no more although it misses qualifying ones: this happens exactly when
   * rows newer than the Until bound and qualifying rows both exist and together exceed the query's limit.
   */
  lemma SilentLossIff(records: seq<Row>, all: set<Row>, w: Window, limit: nat)
    requires Limited(records, all, NewestFirst, limit + 1) && limit > 0
    ensures
      !HasMore(records, w, limit) && Elems(Kept(records, w, limit)) != Qualifying(all, w)
      <==> TooNew(all, w) != {} && Qualifying(all, w) != {} && |TooNew(all, w)| + |Qualifying(all, w)| > limit + 1
  {
    var f, q, n := Filter(records, w), Qualifying(all, w), TooNew(all, w);
    FilterIsIntersection(records, all, w, limit);
    DisjointUnionCount(n, q);
    if !HasMore(records, w, limit) && Elems(f) != q {
      var missed :| missed in q && missed !in Elems(f);
      assert missed !in records;
      LossNeedsTooNew(records, all, w, limit, missed);
    }
    if n != {} && q != {} && |n| + |q| > limit + 1 {
      TooNewCausesLoss(records, all, w, limit);
    }
  }

  // ---------- the vouchers a page lists ----------

  predicate Lists(page: Page, guid: string) {
    exists i :: 0 <= i < |page.vouchers| && page.vouchers[i].guid == guid
  }

  ghost function GuidsOn(page: Page): set<string> {
    set i | 0 <= i < |page.vouchers| :: page.vouchers[i].guid
  }

  ghost predicate HasQualifying(all: set<Row>, w: Window, guid: string) {
    exists r :: r in Qualifying(all, w) && r.guid == guid
  }

  /** A page lists exactly the vouchers of the records it kept. */
  lemma PageLists(records: seq<Row>, w: Window, limit: nat, guid: string)
    ensures Lists(BuildPage(records, w, limit), guid) <==> Occurs(Kept(records, w, limit), guid)
  {
    FirstPerGuidMeaning(Kept(records, w, limit));
  }

  /** With nothing newer than Until, a page that reports no more lists exactly the vouchers that qualify. */
  lemma LastPageListsAll(records: seq<Row>, all: set<Row>, w: Window, limit: nat)
    requires Limited(records, all, NewestFirst, limit + 1) && TooNew(all, w) == {}
    requires !HasMore(records, w, limit)
    ensures forall guid :: Lists(BuildPage(records, w, limit), guid) <==> HasQualifying(all, w, guid)
  {
    var kept := Kept(records, w, limit);
    PageIsExact(records, all, w, limit);
    UnlimitedIsAll(kept, Qualifying(all, w), NewestFirst, limit);
    forall guid ensures Lists(BuildPage(records, w, limit), guid) <==> HasQualifying(all, w, guid) {
      PageLists(records, w, limit, guid);
      assert forall r :: r in kept <==> r in Elems(kept);
    }
  }

  /** Without an Until bound that is every page that reports no more. */
  lemma LastPageWithoutUntil(records: seq<Row>, all: set<Row>, w: Window, limit: nat)
    requires Limited(records, all, NewestFirst, limit + 1) && w.until == None && !HasMore(records, w, limit)
    ensures GuidsOn(BuildPage(records, w, limit)) == set r | r in Qualifying(all, w) :: r.guid
  {
    LastPageListsAll(records, all, w, limit);
    forall guid ensures guid in GuidsOn(BuildPage(records, w, limit)) <==> HasQualifying(all, w, guid) {
      assert guid in GuidsOn(BuildPage(records, w, limit)) <==> Lists(BuildPage(records, w, limit), guid);
    }
  }

  /** Qualifying records of other vouchers that may be listed ahead of every qualifying record of this one. */
  ghost function NotOlder(all: set<Row>, w: Window, guid: string): set<Row> {
    set r | r in Qualifying(all, w) && r.guid != guid && AtLeastAsNew(all, w, r, guid)
  }

  ghost predicate AtLeastAsNew(all: set<Row>, w: Window, r: Row, guid: string) {
    forall q :: q in Qualifying(all, w) && q.guid == guid ==> NewestFirst(r, q)
  }

  /** Some legal answer to the query leaves the voucher out of a page that reports no more. */
  ghost predicate MaySilentlyMiss(all: set<Row>, w: Window, limit: nat, guid: string) {
    exists records: seq<Row> :: SilentlyMisses(records, all, w, limit, guid)
  }

  ghost predicate SilentlyMisses(records: seq<Row>, all: set<Row>, w: Window, limit: nat, guid: string) {
    && Limited(records, all, NewestFirst, limit + 1)
    && !HasMore(records, w, limit)
    && !Lists(BuildPage(records, w, limit), guid)
  }

  /** A page that misses a voucher was built from records too new or of other vouchers ahead of it. */
  lemma MissedVoucherIsBehind(records: seq<Row>, all: set<Row>, w: Window, limit: nat, guid: string)
    requires SilentlyMisses(records, all, w, limit, guid) && HasQualifying(all, w, guid)
    ensures TooNew(all, w) != {} && |TooNew(all, w)| + |NotOlder(all, w, guid)| > limit
  {
    var q :| q in Qualifying(all, w) && q.guid == guid;
    PageLists(records, w, limit, guid);
    FilterMembers(records, w);
    assert forall p :: p in Qualifying(all, w) && p.guid == guid ==> p !in records;
    MissedMeansRecent(records, all, w, limit, q);
    LossNeedsTooNew(records, all, w, limit, q);
    var ahead := TooNew(all, w) + NotOlder(all, w, guid);
    forall r | r in Elems(records) ensures r in ahead {
      assert r in records;
    }
    DistinctCount(records);
    SubsetCount(Elems(records), ahead);
    DisjointUnionCount(TooNew(all, w), NotOlder(all, w, guid));
  }

  /** Records too new, and those of other vouchers that may go first, come before everything else. */
  lemma AheadComesFirst(all: set<Row>, w: Window, guid: string, s: Row, r: Row)
    requires HasQualifying(all, w, guid) && r in all
    requires s in TooNew(all, w) + NotOlder(all, w, guid) && r !in TooNew(all, w) + NotOlder(all, w, guid)
    ensures NewestFirst(s, r)
  {
    if s in NotOlder(all, w, guid) && r in Qualifying(all, w) && r.guid != guid {
      var q :| q in Qualifying(all, w) && q.guid == guid && !NewestFirst(r, q);
      assert NewestFirst(s, q);
    }
  }

  /** The first answer holds a record too new, so the page cannot be full. */
  lemma NotAllFit(records: seq<Row>, all: set<Row>, w: Window, limit: nat)
    requires Limited(records, all, NewestFirst, limit + 1) && |records| == limit + 1 && TooNew(all, w) != {}
    ensures !HasMore(records, w, limit)
  {
    FilterIsIntersection(records, all, w, limit);
    var x :| x in TooNew(all, w);
    assert records[0] in records && records[0] in Elems(records);
    assert x !in records ==> NewestFirst(records[0], x);
    var y := if x in records then x else records[0];
    assert y in Elems(records) && y !in Qualifying(all, w);
    SubsetCount(Elems(Filter(records, w)), Elems(records) - {y});
  }

  lemma BehindMayBeMissed(all: set<Row>, w: Window, limit: nat, guid: string)
    requires HasQualifying(all, w, guid)
    requires TooNew(all, w) != {} && |TooNew(all, w)| + |NotOlder(all, w, guid)| > limit
    ensures MaySilentlyMiss(all, w, limit, guid)
  {
    var ahead := TooNew(all, w) + NotOlder(all, w, guid);
    DisjointUnionCount(TooNew(all, w), NotOlder(all, w, guid));
    var records := LimitedExists(ahead, NewestFirst, limit + 1);
    forall r, s | r in all && r !in ahead && s in ahead ensures NewestFirst(s, r) {
      AheadComesFirst(all, w, guid, s, r);
    }
    LimitedByInitial(records, ahead, all, NewestFirst, limit + 1);
    NotAllFit(records, all, w, limit);
    FilterMembers(records, w);
    forall r | r in Kept(records, w, limit) ensures r.guid != guid {
      assert r in Elems(records) && Within(w, r);
    }
    PageLists(records, w, limit, guid);
    assert SilentlyMisses(records, all, w, limit, guid);
  }

  /**
   * The exact condition for a voucher: a page that reports no more can leave it out, although it qualifies, if
   * and only if some record is too new, and such records together with qualifying ones of other vouchers, none of
   * them older than its own, fill the query.
   */
  lemma VoucherMissedIff(all: set<Row>, w: Window, limit: nat, guid: string)
    requires HasQualifying(all, w, guid)
    ensures MaySilentlyMiss(all, w, limit, guid)
      <==> TooNew(all, w) != {} && |TooNew(all, w)| + |NotOlder(all, w, guid)| > limit
  {
    if MaySilentlyMiss(all, w, limit, guid) {
      var records: seq<Row> :| SilentlyMisses(records, all, w, limit, guid);
      MissedVoucherIsBehind(records, all, w, limit, guid);
    }
    if TooNew(all, w) != {} && |TooNew(all, w)| + |NotOlder(all, w, guid)| > limit {
      BehindMayBeMissed(all, w, limit, guid);
    }
  }

  /** A hidden record need not hide a voucher: its other record is on the page. */
  lemma HiddenRecordExample(a: Row, b: Row, c: Row)
    requires a.createdAt == 10 && b.createdAt == 5 && c.createdAt == 4 && a.guid != b.guid && b.guid == c.guid
    ensures
      var w := Window(None, Some(9));
      && Limited([a, b], {a, b, c}, NewestFirst, 2)
      && !HasMore([a, b], w, 1) && Elems(Kept([a, b], w, 1)) != Qualifying({a, b, c}, w)
      && Lists(BuildPage([a, b], w, 1), c.guid) && !MaySilentlyMiss({a, b, c}, w, 1, c.guid)
  {
    var w, all := Window(None, Some(9)), {a, b, c};
    assert |all| == 3;
    assert [a, b][..1] == [a] && Filter([a], w) == [];
    assert Filter([a, b], w) == [b];
    assert c in Qualifying(all, w) && c !in Elems([b]);
    assert b in [b];
    PageLists([a, b], w, 1, c.guid);
    assert TooNew(all, w) == {a} && NotOlder(all, w, c.guid) == {};
    VoucherMissedIff(all, w, 1, c.guid);
  }

  /** Limit 1, Until 5, records created at 10, 9 and 1: every page is empty and reports no more. */
  lemma EmptyPageExample(records: seq<Row>, a: Row, b: Row, c: Row)
    requires a.createdAt == 10 && b.createdAt == 9 && c.createdAt == 1
    requires Limited(records, {a, b, c}, NewestFirst, 2)
    ensures
      var w := Window(None, Some(5));
      c in Qualifying({a, b, c}, w) && BuildPage(records, w, 1) == Page([], None, false, 0)
  {
    var all := {a, b, c};
    assert |all| == 3;
    DistinctCount(records);
    var missing :| missing in all && missing !in Elems(records);
    assert NewestFirst(c, missing) ==> missing == c;
    forall r | r in records ensures r != c && r in all {
      assert r in Elems(records);
    }
    NothingFits(records, Window(None, Some(5)));
  }

  lemma {:induction false} NothingFits(records: seq<Row>, w: Window)
    requires forall r :: r in records ==> !Within(w, r)
    ensures Filter(records, w) == []
  {
    if records != [] {
      assert records[|records| - 1] in records;
      NothingFits(records[..|records| - 1], w);
    }
  }

  lemma LossNeedsTooNew(records: seq<Row>, all: set<Row>, w: Window, limit: nat, missed: Row)
    requires Limited(records, all, NewestFirst, limit + 1) && !HasMore(records, w, limit)
    requires missed in Qualifying(all, w) && missed !in records
    ensures TooNew(all, w) != {} && |TooNew(all, w)| + |Qualifying(all, w)| > limit + 1
  {
    var q, n := Qualifying(all, w), TooNew(all, w);
    FilterIsIntersection(records, all, w, limit);
    MissedMeansRecent(records, all, w, limit, missed);
    DisjointUnionCount(n, q);
    assert Elems(Filter(records, w)) == Elems(records) - n;
    assert n == {} ==> Elems(records) - n == Elems(records);
    var bigger := Elems(records) + {missed};
    assert missed !in Elems(records);
    assert |bigger| == limit + 2;
    SubsetCount(bigger, n + q);
  }

  lemma TooNewCausesLoss(records: seq<Row>, all: set<Row>, w: Window, limit: nat)
    requires Limited(records, all, NewestFirst, limit + 1) && limit > 0
    requires TooNew(all, w) != {} && Qualifying(all, w) != {}
    requires |TooNew(all, w)| + |Qualifying(all, w)| > limit + 1
    ensures !HasMore(records, w, limit) && Elems(Filter(records, w)) != Qualifying(all, w)
  {
    var f, q, n, rs := Filter(records, w), Qualifying(all, w), TooNew(all, w), Elems(records);
    FilterIsIntersection(records, all, w, limit);
    DisjointUnionCount(n, q);
    assert n + q <= all;
    SubsetCount(n + q, all);
    assert |rs| == limit + 1;
    if x :| x in n && x !in rs {
      // Everything in the result is at least as new as x, so nothing in it qualifies.
      forall r | r in rs ensures r !in q {
        assert r in records && NewestFirst(r, x);
      }
      assert Elems(f) == {};
    } else {
      assert n <= rs && n !! Elems(f);
      DisjointUnionCount(n, Elems(f));
      SubsetCount(n + Elems(f), rs);
      assert |n| >= 1 by {
        var x :| x in n;
        SubsetCount({x}, n);
      }
    }
  }
}
