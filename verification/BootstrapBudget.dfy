/**
 The admission loops over a stage, proved against the order-free budget predicates, and what
 those predicates imply about each other.
 */
module BootstrapBudget {
  import opened Common
  import opened Ordering
  import opened ReadProtocol
  import opened BootstrapModel

  // ---------------------------------------------------------------- sums and iteration in key order

  lemma {:induction false} SumSkips(c: Codec, w: Weight, pages: map<U64, Bytes>, from_: nat, n: nat)
    requires from_ <= n && forall i | i in pages :: i < from_ || n <= i
    ensures SumBelow(c, w, pages, n) == SumBelow(c, w, pages, from_)
    decreases n
  {
    if from_ < n { SumSkips(c, w, pages, from_, n - 1); }
  }

  lemma {:induction false} SumOfSubmap(c: Codec, w: Weight, less: map<U64, Bytes>, more: map<U64, Bytes>, n: nat)
    requires forall i | i in less :: i in more && less[i] == more[i]
    ensures SumBelow(c, w, less, n) <= SumBelow(c, w, more, n)
  {
    if n > 0 { SumOfSubmap(c, w, less, more, n - 1); }
  }

  lemma {:induction false} SumOfLighter(c: Codec, light: Weight, heavy: Weight, pages: map<U64, Bytes>, n: nat)
    requires forall i | i in pages :: Weigh(c, light, i, pages[i]) <= Weigh(c, heavy, i, pages[i])
    ensures SumBelow(c, light, pages, n) <= SumBelow(c, heavy, pages, n)
  {
    if n > 0 { SumOfLighter(c, light, heavy, pages, n - 1); }
  }

  lemma {:induction false} SumAddsBelow(c: Codec, w: Weight, pages: map<U64, Bytes>, k: U64, raw: Bytes, n: nat)
    requires k !in pages
    ensures SumBelow(c, w, pages[k := raw], n)
         == SumBelow(c, w, pages, n) + (if k < n then Weigh(c, w, k, raw) else 0)
  {
    if n > 0 { SumAddsBelow(c, w, pages, k, raw, n - 1); }
  }

  lemma SumAdds(c: Codec, w: Weight, pages: map<U64, Bytes>, k: U64, raw: Bytes)
    requires k !in pages
    ensures Sum(c, w, pages[k := raw]) == Sum(c, w, pages) + Weigh(c, w, k, raw)
  {
    SumAddsBelow(c, w, pages, k, raw, Ceiling());
  }

  lemma SumOfNone(c: Codec, w: Weight)
    ensures Sum(c, w, map[]) == 0
  {
    SumSkips(c, w, map[], 0, Ceiling());
  }

  /** Counting page by page is the size of the map. */
  lemma {:induction false} PagesAreCounted(c: Codec, pages: map<U64, Bytes>)
    ensures Sum(c, Pages, pages) == |pages|
    decreases |pages|
  {
    if pages == map[] {
      SumOfNone(c, Pages);
    } else {
      assert pages.Keys != {};
      var k :| k in pages;
      var rest := pages - {k};
      assert rest.Keys == pages.Keys - {k};
      assert |rest| == |rest.Keys| && |pages| == |pages.Keys|;
      PagesAreCounted(c, rest);
      SumAdds(c, Pages, rest, k, pages[k]);
      assert rest[k := pages[k]] == pages;
    }
  }

  lemma {:induction false} NextIndex(pages: map<U64, Bytes>, n: nat, witness_: U64)
    requires witness_ in pages && n <= witness_
    ensures exists k :: k in pages && n <= k && forall j | j in pages && n <= j :: k <= j
    decreases witness_ - n
  {
    if n in pages { return; }
    NextIndex(pages, n + 1, witness_);
    var k :| k in pages && n + 1 <= k && forall j | j in pages && n + 1 <= j :: k <= j;
    assert k in pages && n <= k && forall j | j in pages && n <= j :: k <= j;
  }

  // ---------------------------------------------------------------- the record scan of one page

  /** `last` is the greatest id seen so far. */
  predicate Tracks(ids: set<RecordId>, last: Option<RecordId>) {
    && (last.None? <==> ids == {})
    && (last.Some? ==> last.value in ids)
    && (forall id | id in ids :: last.Some? && (id == last.value || Less(id, last.value)))
  }

  predicate Follows(last: Option<RecordId>, ids: seq<RecordId>) {
    last.None? || forall k | 0 <= k < |ids| :: Less(last.value, ids[k])
  }

  /** Accepts exactly a strictly ascending page above everything seen before it. */
  method ScanRecords(page: Page, seen: set<RecordId>, before: Option<RecordId>)
    returns (ok: bool, ids: set<RecordId>, last: Option<RecordId>)
    requires Tracks(seen, before)
    ensures ok <==> StrictlyAscending(RecordIds(page)) && Follows(before, RecordIds(page))
    ensures ok ==> Tracks(ids, last)
    ensures ok ==> forall id :: id in ids <==> id in seen || id in RecordIds(page)
  {
    ghost var all := RecordIds(page);
    ids, last := seen, before;
    var i := 0;
    while i < |page.records|
      invariant 0 <= i <= |page.records|
      invariant Tracks(ids, last)
      invariant forall id :: id in ids <==> id in seen || id in all[..i]
      invariant StrictlyAscending(all[..i]) && Follows(before, all[..i])
      invariant i == 0 ==> last == before
      invariant i > 0 ==> last == Some(all[i - 1])
    {
      var id := page.records[i].recordId;
      assert id == all[i];
      if id in ids || (last.Some? && !Less(last.value, id)) {
        NotAfter(all, i, before, last);
        return false, ids, last;
      }
      StillAscending(all, i, before, last);
      assert all[..i + 1] == all[..i] + [id];
      forall other | other in ids ensures Less(other, id) {
        if other != last.value { LessTransitive(other, last.value, id); }
      }
      ids, last := ids + {id}, Some(id);
      i := i + 1;
    }
    assert all[..i] == all;
    return true, ids, last;
  }

  /** A record not above the last one breaks the ascent, whether inside the page or before it. */
  lemma NotAfter(all: seq<RecordId>, i: nat, before: Option<RecordId>, last: Option<RecordId>)
    requires i < |all|
    requires i == 0 ==> last == before
    requires i > 0 ==> last == Some(all[i - 1])
    requires last.Some? && (all[i] == last.value || !Less(last.value, all[i]) || Less(all[i], last.value))
    ensures !(StrictlyAscending(all) && Follows(before, all))
  {
    if Less(all[i], last.value) { LessAsymmetric(all[i], last.value); }
    LessIrreflexive(all[i]);
    assert !Less(last.value, all[i]);
  }

  lemma StillAscending(all: seq<RecordId>, i: nat, before: Option<RecordId>, last: Option<RecordId>)
    requires i < |all|
    requires StrictlyAscending(all[..i]) && Follows(before, all[..i])
    requires i == 0 ==> last == before
    requires i > 0 ==> last == Some(all[i - 1])
    requires last.None? || Less(last.value, all[i])
    ensures StrictlyAscending(all[..i + 1]) && Follows(before, all[..i + 1])
  {
    if i > 0 {
      forall k | 0 <= k < i ensures Less(all[k], all[i]) {
        if k < i - 1 {
          assert Less(all[..i][k], all[..i][i - 1]);
          LessTransitive(all[k], all[i - 1], all[i]);
        }
      }
      if before.Some? {
        assert Less(before.value, all[..i][i - 1]);
        LessTransitive(before.value, all[i - 1], all[i]);
      }
    }
  }

  // ---------------------------------------------------------------- the budget loops

  function IdsOf(c: Codec, raw: Bytes): (ids: seq<RecordId>)
    ensures c.page(raw).Some? ==> ids == RecordIds(c.page(raw).value)
  {
    if c.page(raw).Some? then RecordIds(c.page(raw).value) else []
  }

  /** `ids` are exactly the record ids of the pages below `n`. */
  ghost predicate Seen(c: Codec, pages: map<U64, Bytes>, n: nat, ids: set<RecordId>) {
    && (forall i, id | i in pages && i < n && id in IdsOf(c, pages[i]) :: id in ids)
    && (forall id | id in ids :: exists i :: i in pages && i < n && id in IdsOf(c, pages[i]))
  }

  ghost predicate SoundBelow(c: Codec, m: Manifest, pages: map<U64, Bytes>, n: nat) {
    && (forall i | i in pages && i < n :: PageSound(c, m, i, pages[i]))
    && (forall i, j | i in pages && j in pages && i < j < n :: AllLess(IdsOf(c, pages[i]), IdsOf(c, pages[j])))
  }

  lemma SoundIsSoundBelow(c: Codec, m: Manifest, pages: map<U64, Bytes>, n: nat)
    ensures PagesSound(c, m, pages) ==> SoundBelow(c, m, pages, n)
    ensures SoundBelow(c, m, pages, n) && n > U64_MAX ==> PagesSound(c, m, pages)
  {
  }

  /** A page that passed the scan extends a sound set of lower pages. */
  lemma ScannedSound(
    c: Codec, m: Manifest, pages: map<U64, Bytes>, n: nat, k: U64, ids: set<RecordId>, last: Option<RecordId>)
    requires SoundBelow(c, m, pages, n) && k in pages && PageSound(c, m, k, pages[k])
    requires n <= k && forall j | j in pages && n <= j :: k <= j
    requires Seen(c, pages, n, ids) && Tracks(ids, last) && Follows(last, IdsOf(c, pages[k]))
    ensures SoundBelow(c, m, pages, k + 1)
  {
    forall i | i in pages && i < k
      ensures AllLess(IdsOf(c, pages[i]), IdsOf(c, pages[k]))
    {
      assert i < n;
      AllSeenLess(IdsOf(c, pages[i]), IdsOf(c, pages[k]), ids, last);
    }
  }

  lemma AllSeenLess(a: seq<RecordId>, b: seq<RecordId>, ids: set<RecordId>, last: Option<RecordId>)
    requires Tracks(ids, last) && Follows(last, b)
    requires forall id | id in a :: id in ids
    ensures AllLess(a, b)
  {
    forall x, y | 0 <= x < |a| && 0 <= y < |b| ensures Less(a[x], b[y]) {
      assert a[x] in ids;
      if a[x] != last.value { LessTransitive(a[x], last.value, b[y]); }
    }
  }

  /** In a sound set every page passes the scan after all lower pages. */
  lemma SoundScans(
    c: Codec, m: Manifest, pages: map<U64, Bytes>, n: nat, k: U64, ids: set<RecordId>, last: Option<RecordId>)
    requires SoundBelow(c, m, pages, k + 1) && k in pages && n <= k
    requires Seen(c, pages, n, ids) && Tracks(ids, last)
    ensures PageSound(c, m, k, pages[k]) && Follows(last, IdsOf(c, pages[k]))
  {
    if last.Some? {
      var i :| i in pages && i < n && last.value in IdsOf(c, pages[i]);
      assert AllLess(IdsOf(c, pages[i]), IdsOf(c, pages[k]));
    }
  }

  lemma SeenNext(
    c: Codec, pages: map<U64, Bytes>, n: nat, k: U64, ids: set<RecordId>, wider: set<RecordId>)
    requires Seen(c, pages, n, ids) && k in pages
    requires n <= k && forall j | j in pages && n <= j :: k <= j
    requires forall id :: id in wider <==> id in ids || id in IdsOf(c, pages[k])
    ensures Seen(c, pages, k + 1, wider)
  {
    forall id | id in wider ensures exists i :: i in pages && i < k + 1 && id in IdsOf(c, pages[i]) {
      if id in ids {
        var i :| i in pages && i < n && id in IdsOf(c, pages[i]);
      }
    }
  }

  /** One step of a running total: the next stored page, and nothing between. */
  lemma SumNext(c: Codec, w: Weight, pages: map<U64, Bytes>, n: nat, k: U64)
    requires k in pages && n <= k && forall j | j in pages && n <= j :: k <= j
    ensures SumBelow(c, w, pages, k + 1) == SumBelow(c, w, pages, n) + Weigh(c, w, k, pages[k])
  {
    SumSkips(c, w, pages, n, k);
  }

  /** One page, as the loop judges it: sound on its own and above everything scanned before. */
  method CheckPage(c: Codec, m: Manifest, index: U64, raw: Bytes, seen: set<RecordId>, before: Option<RecordId>)
    returns (ok: bool, ids: set<RecordId>, last: Option<RecordId>)
    requires Tracks(seen, before)
    ensures ok <==> PageSound(c, m, index, raw) && Follows(before, IdsOf(c, raw))
    ensures ok ==> Tracks(ids, last) && forall id :: id in ids <==> id in seen || id in IdsOf(c, raw)
  {
    var decoded := c.page(raw);
    if decoded.None? || !ValidPage(c, m, decoded.value) || decoded.value.index != index {
      return false, seen, before;
    }
    ok, ids, last := ScanRecords(decoded.value, seen, before);
    if ok && c.reservation(decoded.value).None? { ok := false; }
  }

  /** Admits a stage over a journal of size `b` exactly when the declarative budget does. */
  method CheckBudget(c: Codec, b: Budget, s: Stage) returns (r: Result<(), StoreError>)
    ensures r.Ok? <==> StageFits(c, b, s)
    ensures r.Err? ==> r.error == BudgetError(c, s)
    ensures r == Err(CorruptState) <==>
              if s.header.cancelled then s.pages != map[] else !PagesSound(c, s.manifest, s.pages)
    ensures r.Err? && r != Err(CorruptState) ==> r == Err(StateTooLarge)
  {
    if s.header.cancelled {
      if s.pages != map[] { return Err(CorruptState); }
      r := CheckInactiveBudget(b);
      return;
    }
    var ok, t := ScanPages(c, s.manifest, s.pages);
    if !ok { return Err(CorruptState); }
    var bytes := 2 * b.bytes + FINAL_OVERHEAD + |s.header.start| + |s.header.manifest| + t.reserved
                 + c.keyBytes(U64_MAX);
    var count := 2 * b.items + 4 + t.records + t.count;
    if bytes > MAX_AGGREGATE_STATE_BYTES || count > MAX_COMPONENT_ITEMS || t.records > s.manifest.recordCount {
      return Err(StateTooLarge);
    }
    return Ok(());
  }

  datatype Totals = Totals(reserved: nat, records: nat, count: nat)

  ghost function TotalsBelow(c: Codec, pages: map<U64, Bytes>, n: nat): Totals
  {
    Totals(SumBelow(c, Reserved, pages, n), SumBelow(c, Records, pages, n), SumBelow(c, Pages, pages, n))
  }

  function Charge(c: Codec, t: Totals, index: U64, raw: Bytes): Totals
  {
    Totals(t.reserved + Weigh(c, Reserved, index, raw), t.records + Weigh(c, Records, index, raw), t.count + 1)
  }

  /** The scan has accepted every page below `n`. */
  ghost predicate Scanned(
    c: Codec, m: Manifest, pages: map<U64, Bytes>, n: nat, ids: set<RecordId>, last: Option<RecordId>, t: Totals)
  {
    SoundBelow(c, m, pages, n) && Seen(c, pages, n, ids) && Tracks(ids, last) && t == TotalsBelow(c, pages, n)
  }

  lemma TotalsNext(c: Codec, pages: map<U64, Bytes>, n: nat, k: U64, t: Totals, after: nat, charged: Totals)
    requires k in pages && n <= k && forall j | j in pages && n <= j :: k <= j
    requires t == TotalsBelow(c, pages, n) && after == k + 1 && charged == Charge(c, t, k, pages[k])
    ensures charged == TotalsBelow(c, pages, after)
  {
    SumNext(c, Reserved, pages, n, k);
    SumNext(c, Records, pages, n, k);
    SumNext(c, Pages, pages, n, k);
  }

  lemma ScannedNext(
    c: Codec, m: Manifest, pages: map<U64, Bytes>, n: nat, k: U64, ids: set<RecordId>, last: Option<RecordId>,
    t: Totals, after: nat, wider: set<RecordId>, greatest: Option<RecordId>, charged: Totals)
    requires k in pages && n <= k && forall j | j in pages && n <= j :: k <= j
    requires after == k + 1 && charged == Charge(c, t, k, pages[k])
    requires Scanned(c, m, pages, n, ids, last, t)
    requires PageSound(c, m, k, pages[k]) && Follows(last, IdsOf(c, pages[k]))
    requires Tracks(wider, greatest) && forall id :: id in wider <==> id in ids || id in IdsOf(c, pages[k])
    ensures Scanned(c, m, pages, after, wider, greatest, charged)
  {
    ScannedSound(c, m, pages, n, k, ids, last);
    SeenNext(c, pages, n, k, ids, wider);
    TotalsNext(c, pages, n, k, t, after, charged);
  }

  lemma ScannedAll(
    c: Codec, m: Manifest, pages: map<U64, Bytes>, n: nat, ids: set<RecordId>, last: Option<RecordId>, t: Totals)
    requires Scanned(c, m, pages, n, ids, last, t)
    requires n <= Ceiling() && forall k | k in pages :: k < n
    ensures PagesSound(c, m, pages)
    ensures t == Totals(Sum(c, Reserved, pages), Sum(c, Records, pages), Sum(c, Pages, pages))
  {
    SumSkips(c, Reserved, pages, n, Ceiling());
    SumSkips(c, Records, pages, n, Ceiling());
    SumSkips(c, Pages, pages, n, Ceiling());
    assert SoundBelow(c, m, pages, Ceiling());
    SoundIsSoundBelow(c, m, pages, Ceiling());
  }

  lemma RefusedPage(
    c: Codec, m: Manifest, pages: map<U64, Bytes>, n: nat, k: U64, ids: set<RecordId>, last: Option<RecordId>,
    t: Totals)
    requires Scanned(c, m, pages, n, ids, last, t)
    requires k in pages && n <= k
    requires !(PageSound(c, m, k, pages[k]) && Follows(last, IdsOf(c, pages[k])))
    ensures !PagesSound(c, m, pages)
  {
    SoundIsSoundBelow(c, m, pages, k + 1);
    if SoundBelow(c, m, pages, k + 1) { SoundScans(c, m, pages, n, k, ids, last); }
  }

  lemma ScannedNone(c: Codec, m: Manifest, pages: map<U64, Bytes>)
    ensures Scanned(c, m, pages, 0, {}, None, Totals(0, 0, 0))
  {
  }

  /** The page loop: one pass in index order keeps every running total of the admission. */
  method ScanPages(c: Codec, m: Manifest, pages: map<U64, Bytes>) returns (ok: bool, t: Totals)
    ensures ok <==> PagesSound(c, m, pages)
    ensures ok ==> t == Totals(Sum(c, Reserved, pages), Sum(c, Records, pages), Sum(c, Pages, pages))
  {
    t := Totals(0, 0, 0);
    var ids: set<RecordId>, last: Option<RecordId> := {}, None;
    var next: nat := 0;
    ScannedNone(c, m, pages);
    while exists k :: k in pages && next <= k
      invariant next <= U64_MAX + 1
      invariant Scanned(c, m, pages, next, ids, last, t)
      decreases U64_MAX + 1 - next
    {
      ghost var some :| some in pages && next <= some;
      NextIndex(pages, next, some);
      var k :| k in pages && next <= k && forall j | j in pages && next <= j :: k <= j;
      var ids', last';
      ok, ids', last' := CheckPage(c, m, k, pages[k], ids, last);
      if !ok {
        RefusedPage(c, m, pages, next, k, ids, last, t);
        return;
      }
      var next': nat, t' := k + 1, Charge(c, t, k, pages[k]);
      ScannedNext(c, m, pages, next, k, ids, last, t, next', ids', last', t');
      ids, last, next, t := ids', last', next', t';
    }
    ok := true;
    ScannedAll(c, m, pages, next, ids, last, t);
  }

  method CheckInactiveBudget(b: Budget) returns (r: Result<(), StoreError>)
    ensures r.Ok? <==> InactiveFits(b)
    ensures r.Err? ==> r.error == StateTooLarge
  {
    if b.bytes + (MAX_SYNC_STATE_BYTES + 65_536) > MAX_AGGREGATE_STATE_BYTES
       || b.items + 4 > MAX_COMPONENT_ITEMS {
      return Err(StateTooLarge);
    }
    return Ok(());
  }

  method FinalBudget(c: Codec, current: Budget, next: Budget, s: Stage, receipt: Bytes)
    returns (r: Result<(), StoreError>)
    ensures r.Ok? <==> FinalFits(c, current, next, s, receipt)
    ensures r.Err? ==> r.error == StateTooLarge
  {
    var header := |s.header.start| + |s.header.manifest| + |receipt|;
    if header > MAX_SYNC_STATE_BYTES { return Err(StateTooLarge); }
    var base := current.bytes + next.bytes + FINAL_OVERHEAD + header;
    var bytes, count := base, current.items + next.items + 4;
    var from_: nat := 0;
    while exists k :: k in s.pages && from_ <= k
      invariant from_ <= U64_MAX + 1
      invariant bytes == base + SumBelow(c, Payload, s.pages, from_) + SumBelow(c, Framing, s.pages, from_)
      invariant count == current.items + next.items + 4 + SumBelow(c, Pages, s.pages, from_)
      decreases U64_MAX + 1 - from_
    {
      ghost var some :| some in s.pages && from_ <= some;
      NextIndex(s.pages, from_, some);
      var k :| k in s.pages && from_ <= k && forall j | j in s.pages && from_ <= j :: k <= j;
      SumNext(c, Payload, s.pages, from_, k);
      SumNext(c, Framing, s.pages, from_, k);
      SumNext(c, Pages, s.pages, from_, k);
      bytes := bytes + |s.pages[k]| + (c.keyBytes(k) * 2 + 128);
      count := count + 1;
      from_ := k + 1;
    }
    SumSkips(c, Payload, s.pages, from_, Ceiling());
    SumSkips(c, Framing, s.pages, from_, Ceiling());
    SumSkips(c, Pages, s.pages, from_, Ceiling());
    if bytes > MAX_AGGREGATE_STATE_BYTES || count > MAX_COMPONENT_ITEMS { return Err(StateTooLarge); }
    return Ok(());
  }

  // ---------------------------------------------------------------- how the budgets imply each other

  lemma SubmapSound(c: Codec, m: Manifest, less: map<U64, Bytes>, more: map<U64, Bytes>)
    requires PagesSound(c, m, more)
    requires forall k | k in less :: k in more && less[k] == more[k]
    ensures PagesSound(c, m, less)
  {
    assert forall i | i in less :: PageSound(c, m, i, less[i]);
  }

  /** Admission survives dropping pages. */
  lemma FewerPagesFit(c: Codec, b: Budget, less: Stage, more: Stage)
    requires ActiveFits(c, b, more)
    requires |less.header.start| == |more.header.start| && |less.header.manifest| == |more.header.manifest|
    requires less.manifest == more.manifest
    requires forall k | k in less.pages :: k in more.pages && less.pages[k] == more.pages[k]
    ensures ActiveFits(c, b, less)
  {
    SubmapSound(c, more.manifest, less.pages, more.pages);
    SumOfSubmap(c, Reserved, less.pages, more.pages, Ceiling());
    SumOfSubmap(c, Records, less.pages, more.pages, Ceiling());
    SumOfSubmap(c, Pages, less.pages, more.pages, Ceiling());
  }

  /** Whatever an active stage reserved covers the closed marker that replaces it. */
  lemma ActiveCoversClosedMarker(c: Codec, b: Budget, s: Stage)
    requires ActiveFits(c, b, s)
    ensures InactiveFits(b)
  {
  }

  lemma FinalCoversClosedMarker(c: Codec, current: Budget, next: Budget, s: Stage, receipt: Bytes)
    requires FinalFits(c, current, next, s, receipt)
    ensures InactiveFits(next)
  {
  }
}
