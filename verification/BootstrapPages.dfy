/** Pages may arrive in any order and any number of times: the stage they leave is the same. */
module BootstrapPages {
  import opened Common
  import opened FenceText
  import opened BootstrapModel
  import opened BootstrapBudget
  import opened BootstrapHistory

  /** An open stage, with no barrier, that this handle and context may add pages to. */
  ghost predicate Open(c: Codec, r: Record, expected: Context, incarnation: U64) {
    && Inv(c, r) && r.header.Some? && r.barrier.None?
    && !r.header.value.cancelled && r.header.value.incarnation == incarnation
    && StageOf(c, r).manifest.context == expected
  }

  /** The download a manifest announces: pages keyed by the index they declare. */
  ghost predicate KeyedByIndex(c: Codec, full: map<U64, Bytes>) {
    forall i | i in full && c.page(full[i]).Some? :: c.page(full[i]).value.index == i
  }

  ghost predicate Submap(less: map<U64, Bytes>, more: map<U64, Bytes>) {
    forall i | i in less :: i in more && less[i] == more[i]
  }

  ghost predicate Arrival(full: map<U64, Bytes>, order: seq<U64>) {
    forall n | 0 <= n < |order| :: order[n] in full
  }

  /** Feed `order` to a step that may refuse; nothing is left once it does. */
  ghost function Feed(step: (Record, U64) -> Option<Record>, r: Record, order: seq<U64>, n: nat): Option<Record>
    requires n <= |order|
  {
    if n == 0 then Some(r)
    else
      var before := Feed(step, r, order, n - 1);
      if before.None? then None else step(before.value, order[n - 1])
  }

  lemma {:induction false} FeedKeeps(
    step: (Record, U64) -> Option<Record>, r: Record, order: seq<U64>, n: nat, holds: (Record, nat) -> bool)
    requires n <= |order| && holds(r, 0)
    requires forall a, k: nat | k < |order| && holds(a, k) && step(a, order[k]).Some? ::
               holds(step(a, order[k]).value, k + 1)
    ensures Feed(step, r, order, n).Some? ==> holds(Feed(step, r, order, n).value, n)
    ensures (forall a, k: nat | k < |order| && holds(a, k) :: step(a, order[k]).Some?)
            ==> Feed(step, r, order, n).Some?
  {
    if n > 0 {
      FeedKeeps(step, r, order, n - 1, holds);
      var before := Feed(step, r, order, n - 1);
      if before.Some? { assert holds(before.value, n - 1); }
    }
  }

  ghost function PageStep(c: Codec, full: map<U64, Bytes>, expected: Context, incarnation: U64)
    : (Record, U64) -> Option<Record>
  {
    (a: Record, i: U64) => if i in full then Commit(c, a, PageOp(full[i], expected, incarnation)) else None
  }

  /** The record after every arrival of this order, or nothing if a page is refused. */
  ghost function Arrive(
    c: Codec, r: Record, full: map<U64, Bytes>, order: seq<U64>, expected: Context, incarnation: U64)
    : Option<Record>
  {
    Feed(PageStep(c, full, expected, incarnation), r, order, |order|)
  }

  ghost function Commit(c: Codec, r: Record, op: Op): Option<Record>
  {
    if Decide(c, r, op).Ok? then Some(Step(c, r, op)) else None
  }

  /** The full set is admissible over the fixed journal. */
  ghost predicate Admissible(c: Codec, r: Record, full: map<U64, Bytes>)
    requires r.header.Some? && c.manifest(r.header.value.manifest).Some?
  {
    ActiveFits(c, c.budget(r.state), StageOf(c, r).(pages := full))
  }

  /** `a` is `r` with more of the download, its fence one step further for every page gained. */
  ghost predicate Gained(c: Codec, r: Record, a: Record, full: map<U64, Bytes>) {
    && Inv(c, a) && r.fence.Some? && a.fence.Some?
    && a == r.(pages := a.pages, fence := a.fence)
    && Submap(r.pages, a.pages) && Submap(a.pages, full)
    && a.fence.value.active == r.fence.value.active
    && a.fence.value.counter - r.fence.value.counter == |a.pages| - |r.pages|
  }

  /** What a page operation of the download does to a partly downloaded open stage. */
  lemma PageDecision(c: Codec, a: Record, i: U64, raw: Bytes, expected: Context, incarnation: U64)
    requires CodecOk(c) && Open(c, a, expected, incarnation)
    requires c.page(raw).Some? ==> c.page(raw).value.index == i
    requires i in a.pages ==> a.pages[i] == raw
    ensures var op := PageOp(raw, expected, incarnation);
            var s := StageOf(c, a);
            && (Commit(c, a, op).Some? <==>
                  && c.page(raw).Some? && c.reservation(c.page(raw).value).Some?
                  && ValidPage(c, s.manifest, c.page(raw).value)
                  && (i !in a.pages ==>
                        ActiveFits(c, c.budget(a.state), s.(pages := a.pages[i := raw]))
                        && a.fence.value.counter < U64_MAX))
            && (Commit(c, a, op).Some? ==>
                  Commit(c, a, op).value
                  == if i in a.pages then a
                     else a.(pages := a.pages[i := raw], fence := Some(Fence(a.fence.value.counter + 1, true))))
  {
    InspectionSucceeds(c, a);
  }

  lemma SubmapSize(c: Codec, less: map<U64, Bytes>, more: map<U64, Bytes>)
    requires Submap(less, more)
    ensures |less| <= |more|
  {
    PagesAreCounted(c, less);
    PagesAreCounted(c, more);
    SumOfSubmap(c, Pages, less, more, Ceiling());
  }

  lemma GainedIsOpen(c: Codec, r: Record, a: Record, full: map<U64, Bytes>, expected: Context, incarnation: U64)
    requires Open(c, r, expected, incarnation) && Gained(c, r, a, full)
    ensures Open(c, a, expected, incarnation)
  {
  }

  lemma AcceptedPageGains(
    c: Codec, r: Record, a: Record, full: map<U64, Bytes>, i: U64, expected: Context, incarnation: U64)
    requires CodecOk(c) && Open(c, r, expected, incarnation) && Gained(c, r, a, full)
    requires expected.partitionId == r.partitionId && expected.clientId == r.clientId
    requires KeyedByIndex(c, full) && i in full
    requires Commit(c, a, PageOp(full[i], expected, incarnation)).Some?
    ensures var b := Commit(c, a, PageOp(full[i], expected, incarnation)).value;
            Gained(c, r, b, full) && i in b.pages && Submap(a.pages, b.pages)
  {
    GainedIsOpen(c, r, a, full, expected, incarnation);
    PageDecision(c, a, i, full[i], expected, incarnation);
    StepKeeps(c, a, PageOp(full[i], expected, incarnation));
    GrownGains(c, r, a, full, i, Commit(c, a, PageOp(full[i], expected, incarnation)).value);
  }

  lemma GrownGains(c: Codec, r: Record, a: Record, full: map<U64, Bytes>, i: U64, b: Record)
    requires Gained(c, r, a, full) && i in full && Inv(c, b) && r.fence.value.active
    requires if i in a.pages then b == a
             else a.fence.value.counter < U64_MAX
                  && b == a.(pages := a.pages[i := full[i]], fence := Some(Fence(a.fence.value.counter + 1, true)))
    ensures Gained(c, r, b, full) && i in b.pages && Submap(a.pages, b.pages)
  {
  }

  /** An admissible download is never refused part-way. */
  lemma AdmissiblePageAccepted(
    c: Codec, r: Record, a: Record, full: map<U64, Bytes>, fresh_: nat, i: U64, expected: Context, incarnation: U64)
    requires CodecOk(c) && Open(c, r, expected, incarnation) && Gained(c, r, a, full)
    requires i in full && Admissible(c, r, full)
    requires |full| == |r.pages| + fresh_ && r.fence.value.counter + fresh_ <= U64_MAX
    ensures Commit(c, a, PageOp(full[i], expected, incarnation)).Some?
  {
    GainedIsOpen(c, r, a, full, expected, incarnation);
    var s := StageOf(c, a);
    assert PageSound(c, s.manifest, i, full[i]);
    PageDecision(c, a, i, full[i], expected, incarnation);
    if i !in a.pages {
      var wider := a.pages[i := full[i]];
      FewerPagesFit(c, c.budget(a.state), s.(pages := wider), s.(pages := full));
      SubmapSize(c, wider, full);
    }
  }

  ghost predicate Download(
    c: Codec, r: Record, full: map<U64, Bytes>, order: seq<U64>, expected: Context, incarnation: U64)
  {
    && CodecOk(c) && Open(c, r, expected, incarnation)
    && expected.partitionId == r.partitionId && expected.clientId == r.clientId
    && KeyedByIndex(c, full) && Submap(r.pages, full) && Arrival(full, order)
  }

  lemma GainedNothing(c: Codec, r: Record, full: map<U64, Bytes>)
    requires Inv(c, r) && r.fence.Some? && Submap(r.pages, full)
    ensures Gained(c, r, r, full)
  {
  }

  lemma ArrivalStep(
    c: Codec, r: Record, full: map<U64, Bytes>, order: seq<U64>, expected: Context, incarnation: U64, n: nat,
    a: Record, b: Record)
    requires Download(c, r, full, order, expected, incarnation) && n < |order|
    requires Gained(c, r, a, full)
    requires Commit(c, a, PageOp(full[order[n]], expected, incarnation)) == Some(b)
    ensures Gained(c, r, b, full) && order[n] in b.pages && Submap(a.pages, b.pages)
  {
    AcceptedPageGains(c, r, a, full, order[n], expected, incarnation);
  }

  /** After `n` accepted arrivals the stage has gained pages, among them every one that arrived. */
  ghost predicate HoldsArrived(c: Codec, r: Record, full: map<U64, Bytes>, order: seq<U64>, n: nat, a: Record) {
    Gained(c, r, a, full) && HoldsFirst(order, n, a.pages)
  }

  ghost predicate HoldsFirst(order: seq<U64>, n: nat, pages: map<U64, Bytes>) {
    n <= |order| && forall k | 0 <= k < n :: order[k] in pages
  }

  lemma HoldsNext(order: seq<U64>, n: nat, less: map<U64, Bytes>, more: map<U64, Bytes>)
    requires HoldsFirst(order, n, less) && Submap(less, more) && n < |order| && order[n] in more
    ensures HoldsFirst(order, n + 1, more)
  {
  }

  lemma ArrivalsGain(
    c: Codec, r: Record, full: map<U64, Bytes>, order: seq<U64>, expected: Context, incarnation: U64)
    requires Download(c, r, full, order, expected, incarnation)
    ensures var last := Arrive(c, r, full, order, expected, incarnation);
            last.Some? ==> HoldsArrived(c, r, full, order, |order|, last.value)
  {
    var step := PageStep(c, full, expected, incarnation);
    var holds := (a: Record, k: nat) => HoldsArrived(c, r, full, order, k, a);
    GainedNothing(c, r, full);
    forall a, k: nat | k < |order| && holds(a, k) && step(a, order[k]).Some?
      ensures holds(step(a, order[k]).value, k + 1)
    {
      var b := step(a, order[k]).value;
      ArrivalStep(c, r, full, order, expected, incarnation, k, a, b);
      HoldsNext(order, k, a.pages, b.pages);
    }
    FeedKeeps(step, r, order, |order|, holds);
  }

  lemma AdmissibleArrives(
    c: Codec, r: Record, full: map<U64, Bytes>, order: seq<U64>, fresh_: nat, expected: Context, incarnation: U64)
    requires Download(c, r, full, order, expected, incarnation)
    requires Admissible(c, r, full)
    requires |full| == |r.pages| + fresh_ && r.fence.value.counter + fresh_ <= U64_MAX
    ensures Arrive(c, r, full, order, expected, incarnation).Some?
  {
    var step := PageStep(c, full, expected, incarnation);
    var holds := (a: Record, k: nat) => Gained(c, r, a, full);
    GainedNothing(c, r, full);
    forall a, k: nat | k < |order| && holds(a, k)
      ensures step(a, order[k]).Some? && holds(step(a, order[k]).value, k + 1)
    {
      AdmissiblePageAccepted(c, r, a, full, fresh_, order[k], expected, incarnation);
      ArrivalStep(c, r, full, order, expected, incarnation, k, a, step(a, order[k]).value);
    }
    FeedKeeps(step, r, order, |order|, holds);
  }

  /** Everything the order covers has arrived, and nothing else. */
  lemma ArrivedInFull(
    c: Codec, r: Record, full: map<U64, Bytes>, order: seq<U64>, fresh_: nat, expected: Context, incarnation: U64,
    last: Record)
    requires Gained(c, r, last, full) && r.fence.value.active
    requires forall i | i in full :: i in last.pages
    requires |full| == |r.pages| + fresh_
    requires r.header.Some? && !r.header.value.cancelled && c.manifest(r.header.value.manifest).Some?
    ensures r.fence.value.counter + fresh_ <= U64_MAX
    ensures last == r.(pages := full, fence := Some(Fence(r.fence.value.counter + fresh_, true)))
    ensures Admissible(c, r, full)
  {
    assert last.pages == full;
    assert StageOf(c, last) == StageOf(c, r).(pages := full);
  }

  /**
   Take any arrival sequence that covers what is missing of a download, in any order and with any
   repeats. Every page of it is accepted if and only if the whole download is admissible and the
   fence has room to rotate once per new page, and then the stage holds exactly the download and the
   fence has advanced by exactly that.
   */
  lemma ArrivalOrderDoesNotMatter(
    c: Codec, r: Record, full: map<U64, Bytes>, order: seq<U64>, fresh_: nat, expected: Context, incarnation: U64)
    requires Download(c, r, full, order, expected, incarnation)
    requires forall i | i in full :: i in r.pages || i in order
    requires |full| == |r.pages| + fresh_
    ensures var last := Arrive(c, r, full, order, expected, incarnation);
            && (last.Some? <==> Admissible(c, r, full) && r.fence.value.counter + fresh_ <= U64_MAX)
            && (last.Some? ==>
                  last.value == r.(pages := full, fence := Some(Fence(r.fence.value.counter + fresh_, true))))
  {
    if Admissible(c, r, full) && r.fence.value.counter + fresh_ <= U64_MAX {
      AdmissibleArrives(c, r, full, order, fresh_, expected, incarnation);
    }
    var last := Arrive(c, r, full, order, expected, incarnation);
    if last.Some? {
      ArrivalsGain(c, r, full, order, expected, incarnation);
      ArrivedInFull(c, r, full, order, fresh_, expected, incarnation, last.value);
    }
  }
}
