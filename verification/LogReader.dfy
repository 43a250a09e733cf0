/**
  The read side of a topic log, shared by the in-memory store and the SQL store.

  A topic log is what has been accepted, in order, and the removal watermark: the highest position
  ever removed. `LogView` is one snapshot of the two; what a reader can still be served is derived.
  A reader drains the log page by page with an exclusive cursor while the store keeps accepting and
  removing frames between its pages.
 */
module LogReader {
  import opened Wrappers

  datatype LogView = LogView(accepted: seq<nat>, removed: Option<nat>)

  /** What one `fetchTopic` answers: the positions served and whether frames were lost. */
  datatype PageResult = PageResult(messages: seq<nat>, gap: bool)

  /** One page request: the snapshot it is served from and its limit, if any. */
  datatype PageRequest = PageRequest(view: LogView, limit: Option<nat>)

  predicate After(x: nat, cursor: Option<nat>) {
    cursor.None? || x > cursor.value
  }

  predicate Increasing(s: seq<nat>) {
    forall i, j :: 0 <= i < j < |s| ==> s[i] < s[j]
  }

  /** The elements of `s` after an exclusive cursor, in order. */
  function Above(s: seq<nat>, cursor: Option<nat>): seq<nat> {
    if s == [] then []
    else if After(s[0], cursor) then [s[0]] + Above(s[1..], cursor)
    else Above(s[1..], cursor)
  }

  /** The elements of `s` after the cursor and at or before `last`, in order. */
  function Between(s: seq<nat>, cursor: Option<nat>, last: Option<nat>): seq<nat> {
    if s == [] then []
    else if After(s[0], cursor) && !After(s[0], last) then [s[0]] + Between(s[1..], cursor, last)
    else Between(s[1..], cursor, last)
  }

  function Retained(v: LogView): seq<nat> {
    Above(v.accepted, v.removed)
  }

  ghost predicate Valid(v: LogView) {
    && Increasing(v.accepted)
    && (v.removed.Some? ==> v.removed.value in v.accepted)
  }

  /** Positions only ever rise: accepted frames are appended, the watermark never moves back. */
  ghost predicate Grows(v: LogView, w: LogView) {
    && v.accepted <= w.accepted
    && (v.removed.Some? ==> w.removed.Some? && v.removed.value <= w.removed.value)
  }

  function Gap(v: LogView, cursor: Option<nat>): bool {
    v.removed.Some? && After(v.removed.value, cursor)
  }

  function Take(s: seq<nat>, limit: Option<nat>): seq<nat> {
    if limit.None? || |s| <= limit.value then s else s[..limit.value]
  }

  /** `fetchTopic`: the retained frames after the cursor, cut to the limit, and the gap flag. */
  function Page(v: LogView, cursor: Option<nat>, limit: Option<nat>): PageResult {
    PageResult(Take(Above(Retained(v), cursor), limit), Gap(v, cursor))
  }

  /** Where a page leaves the reader's cursor. */
  function Advance(cursor: Option<nat>, messages: seq<nat>): Option<nat> {
    if messages == [] then cursor else Some(messages[|messages| - 1])
  }

  datatype Drained = Drained(collected: seq<nat>, cursor: Option<nat>, sawGap: bool)

  /** A reader that takes the pages in turn, moving its cursor to the last frame it was handed. */
  function Drain(pages: seq<PageRequest>, cursor: Option<nat>): (d: Drained)
    decreases |pages|
  {
    if pages == [] then Drained([], cursor, false)
    else
      var page := Page(pages[0].view, cursor, pages[0].limit);
      var rest := Drain(pages[1..], Advance(cursor, page.messages));
      Drained(page.messages + rest.collected, rest.cursor, page.gap || rest.sawGap)
  }

  /** The snapshots a reader is served from, in the order the store passed through them. */
  ghost predicate Timeline(pages: seq<PageRequest>) {
    && (forall i :: 0 <= i < |pages| ==> Valid(pages[i].view))
    && (forall i :: 0 <= i < |pages| - 1 ==> Grows(pages[i].view, pages[i + 1].view))
  }

  // ------------------------------------------------------------------------------------------
  // An increasing sequence is cut by a cursor into a prefix and a suffix.

  /** How many leading elements are at or before the cursor. */
  function Rank(s: seq<nat>, cursor: Option<nat>): (k: nat)
    ensures k <= |s|
  {
    if s == [] || After(s[0], cursor) then 0 else 1 + Rank(s[1..], cursor)
  }

  lemma {:induction false} AboveIsSuffix(s: seq<nat>, cursor: Option<nat>)
    requires Increasing(s)
    ensures Above(s, cursor) == s[Rank(s, cursor)..]
    ensures forall i :: 0 <= i < |s| ==> (After(s[i], cursor) <==> Rank(s, cursor) <= i)
  {
    if s != [] {
      AboveIsSuffix(s[1..], cursor);
      assert forall i :: 0 < i < |s| ==> s[i] == s[1..][i - 1];
      if After(s[0], cursor) {
        assert Rank(s[1..], cursor) == 0 by {
          if |s| > 1 { assert s[1..][0] == s[1]; }
        }
      }
    }
  }

  /** The rank of a cursor is where a scan for the first later position stops. */
  lemma ScanStopsAtRank(s: seq<nat>, cursor: Option<nat>, start: nat)
    requires Increasing(s) && start <= |s|
    requires forall k :: 0 <= k < start ==> !After(s[k], cursor)
    requires start < |s| ==> After(s[start], cursor)
    ensures Above(s, cursor) == s[start..]
  {
    AboveIsSuffix(s, cursor);
    var rank := Rank(s, cursor);
    assert rank < start ==> After(s[rank], cursor);
  }

  lemma {:induction false} BetweenIsSlice(s: seq<nat>, cursor: Option<nat>, last: Option<nat>)
    requires Increasing(s)
    requires last.Some? && Rank(s, cursor) <= Rank(s, last)
    ensures Between(s, cursor, last) == s[Rank(s, cursor)..Rank(s, last)]
  {
    if s != [] {
      if Rank(s, last) == 0 {
        NothingBetween(s, cursor, last);
      } else {
        if Rank(s, cursor) == 0 && |s| > 1 { assert s[1..][0] == s[1]; }
        BetweenIsSlice(s[1..], cursor, last);
      }
    }
  }

  lemma {:induction false} NothingBetween(s: seq<nat>, cursor: Option<nat>, last: Option<nat>)
    requires Increasing(s)
    requires s == [] || After(s[0], last)
    ensures Between(s, cursor, last) == []
  {
    if |s| > 1 {
      assert s[1..][0] == s[1];
    }
    if s != [] {
      NothingBetween(s[1..], cursor, last);
    }
  }

  lemma {:induction false} BetweenSplits(s: seq<nat>, a: Option<nat>, b: Option<nat>, c: Option<nat>)
    requires Increasing(s)
    requires b.Some? && c.Some? && Rank(s, a) <= Rank(s, b) <= Rank(s, c)
    ensures Between(s, a, c) == Between(s, a, b) + Between(s, b, c)
  {
    BetweenIsSlice(s, a, b);
    BetweenIsSlice(s, b, c);
    BetweenIsSlice(s, a, c);
  }

  lemma RankOfMember(s: seq<nat>, i: nat)
    requires Increasing(s) && i < |s|
    ensures Rank(s, Some(s[i])) == i + 1
  {
    AboveIsSuffix(s, Some(s[i]));
    assert !After(s[i], Some(s[i]));
    if i + 1 < |s| { assert After(s[i + 1], Some(s[i])); }
  }

  lemma RankMonotone(s: seq<nat>, a: Option<nat>, b: Option<nat>)
    requires Increasing(s)
    requires a.None? || (b.Some? && a.value <= b.value)
    ensures Rank(s, a) <= Rank(s, b)
  {
    AboveIsSuffix(s, a);
    AboveIsSuffix(s, b);
    if Rank(s, b) < Rank(s, a) {
      assert After(s[Rank(s, b)], a);
    }
  }

  // ------------------------------------------------------------------------------------------
  // One page.

  /** Filtering what is retained by a cursor is filtering what was accepted by the later bound. */
  lemma {:induction false} AboveTwice(s: seq<nat>, a: Option<nat>, b: Option<nat>)
    ensures Above(Above(s, a), b) ==
            Above(s, if a.Some? && After(a.value, b) then a else b)
  {
    if s != [] {
      AboveTwice(s[1..], a, b);
      if After(s[0], a) {
        assert ([s[0]] + Above(s[1..], a))[1..] == Above(s[1..], a);
      }
    }
  }

  lemma {:induction false} AboveMembers(s: seq<nat>, cursor: Option<nat>)
    ensures forall x :: x in Above(s, cursor) <==> x in s && After(x, cursor)
  {
    if s != [] {
      AboveMembers(s[1..], cursor);
      assert s == [s[0]] + s[1..];
    }
  }

  /** The gap flag says exactly that a removed log frame lies after the cursor. */
  lemma GapIsLossAfterCursor(v: LogView, cursor: Option<nat>, limit: Option<nat>)
    requires Valid(v)
    ensures Page(v, cursor, limit).gap
        <==> exists x :: x in v.accepted && x !in Retained(v) && After(x, cursor)
  {
    AboveMembers(v.accepted, v.removed);
    if Gap(v, cursor) {
      var w := v.removed.value;
      assert w in v.accepted && w !in Retained(v) && After(w, cursor);
    }
  }

  /** With no gap, what is left after the cursor is the tail of everything accepted. */
  lemma UngappedTail(v: LogView, cursor: Option<nat>)
    requires Valid(v) && !Gap(v, cursor)
    ensures Above(Retained(v), cursor) == v.accepted[Rank(v.accepted, cursor)..]
  {
    AboveTwice(v.accepted, v.removed, cursor);
    AboveIsSuffix(v.accepted, cursor);
  }

  /** A page without a gap hands over exactly the accepted frames between its two cursors. */
  lemma PageIsContiguous(v: LogView, cursor: Option<nat>, limit: Option<nat>)
    requires Valid(v) && !Gap(v, cursor)
    ensures var page := Page(v, cursor, limit).messages;
            var next := Advance(cursor, page);
            && Rank(v.accepted, cursor) <= Rank(v.accepted, next)
            && page == v.accepted[Rank(v.accepted, cursor)..Rank(v.accepted, next)]
            && (page != [] ==> next.Some? && next.value in v.accepted)
  {
    var s, k := v.accepted, Rank(v.accepted, cursor);
    UngappedTail(v, cursor);
    var page := Page(v, cursor, limit).messages;
    assert page == Take(s[k..], limit);
    var n := |page|;
    assert page == s[k..k + n];
    if n > 0 {
      assert page[n - 1] == s[k + n - 1];
      RankOfMember(s, k + n - 1);
    }
  }

  /** A page that did not fill its limit, without a gap, leaves nothing accepted behind it. */
  lemma ShortPageIsCaughtUp(v: LogView, cursor: Option<nat>, limit: Option<nat>)
    requires Valid(v) && !Gap(v, cursor)
    requires limit.None? || |Page(v, cursor, limit).messages| < limit.value
    ensures Rank(v.accepted, Advance(cursor, Page(v, cursor, limit).messages)) == |v.accepted|
    ensures forall x :: x in v.accepted ==> !After(x, Advance(cursor, Page(v, cursor, limit).messages))
  {
    UngappedTail(v, cursor);
    PageIsContiguous(v, cursor, limit);
    var next := Advance(cursor, Page(v, cursor, limit).messages);
    AboveIsSuffix(v.accepted, next);
    forall x | x in v.accepted ensures !After(x, next) {
      var i :| 0 <= i < |v.accepted| && v.accepted[i] == x;
    }
  }

  // ------------------------------------------------------------------------------------------
  // The whole drain.

  lemma {:induction false} TimelineGrows(pages: seq<PageRequest>, i: nat)
    requires Timeline(pages) && i < |pages|
    ensures pages[i].view.accepted <= pages[|pages| - 1].view.accepted
    decreases |pages| - i
  {
    if i + 1 < |pages| {
      TimelineGrows(pages, i + 1);
      assert Grows(pages[i].view, pages[i + 1].view);
    }
  }

  /** Frames accepted later do not change how an earlier, served stretch of the log reads. */
  lemma ServedStretchIsStable(v: LogView, w: LogView, cursor: Option<nat>, next: Option<nat>)
    requires Valid(v) && Increasing(w.accepted) && v.accepted <= w.accepted
    requires next.Some? && next.value in v.accepted
    requires Rank(v.accepted, cursor) <= Rank(v.accepted, next)
    ensures Rank(w.accepted, next) == Rank(v.accepted, next)
    ensures cursor.None? || cursor.value <= next.value ==> Rank(w.accepted, cursor) == Rank(v.accepted, cursor)
  {
    var i :| 0 <= i < |v.accepted| && v.accepted[i] == next.value;
    assert w.accepted[i] == next.value;
    RankOfMember(v.accepted, i);
    RankOfMember(w.accepted, i);
    if cursor.None? || cursor.value <= next.value {
      AboveIsSuffix(v.accepted, cursor);
      AboveIsSuffix(w.accepted, cursor);
      var k := Rank(w.accepted, cursor);
      RankMonotone(w.accepted, cursor, next);
      assert k <= i + 1;
      if k <= i {
        assert After(w.accepted[k], cursor);
        assert w.accepted[k] == v.accepted[k];
      }
      if 0 < k {
        assert !After(w.accepted[k - 1], cursor);
        assert w.accepted[k - 1] == v.accepted[k - 1];
      }
    }
  }

  lemma PageAdvances(v: LogView, cursor: Option<nat>, limit: Option<nat>)
    requires Valid(v)
    ensures var page := Page(v, cursor, limit).messages;
            var next := Advance(cursor, page);
            cursor.Some? ==> next.Some? && cursor.value <= next.value
  {
    var page := Page(v, cursor, limit).messages;
    if page != [] {
      AboveMembers(Retained(v), cursor);
      assert page[|page| - 1] in Above(Retained(v), cursor);
    }
  }

  /** What one ungapped page served is still the same stretch of a later log. */
  lemma PageMatchesLaterLog(v: LogView, w: LogView, cursor: Option<nat>, limit: Option<nat>)
    requires Valid(v) && !Gap(v, cursor)
    requires Increasing(w.accepted) && v.accepted <= w.accepted
    ensures var page := Page(v, cursor, limit).messages;
            page == Between(w.accepted, cursor, Advance(cursor, page))
  {
    var page := Page(v, cursor, limit).messages;
    var next := Advance(cursor, page);
    PageIsContiguous(v, cursor, limit);
    PageAdvances(v, cursor, limit);
    if page == [] {
      NothingBetweenEqual(w.accepted, cursor);
    } else {
      ServedStretchIsStable(v, w, cursor, next);
      BetweenIsSlice(w.accepted, cursor, next);
    }
  }

  lemma {:induction false} NothingBetweenEqual(s: seq<nat>, cursor: Option<nat>)
    ensures Between(s, cursor, cursor) == []
  {
    if s != [] {
      NothingBetweenEqual(s[1..], cursor);
    }
  }

  /** Two adjoining stretches of the log are one. */
  lemma StretchesJoin(s: seq<nat>, a: Option<nat>, b: Option<nat>, c: Option<nat>)
    requires Increasing(s)
    requires a.Some? ==> b.Some? && a.value <= b.value
    requires b.Some? ==> c.Some? && b.value <= c.value
    ensures Between(s, a, c) == Between(s, a, b) + Between(s, b, c)
  {
    if b.None? {
      NothingBetweenEqual(s, None);
    } else {
      RankMonotone(s, a, b);
      RankMonotone(s, b, c);
      BetweenSplits(s, a, b, c);
    }
  }

  /** A reader's cursor never moves back. */
  lemma {:induction false} DrainAdvances(pages: seq<PageRequest>, cursor: Option<nat>)
    requires Timeline(pages)
    ensures var d := Drain(pages, cursor);
            cursor.Some? ==> d.cursor.Some? && cursor.value <= d.cursor.value
    decreases |pages|
  {
    if pages != [] {
      PageAdvances(pages[0].view, cursor, pages[0].limit);
      TimelineTail(pages);
      DrainAdvances(pages[1..], Advance(cursor, Page(pages[0].view, cursor, pages[0].limit).messages));
    }
  }

  lemma TimelineTail(pages: seq<PageRequest>)
    requires Timeline(pages) && pages != []
    ensures Timeline(pages[1..])
  {
    var rest := pages[1..];
    assert forall i :: 0 <= i < |rest| ==> rest[i] == pages[i + 1];
    forall i | 0 <= i < |rest| - 1 ensures Grows(rest[i].view, rest[i + 1].view) {
      assert Grows(pages[i + 1].view, pages[i + 1 + 1].view);
    }
  }

  /**
    No silent loss. Whatever is accepted, trimmed, purged or evicted between the pages, a reader
    either is told of a gap on some page or has collected exactly the log frames ever accepted
    after its first cursor and up to its last one, each once and in order.
   */
  lemma {:induction false} NoSilentLoss(pages: seq<PageRequest>, cursor: Option<nat>)
    requires Timeline(pages) && pages != []
    requires !Drain(pages, cursor).sawGap
    ensures var d := Drain(pages, cursor);
            d.collected == Between(pages[|pages| - 1].view.accepted, cursor, d.cursor)
    decreases |pages|
  {
    var v, last := pages[0].view, pages[|pages| - 1].view;
    var page := Page(v, cursor, pages[0].limit);
    var next := Advance(cursor, page.messages);
    var rest := pages[1..];
    TimelineGrows(pages, 0);
    PageAdvances(v, cursor, pages[0].limit);
    PageMatchesLaterLog(v, last, cursor, pages[0].limit);
    if |pages| > 1 {
      TimelineTail(pages);
      NoSilentLoss(rest, next);
      DrainAdvances(rest, next);
      StretchesJoin(last.accepted, cursor, next, Drain(rest, next).cursor);
    }
  }

  /** A stretch of an increasing log holds each of its positions once, in order, and no other. */
  lemma {:induction false} BetweenExactlyOnce(s: seq<nat>, cursor: Option<nat>, last: Option<nat>)
    requires Increasing(s)
    ensures Increasing(Between(s, cursor, last))
    ensures forall x :: x in Between(s, cursor, last) <==> x in s && After(x, cursor) && !After(x, last)
  {
    if s != [] {
      BetweenExactlyOnce(s[1..], cursor, last);
      assert s == [s[0]] + s[1..];
      var rest := Between(s[1..], cursor, last);
      assert forall x :: x in s[1..] ==> s[0] < x;
      forall j | 0 <= j < |rest| ensures s[0] < rest[j] {
        assert rest[j] in rest;
      }
    }
  }

  ghost predicate EndsShort(pages: seq<PageRequest>, cursor: Option<nat>)
    decreases |pages|
  {
    pages != [] &&
    var served := Page(pages[0].view, cursor, pages[0].limit).messages;
    if |pages| == 1 then pages[0].limit.None? || |served| < pages[0].limit.value
    else EndsShort(pages[1..], Advance(cursor, served))
  }

  /** A reader that stops at a short page, never told of a gap, is level with everything accepted. */
  lemma {:induction false} ShortPageEndsTheDrain(pages: seq<PageRequest>, cursor: Option<nat>)
    requires Timeline(pages) && EndsShort(pages, cursor)
    requires !Drain(pages, cursor).sawGap
    ensures var d := Drain(pages, cursor);
            forall x :: x in pages[|pages| - 1].view.accepted && After(x, cursor) ==> x in d.collected
    decreases |pages|
  {
    NoSilentLoss(pages, cursor);
    CursorEndsLevel(pages, cursor);
    var d, accepted := Drain(pages, cursor), pages[|pages| - 1].view.accepted;
    BetweenExactlyOnce(accepted, cursor, d.cursor);
  }

  lemma {:induction false} CursorEndsLevel(pages: seq<PageRequest>, cursor: Option<nat>)
    requires Timeline(pages) && EndsShort(pages, cursor)
    requires !Drain(pages, cursor).sawGap
    ensures forall x :: x in pages[|pages| - 1].view.accepted ==> !After(x, Drain(pages, cursor).cursor)
    decreases |pages|
  {
    if |pages| == 1 {
      ShortPageIsCaughtUp(pages[0].view, cursor, pages[0].limit);
    } else {
      TimelineTail(pages);
      CursorEndsLevel(pages[1..], Advance(cursor, Page(pages[0].view, cursor, pages[0].limit).messages));
    }
  }

  /** Two increasing sequences with the same members are the same sequence. */
  lemma {:induction false} IncreasingUnique(a: seq<nat>, b: seq<nat>)
    requires Increasing(a) && Increasing(b)
    requires forall x :: x in a <==> x in b
    ensures a == b
    decreases |a|
  {
    assert |a| > 0 ==> a[0] in b;
    assert |b| > 0 ==> b[0] in a;
    if a != [] {
      var j :| 0 <= j < |b| && b[j] == a[0];
      assert b[0] in a;
      var i :| 0 <= i < |a| && a[i] == b[0];
      assert a[0] == b[0];
      forall x ensures x in a[1..] <==> x in b[1..] {
        assert x in a[1..] <==> x in a && x != a[0] by { assert a == [a[0]] + a[1..]; }
        assert x in b[1..] <==> x in b && x != b[0] by { assert b == [b[0]] + b[1..]; }
      }
      IncreasingUnique(a[1..], b[1..]);
    }
  }

  lemma TailMembers(s: seq<nat>, n: nat)
    requires Increasing(s) && n <= |s|
    ensures forall x :: x in s[n..] <==> x in s && x !in s[..n]
    ensures Increasing(s[n..])
  {
    forall x | x in s[n..] ensures x !in s[..n] {
      var k :| 0 <= k < |s[n..]| && s[n..][k] == x;
      assert s[n + k] == x;
    }
    assert s == s[..n] + s[n..];
  }
}
