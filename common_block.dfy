/** `find_largest_common_block` (backend/db_utils.py): a sweep over the
    sorted start/end events of a pool of free-time slots. It returns the
    first of the longest windows that one pass closes while `group_size`
    slots are open, and retries with one slot fewer until the size drops
    below two. A window closes at every end event, even where another slot
    starts at that same instant. */
module CommonBlock {
  import opened Wrappers
  import opened Models

  /** One free-time slot `(start, end)`. */
  type Slot = (Time, Time)

  datatype Window = Window(start: Time, end: Time)

  function Length(w: Window): int
  {
    w.end - w.start
  }

  /** The event tags compare as the strings "end" < "start" do, so at equal
      times an end is processed before a start. */
  datatype Tag = End | Start

  datatype Event = Event(time: Time, tag: Tag)

  /** Python's ordering of `(time, tag)` tuples. */
  predicate EventLe(a: Event, b: Event)
  {
    a.time < b.time || (a.time == b.time && (a.tag == End || b.tag == Start))
  }

  predicate Sorted(s: seq<Event>)
  {
    forall i, j :: 0 <= i < j < |s| ==> EventLe(s[i], s[j])
  }

  // ---------------------------------------------------------------------
  // Building and sorting the timeline

  /** The timeline the first loop appends: a start and an end event per slot. */
  function Timeline(slots: seq<Slot>): (ev: seq<Event>)
    ensures |ev| == 2 * |slots|
  {
    if slots == [] then []
    else
      var last := slots[|slots| - 1];
      Timeline(slots[..|slots| - 1]) + [Event(last.0, Start), Event(last.1, End)]
  }

  function Insert(x: Event, s: seq<Event>): (r: seq<Event>)
  {
    if s == [] || EventLe(x, s[0]) then [x] + s else [s[0]] + Insert(x, s[1..])
  }

  lemma {:induction false} InsertPermutes(x: Event, s: seq<Event>)
    ensures multiset(Insert(x, s)) == multiset(s) + multiset{x}
  {
    if s != [] && !EventLe(x, s[0]) {
      InsertPermutes(x, s[1..]);
      assert s == [s[0]] + s[1..];
    }
  }

  /** A lower bound of the list and of `x` is a lower bound after the insertion. */
  lemma {:induction false} InsertBounded(b: Event, x: Event, s: seq<Event>)
    requires EventLe(b, x) && forall k :: 0 <= k < |s| ==> EventLe(b, s[k])
    ensures forall k :: 0 <= k < |Insert(x, s)| ==> EventLe(b, Insert(x, s)[k])
  {
    if s != [] && !EventLe(x, s[0]) {
      InsertBounded(b, x, s[1..]);
    }
  }

  lemma {:induction false} InsertSorted(x: Event, s: seq<Event>)
    requires Sorted(s)
    ensures Sorted(Insert(x, s))
  {
    if s != [] && !EventLe(x, s[0]) {
      var t := s[1..];
      InsertSorted(x, t);
      InsertBounded(s[0], x, t);
      var r := Insert(x, t);
      var res := [s[0]] + r;
      forall i, j | 0 <= i < j < |res| ensures EventLe(res[i], res[j]) {
        if i > 0 {
          assert res[i] == r[i - 1] && res[j] == r[j - 1];
        } else {
          assert res[j] == r[j - 1];
        }
      }
    }
  }

  /** `timeline.sort()`: a sorted permutation of the input. Under the total
      order `EventLe` the sorted permutation is unique (`SortedUnique`), so
      this is the list Python's sort produces. */
  function SortEvents(s: seq<Event>): (r: seq<Event>)
    ensures Sorted(r)
    ensures multiset(r) == multiset(s)
    ensures |r| == |s|
  {
    if s == [] then []
    else
      var rest := SortEvents(s[1..]);
      InsertSorted(s[0], rest);
      InsertPermutes(s[0], rest);
      assert s == [s[0]] + s[1..];
      Insert(s[0], rest)
  }

  /** The head of a sorted list is below each of its elements. */
  lemma SortedHeadLeast(a: seq<Event>, x: Event)
    requires Sorted(a) && x in multiset(a)
    ensures EventLe(a[0], x)
  {
    var i :| 0 <= i < |a| && a[i] == x;
    if i > 0 {
      assert EventLe(a[0], a[i]);
    }
  }

  lemma SortedTail(a: seq<Event>)
    requires Sorted(a) && a != []
    ensures Sorted(a[1..])
    ensures multiset(a[1..]) == multiset(a) - multiset{a[0]}
  {
    assert forall i, j :: 0 <= i < j < |a| - 1 ==> a[1..][i] == a[i + 1] && a[1..][j] == a[j + 1];
    assert a == [a[0]] + a[1..];
  }

  /** Two sorted lists with the same elements are equal, since `EventLe`
      is a total order; so `SortEvents` is the list Python's sort gives. */
  lemma {:induction false} SortedUnique(a: seq<Event>, b: seq<Event>)
    requires Sorted(a) && Sorted(b) && multiset(a) == multiset(b)
    ensures a == b
    decreases |a|
  {
    if a != [] {
      assert |b| == |a| by {
        assert |multiset(b)| == |multiset(a)|;
      }
      assert a[0] in multiset(a) && b[0] in multiset(b);
      SortedHeadLeast(a, b[0]);
      SortedHeadLeast(b, a[0]);
      assert a[0] == b[0];
      SortedTail(a);
      SortedTail(b);
      SortedUnique(a[1..], b[1..]);
      assert a == [a[0]] + a[1..] && b == [b[0]] + b[1..];
    }
  }

  // ---------------------------------------------------------------------
  // The sweep

  /** The sweep's state: `current_overlap`, `active_start`, and every window
      the sweep has closed so far (the candidates for `best_start`/`best_end`). */
  datatype Scan = Scan(overlap: int, active: Option<Time>, closed: seq<Window>)

  /** One iteration of the sweep loop. */
  function Step(st: Scan, e: Event, groupSize: int): (r: Scan)
  {
    if e.tag == Start then
      var o := st.overlap + 1;
      Scan(o, if o == groupSize then Some(e.time) else st.active, st.closed)
    else if st.overlap == groupSize && st.active.Some? then
      Scan(st.overlap - 1, None, st.closed + [Window(st.active.value, e.time)])
    else
      Scan(st.overlap - 1, st.active, st.closed)
  }

  function ScanEvents(ev: seq<Event>, groupSize: int): Scan
  {
    if ev == [] then Scan(0, None, [])
    else Step(ScanEvents(ev[..|ev| - 1], groupSize), ev[|ev| - 1], groupSize)
  }

  /** The replacement rule: a closed window replaces the best one only when
      it is strictly longer. */
  function Best(ws: seq<Window>): Option<Window>
  {
    if ws == [] then None
    else
      var b := Best(ws[..|ws| - 1]);
      var w := ws[|ws| - 1];
      if b.None? || Length(w) > Length(b.value) then Some(w) else b
  }

  /** The block one pass of the sweep finds for one group size. */
  function BestAt(slots: seq<Slot>, groupSize: int): Option<Window>
  {
    Best(ScanEvents(SortEvents(Timeline(slots)), groupSize).closed)
  }

  /** The whole search, including the retries with smaller group sizes. */
  function LargestCommonBlock(slots: seq<Slot>, groupSize: int): Option<Window>
    decreases groupSize
  {
    if groupSize < 2 then None
    else if BestAt(slots, groupSize).Some? then BestAt(slots, groupSize)
    else LargestCommonBlock(slots, groupSize - 1)
  }

  /** The loop of `find_largest_common_block` that lists a start and an end
      event per slot. */
  method BuildTimeline(freeTimes: seq<Slot>) returns (timeline: seq<Event>)
    ensures timeline == Timeline(freeTimes)
  {
    timeline := [];
    for i := 0 to |freeTimes|
      invariant timeline == Timeline(freeTimes[..i])
    {
      assert freeTimes[..i + 1][..i] == freeTimes[..i];
      timeline := timeline + [Event(freeTimes[i].0, Start), Event(freeTimes[i].1, End)];
    }
    assert freeTimes[..|freeTimes|] == freeTimes;
  }

  /** The sweep loop of `find_largest_common_block` for one group size,
      which is at least 2 once the loop is reached. */
  method Sweep(timeline: seq<Event>, groupSize: int) returns (best: Option<Window>)
    requires groupSize >= 1
    ensures best == Best(ScanEvents(timeline, groupSize).closed)
  {
    var currentOverlap := 0;
    best := None;
    var activeStart: Option<Time> := None;
    for i := 0 to |timeline|
      invariant currentOverlap == ScanEvents(timeline[..i], groupSize).overlap
      invariant activeStart == ScanEvents(timeline[..i], groupSize).active
      invariant best == Best(ScanEvents(timeline[..i], groupSize).closed)
      invariant activeStart.Some? ==> currentOverlap >= groupSize
    {
      ActiveIffAbove(timeline[..i + 1], groupSize);
      assert timeline[..i + 1][..i] == timeline[..i];
      var e := timeline[i];
      if e.tag == Start {
        currentOverlap := currentOverlap + 1;
        if currentOverlap == groupSize {
          activeStart := Some(e.time);
        }
      } else {
        if currentOverlap == groupSize && activeStart.Some? {
          ghost var closed := ScanEvents(timeline[..i], groupSize).closed;
          ghost var w := Window(activeStart.value, e.time);
          assert (closed + [w])[..|closed|] == closed;
          if best.None? || e.time - activeStart.value > best.value.end - best.value.start {
            best := Some(Window(activeStart.value, e.time));
          }
          activeStart := None;
        }
        currentOverlap := currentOverlap - 1;
      }
    }
    assert timeline[..|timeline|] == timeline;
  }

  /** `find_largest_common_block(free_times, group_size)`. */
  method FindLargestCommonBlock(freeTimes: seq<Slot>, groupSize: int) returns (r: Option<Window>)
    ensures r == LargestCommonBlock(freeTimes, groupSize)
    ensures groupSize < 2 ==> r.None?
    decreases groupSize
  {
    if groupSize < 2 {
      return None;
    }
    var timeline := BuildTimeline(freeTimes);
    timeline := SortEvents(timeline);
    var best := Sweep(timeline, groupSize);
    if best.Some? {
      return best;
    }
    r := FindLargestCommonBlock(freeTimes, groupSize - 1);
  }

  // ---------------------------------------------------------------------
  // What the sweep state means

  /** While `active_start` is set, at least `group_size` slots are open, and
      conversely. */
  lemma {:induction false} ActiveIffAbove(ev: seq<Event>, groupSize: int)
    requires groupSize >= 1
    ensures ScanEvents(ev, groupSize).active.Some? <==> ScanEvents(ev, groupSize).overlap >= groupSize
  {
    if ev != [] {
      ActiveIffAbove(ev[..|ev| - 1], groupSize);
    }
  }

  /** The open count is the number of starts minus the number of ends seen. */
  function Net(ev: seq<Event>): int
  {
    if ev == [] then 0
    else Net(ev[..|ev| - 1]) + (if ev[|ev| - 1].tag == Start then 1 else -1)
  }

  lemma {:induction false} OverlapIsNet(ev: seq<Event>, groupSize: int)
    ensures ScanEvents(ev, groupSize).overlap == Net(ev)
  {
    if ev != [] {
      OverlapIsNet(ev[..|ev| - 1], groupSize);
    }
  }

  /** The replacement rule keeps the first of the longest closed windows. */
  lemma {:induction false} BestIsFirstLongest(ws: seq<Window>) returns (k: nat)
    requires ws != []
    ensures k < |ws| && Best(ws) == Some(ws[k])
    ensures forall i :: 0 <= i < |ws| ==> Length(ws[i]) <= Length(ws[k])
    ensures forall i :: 0 <= i < k ==> Length(ws[i]) < Length(ws[k])
  {
    var init := ws[..|ws| - 1];
    var w := ws[|ws| - 1];
    assert forall i :: 0 <= i < |init| ==> init[i] == ws[i];
    if init == [] {
      k := 0;
    } else {
      var k' := BestIsFirstLongest(init);
      if Length(w) > Length(init[k']) {
        k := |ws| - 1;
      } else {
        k := k';
      }
    }
  }

  /** Once the open count reaches the group size, it stays at or above it
      until the window closes: the run of an active window. */
  lemma {:induction false} ActiveRun(ev: seq<Event>, groupSize: int) returns (p: nat)
    requires ScanEvents(ev, groupSize).active.Some?
    ensures p < |ev| && ev[p] == Event(ScanEvents(ev, groupSize).active.value, Start)
    ensures forall m :: p < m <= |ev| ==> ScanEvents(ev[..m], groupSize).overlap >= groupSize
  {
    var n := |ev|;
    var init := ev[..n - 1];
    var e := ev[n - 1];
    var st := ScanEvents(init, groupSize);
    if e.tag == Start && st.overlap + 1 == groupSize {
      p := n - 1;
      assert ev[..n] == ev;
    } else if e.tag == End && st.overlap == groupSize && st.active.Some? {
      assert false;
    } else {
      p := ActiveRun(init, groupSize);
      assert init[..n - 1] == init;
      forall m | p < m <= n ensures ScanEvents(ev[..m], groupSize).overlap >= groupSize {
        if m < n {
          assert ev[..m] == init[..m];
        } else {
          assert ev[..m] == ev;
        }
      }
    }
  }

  /** Every closed window runs from a start event to a later end event, and
      at least `group_size` slots are open at every point in between. */
  lemma {:induction false} WindowWitness(ev: seq<Event>, groupSize: int, k: nat) returns (p: nat, q: nat)
    requires k < |ScanEvents(ev, groupSize).closed|
    ensures var w := ScanEvents(ev, groupSize).closed[k];
      && p < q < |ev| && ev[p] == Event(w.start, Start) && ev[q] == Event(w.end, End)
      && forall m :: p < m <= q ==> ScanEvents(ev[..m], groupSize).overlap >= groupSize
  {
    var n := |ev|;
    var init := ev[..n - 1];
    var st := ScanEvents(init, groupSize);
    if k < |st.closed| {
      p, q := WindowWitness(init, groupSize, k);
      forall m | p < m <= q ensures ScanEvents(ev[..m], groupSize).overlap >= groupSize {
        assert ev[..m] == init[..m];
      }
    } else {
      p := ActiveRun(init, groupSize);
      q := n - 1;
      forall m | p < m <= q ensures ScanEvents(ev[..m], groupSize).overlap >= groupSize {
        assert ev[..m] == init[..m];
      }
    }
  }

  /** A window that is open at some point and no longer open at the end of
      the timeline has been closed. */
  lemma {:induction false} ClosedOnceDeactivated(ev: seq<Event>, groupSize: int, m: nat)
    requires m <= |ev| && ScanEvents(ev[..m], groupSize).active.Some?
    ensures ScanEvents(ev, groupSize).active.None? ==> ScanEvents(ev, groupSize).closed != []
    decreases |ev|
  {
    var n := |ev|;
    if m == n {
      assert ev[..m] == ev;
    } else {
      var init := ev[..n - 1];
      assert init[..m] == ev[..m];
      ClosedOnceDeactivated(init, groupSize, m);
    }
  }

  // ---------------------------------------------------------------------
  // Counting open slots

  /** The open count contributed by the events up to time `t`. */
  function NetBy(ev: seq<Event>, t: Time): int
  {
    if ev == [] then 0
    else
      var e := ev[|ev| - 1];
      NetBy(ev[..|ev| - 1], t) + (if e.time > t then 0 else if e.tag == Start then 1 else -1)
  }

  lemma {:induction false} NetAppend(a: seq<Event>, b: seq<Event>, t: Time)
    ensures NetBy(a + b, t) == NetBy(a, t) + NetBy(b, t)
    ensures Net(a + b) == Net(a) + Net(b)
    decreases |b|
  {
    if b == [] {
      assert a + b == a;
    } else {
      var b' := b[..|b| - 1];
      NetAppend(a, b', t);
      assert (a + b)[..|a + b| - 1] == a + b';
    }
  }

  lemma {:induction false} NetByAllBefore(ev: seq<Event>, t: Time)
    requires forall i :: 0 <= i < |ev| ==> ev[i].time <= t
    ensures NetBy(ev, t) == Net(ev)
  {
    if ev != [] {
      NetByAllBefore(ev[..|ev| - 1], t);
    }
  }

  lemma {:induction false} NetByAllAfter(ev: seq<Event>, t: Time)
    requires forall i :: 0 <= i < |ev| ==> ev[i].time > t
    ensures NetBy(ev, t) == 0
  {
    if ev != [] {
      NetByAllAfter(ev[..|ev| - 1], t);
    }
  }

  lemma {:induction false} InsertNet(x: Event, s: seq<Event>, t: Time)
    ensures NetBy(Insert(x, s), t) == NetBy([x], t) + NetBy(s, t)
    ensures Net(Insert(x, s)) == Net([x]) + Net(s)
  {
    if s == [] || EventLe(x, s[0]) {
      NetAppend([x], s, t);
    } else {
      InsertNet(x, s[1..], t);
      NetAppend([s[0]], Insert(x, s[1..]), t);
      NetAppend([s[0]], s[1..], t);
      assert [s[0]] + s[1..] == s;
    }
  }

  /** Sorting does not change how many slots are open at any time. */
  lemma {:induction false} SortKeepsNet(s: seq<Event>, t: Time)
    ensures NetBy(SortEvents(s), t) == NetBy(s, t)
    ensures Net(SortEvents(s)) == Net(s)
  {
    if s != [] {
      SortKeepsNet(s[1..], t);
      InsertNet(s[0], SortEvents(s[1..]), t);
      NetAppend([s[0]], s[1..], t);
      assert [s[0]] + s[1..] == s;
    }
  }

  /** A slot `(start, end)` covers `t` when `start <= t < end`. */
  function Covering(slots: seq<Slot>, t: Time): nat
  {
    if slots == [] then 0
    else
      var last := slots[|slots| - 1];
      Covering(slots[..|slots| - 1], t) + (if last.0 <= t < last.1 then 1 else 0)
  }

  predicate WellFormed(slots: seq<Slot>)
  {
    forall i :: 0 <= i < |slots| ==> slots[i].0 <= slots[i].1
  }

  lemma {:induction false} TimelineNet(slots: seq<Slot>, t: Time)
    requires WellFormed(slots)
    ensures NetBy(Timeline(slots), t) == Covering(slots, t)
    ensures Net(Timeline(slots)) == 0
  {
    if slots != [] {
      var init := slots[..|slots| - 1];
      var last := slots[|slots| - 1];
      assert last.0 <= last.1;
      assert WellFormed(init) by {
        assert forall i :: 0 <= i < |init| ==> init[i] == slots[i];
      }
      var a, b := Event(last.0, Start), Event(last.1, End);
      TimelineNet(init, t);
      NetAppend(Timeline(init), [a, b], t);
      assert [a, b][..1] == [a] && [a][..0] == [];
      assert NetBy([a], t) == (if a.time > t then 0 else 1);
      assert NetBy([a, b], t) == NetBy([a], t) + (if b.time > t then 0 else -1);
      assert Net([a]) == 1;
      assert Net([a, b]) == Net([a]) - 1;
    }
  }

  /** The number of events at or before `t`; in a sorted timeline they form
      a prefix. */
  function Cut(ev: seq<Event>, t: Time): (c: nat)
    ensures c <= |ev|
    ensures forall i :: 0 <= i < c ==> ev[i].time <= t
    ensures c < |ev| ==> ev[c].time > t
  {
    if ev == [] || ev[0].time > t then 0 else 1 + Cut(ev[1..], t)
  }

  /** In a sorted timeline the events after the first `Cut` are all later
      than `t`. */
  lemma CutOfSorted(ev: seq<Event>, t: Time)
    requires Sorted(ev)
    ensures forall i :: Cut(ev, t) <= i < |ev| ==> ev[i].time > t
  {
    var m := Cut(ev, t);
    forall i | m <= i < |ev| ensures ev[i].time > t {
      if i > m {
        assert EventLe(ev[m], ev[i]);
      }
    }
  }

  /** The open count after the events up to `t` is the net count of the
      whole timeline up to `t`. */
  lemma PrefixNet(ev: seq<Event>, m: nat, groupSize: int, t: Time)
    requires m <= |ev|
    requires forall i :: 0 <= i < m ==> ev[i].time <= t
    requires forall i :: m <= i < |ev| ==> ev[i].time > t
    ensures ScanEvents(ev[..m], groupSize).overlap == NetBy(ev, t)
  {
    OverlapIsNet(ev[..m], groupSize);
    NetByAllBefore(ev[..m], t);
    NetByAllAfter(ev[m..], t);
    NetAppend(ev[..m], ev[m..], t);
    assert ev[..m] + ev[m..] == ev;
  }

  /** In a sorted timeline the open count after the events up to `t` is the
      number of slots covering `t`. */
  lemma {:induction false} OpenCountIsCoverage(slots: seq<Slot>, groupSize: int, t: Time) returns (m: nat)
    requires WellFormed(slots)
    ensures var ev := SortEvents(Timeline(slots));
      && m <= |ev|
      && (forall i :: 0 <= i < m ==> ev[i].time <= t)
      && (forall i :: m <= i < |ev| ==> ev[i].time > t)
      && ScanEvents(ev[..m], groupSize).overlap == Covering(slots, t)
  {
    var ev := SortEvents(Timeline(slots));
    m := Cut(ev, t);
    CutOfSorted(ev, t);
    PrefixNet(ev, m, groupSize, t);
    SortKeepsNet(Timeline(slots), t);
    TimelineNet(slots, t);
  }

  /** Each event of the timeline comes from one of the slots. */
  lemma {:induction false} TimelineOrigin(slots: seq<Slot>, e: Event) returns (i: nat)
    requires e in Timeline(slots)
    ensures i < |slots|
    ensures e.tag == Start ==> slots[i].0 == e.time
    ensures e.tag == End ==> slots[i].1 == e.time
  {
    var init := slots[..|slots| - 1];
    var last := slots[|slots| - 1];
    if e in Timeline(init) {
      i := TimelineOrigin(init, e);
    } else {
      i := |slots| - 1;
    }
  }

  // ---------------------------------------------------------------------
  // What one pass and the whole search return

  /** Every window one pass closes is non-empty, starts at a slot's start,
      ends at a slot's end, and lies where at least `group_size` slots are
      open (for slots whose start is not after their end). */
  lemma {:induction false} ClosedWindowShape(slots: seq<Slot>, groupSize: int, k: nat) returns (i: nat, j: nat)
    requires k < |ScanEvents(SortEvents(Timeline(slots)), groupSize).closed|
    ensures var w := ScanEvents(SortEvents(Timeline(slots)), groupSize).closed[k];
      && w.start < w.end
      && i < |slots| && slots[i].0 == w.start
      && j < |slots| && slots[j].1 == w.end
      && (WellFormed(slots) ==> forall t :: w.start <= t < w.end ==> Covering(slots, t) >= groupSize)
  {
    var ev := SortEvents(Timeline(slots));
    var w := ScanEvents(ev, groupSize).closed[k];
    var p, q := WindowWitness(ev, groupSize, k);
    assert EventLe(ev[p], ev[q]);
    assert ev[p] in multiset(ev) && ev[q] in multiset(ev);
    i := TimelineOrigin(slots, ev[p]);
    j := TimelineOrigin(slots, ev[q]);
    if WellFormed(slots) {
      forall t | w.start <= t < w.end ensures Covering(slots, t) >= groupSize {
        var m := OpenCountIsCoverage(slots, groupSize, t);
        assert p < m <= q;
      }
    }
  }

  /** Completeness of one pass: if some instant is covered by at least
      `group_size` slots, the pass closes a window. */
  lemma {:induction false} CoveredImpliesFound(slots: seq<Slot>, groupSize: int, t: Time)
    requires WellFormed(slots) && groupSize >= 1 && Covering(slots, t) >= groupSize
    ensures BestAt(slots, groupSize).Some?
  {
    var ev := SortEvents(Timeline(slots));
    var m := OpenCountIsCoverage(slots, groupSize, t);
    ActiveIffAbove(ev[..m], groupSize);
    OverlapIsNet(ev, groupSize);
    SortKeepsNet(Timeline(slots), t);
    TimelineNet(slots, t);
    ActiveIffAbove(ev, groupSize);
    ClosedOnceDeactivated(ev, groupSize, m);
    var _ := BestIsFirstLongest(ScanEvents(ev, groupSize).closed);
  }

  /** The block one pass returns is the first of the longest windows it
      closed, with the shape of every closed window. */
  lemma {:induction false} BestAtMeaning(slots: seq<Slot>, groupSize: int) returns (k: nat)
    requires BestAt(slots, groupSize).Some?
    ensures var closed := ScanEvents(SortEvents(Timeline(slots)), groupSize).closed;
      var w := BestAt(slots, groupSize).value;
      && k < |closed| && closed[k] == w
      && (forall i :: 0 <= i < |closed| ==> Length(closed[i]) <= Length(w))
      && (forall i :: 0 <= i < k ==> Length(closed[i]) < Length(w))
  {
    var closed := ScanEvents(SortEvents(Timeline(slots)), groupSize).closed;
    k := BestIsFirstLongest(closed);
  }

  /** The search answers at the largest group size, from `group_size` down,
      for which a pass finds a block. */
  lemma {:induction false} FoundLevel(slots: seq<Slot>, groupSize: int) returns (k: int)
    requires LargestCommonBlock(slots, groupSize).Some?
    ensures 2 <= k <= groupSize
    ensures BestAt(slots, k) == LargestCommonBlock(slots, groupSize)
    ensures forall j :: k < j <= groupSize ==> BestAt(slots, j).None?
    decreases groupSize
  {
    if BestAt(slots, groupSize).Some? {
      k := groupSize;
    } else {
      k := FoundLevel(slots, groupSize - 1);
    }
  }

  lemma {:induction false} NothingFound(slots: seq<Slot>, groupSize: int, j: int)
    requires LargestCommonBlock(slots, groupSize).None? && 2 <= j <= groupSize
    ensures BestAt(slots, j).None?
    decreases groupSize
  {
    if j < groupSize {
      NothingFound(slots, groupSize - 1, j);
    }
  }

  /** What `find_largest_common_block` returns: a non-empty window from a
      slot's start to a slot's end, every instant of which is covered by `k`
      slots, where `k` is the largest size not above `group_size` that any
      instant reaches. Coverage counts slots, not distinct users. */
  lemma {:induction false} LargestCommonBlockMeaning(slots: seq<Slot>, groupSize: int) returns (k: int, i: nat, j: nat)
    requires LargestCommonBlock(slots, groupSize).Some?
    ensures var w := LargestCommonBlock(slots, groupSize).value;
      && 2 <= k <= groupSize
      && w.start < w.end
      && i < |slots| && slots[i].0 == w.start
      && j < |slots| && slots[j].1 == w.end
      && (WellFormed(slots) ==> forall t :: w.start <= t < w.end ==> Covering(slots, t) >= k)
      && (WellFormed(slots) && k < groupSize ==> forall t :: Covering(slots, t) <= k)
  {
    k := FoundLevel(slots, groupSize);
    var n := BestAtMeaning(slots, k);
    i, j := ClosedWindowShape(slots, k, n);
    if WellFormed(slots) && k < groupSize {
      forall t ensures Covering(slots, t) <= k {
        if Covering(slots, t) > k {
          CoveredImpliesFound(slots, k + 1, t);
        }
      }
    }
  }

  /** The search finds nothing exactly when the group size is below two or
      no instant is covered by two slots. */
  lemma {:induction false} LargestCommonBlockNone(slots: seq<Slot>, groupSize: int)
    requires WellFormed(slots)
    ensures LargestCommonBlock(slots, groupSize).None? <==>
      (groupSize < 2 || forall t :: Covering(slots, t) < 2)
  {
    if LargestCommonBlock(slots, groupSize).Some? {
      var k, i, j := LargestCommonBlockMeaning(slots, groupSize);
      var w := LargestCommonBlock(slots, groupSize).value;
      assert Covering(slots, w.start) >= 2;
    } else if groupSize >= 2 {
      forall t ensures Covering(slots, t) < 2 {
        if Covering(slots, t) >= 2 {
          CoveredImpliesFound(slots, 2, t);
          NothingFound(slots, groupSize, 2);
        }
      }
    }
  }

  // ---------------------------------------------------------------------
  // Touching windows split

  /** Three slots: one long slot, and two short ones that touch at 5. */
  predicate Touching(slots: seq<Slot>)
  {
    slots == [(0, 10), (0, 5), (5, 10)]
  }

  /** The events the first loop appends for the three slots. */
  function TouchingEvents(): seq<Event>
  {
    [Event(0, Start), Event(10, End), Event(0, Start), Event(5, End), Event(5, Start), Event(10, End)]
  }

  /** The same events in Python's tuple order. */
  function TouchingSorted(): seq<Event>
  {
    [Event(0, Start), Event(0, Start), Event(5, End), Event(5, Start), Event(10, End), Event(10, End)]
  }

  lemma TouchingTimeline(slots: seq<Slot>)
    requires Touching(slots)
    ensures Timeline(slots) == TouchingEvents()
  {
    assert slots[..2][..1] == [(0, 10)] && slots[..2][..1][..0] == [];
    assert Timeline(slots[..2][..1]) == [Event(0, Start), Event(10, End)];
    assert Timeline(slots[..2]) == [Event(0, Start), Event(10, End), Event(0, Start), Event(5, End)];
  }

  lemma TouchingInOrder()
    ensures Sorted(TouchingSorted())
  {
  }

  lemma TouchingSameEvents()
    ensures multiset(TouchingSorted()) == multiset(TouchingEvents())
  {
  }

  lemma TouchingSort(ev: seq<Event>)
    requires ev == TouchingEvents()
    ensures SortEvents(ev) == TouchingSorted()
  {
    TouchingInOrder();
    TouchingSameEvents();
    SortedUnique(SortEvents(ev), TouchingSorted());
  }

  lemma TouchingScan(ev: seq<Event>)
    requires ev == TouchingSorted()
    ensures ScanEvents(ev, 2).closed == [Window(0, 5), Window(5, 10)]
  {
    assert ev[..1][..0] == [];
    assert ScanEvents(ev[..1], 2) == Scan(1, None, []);
    assert ev[..2][..1] == ev[..1];
    assert ScanEvents(ev[..2], 2) == Scan(2, Some(0), []);
    assert ev[..3][..2] == ev[..2];
    assert ScanEvents(ev[..3], 2) == Scan(1, None, [Window(0, 5)]);
    assert ev[..4][..3] == ev[..3];
    assert ScanEvents(ev[..4], 2) == Scan(2, Some(5), [Window(0, 5)]);
    assert ev[..5][..4] == ev[..4];
    assert ScanEvents(ev[..5], 2) == Scan(1, None, [Window(0, 5), Window(5, 10)]);
    assert ev[..5] == ev[..|ev| - 1];
  }

  /** Two of the three slots cover every instant of [0, 10). */
  lemma TouchingCovered(slots: seq<Slot>, t: Time)
    requires Touching(slots) && 0 <= t < 10
    ensures Covering(slots, t) >= 2
  {
    assert slots[..2][..1] == [(0, 10)] && slots[..2][..1][..0] == [];
    assert Covering(slots[..2][..1], t) == 1;
    assert Covering(slots[..2], t) == 1 + (if t < 5 then 1 else 0);
  }

  /** The window closed first is kept, as the second is no longer. */
  lemma TouchingBest(ws: seq<Window>)
    requires ws == [Window(0, 5), Window(5, 10)]
    ensures Best(ws) == Some(Window(0, 5))
  {
    assert ws[..1] == [Window(0, 5)] && ws[..1][..0] == [];
    assert Best(ws[..1]) == Some(Window(0, 5));
    assert ws[|ws| - 1] == Window(5, 10);
  }

  /** At every instant of [0, 10) two slots are open, yet the search
      returns only [0, 5): the end event at 5 sorts before the start event
      at 5 and closes the window, and the later window [5, 10), being no
      longer, does not replace it. */
  lemma TouchingWindowsSplit(slots: seq<Slot>)
    requires Touching(slots)
    ensures forall t :: 0 <= t < 10 ==> Covering(slots, t) >= 2
    ensures LargestCommonBlock(slots, 2) == Some(Window(0, 5))
  {
    forall t | 0 <= t < 10 ensures Covering(slots, t) >= 2 {
      TouchingCovered(slots, t);
    }
    var ev := Timeline(slots);
    TouchingTimeline(slots);
    var sorted := SortEvents(ev);
    TouchingSort(ev);
    var closed := ScanEvents(sorted, 2).closed;
    TouchingScan(sorted);
    TouchingBest(closed);
    assert BestAt(slots, 2) == Best(closed);
  }
}
