/** The free-time readers of backend/db_utils.py: the two-interval overlap,
    the pairwise overlap sweep over two users' blocks, and the deadline
    filter, all over an abstract copy of the Firestore collections. */
module FreeTime {
  import opened Wrappers
  import opened Models
  import opened CommonBlock

  /** The library functions the backend calls, left abstract:
      `datetime.fromisoformat` (`None` for the `ValueError`),
      `datetime.isoformat`, and `slugify(f"{title}_{due}")` of an
      assignment's title and due text. */
  datatype Hooks = Hooks(
    parse: string -> Option<Time>,
    iso: Time -> string,
    slug: (Value, Value) -> string)

  /** The exceptions the backend lets escape to its callers:
      `fromisoformat` rejecting a text, `.get` called on a `(start, end)`
      tuple, and `.isoformat()` called on `None`. */
  datatype Fault = BadIsoFormat(text: string) | TupleHasNoGet | NoneHasNoIsoformat

  /** A document of the "users" collection; a missing "free_time" field
      reads as the empty list. */
  datatype UserDoc = UserDoc(freeTime: seq<Dict>)

  /** The "users" collection keyed by e-mail and the "assignments"
      collection keyed by slug, each assignment reduced to its "students"
      list (a missing field reads as the empty list). */
  datatype Store = Store(users: map<string, UserDoc>, assignments: map<string, seq<string>>)

  function Max(a: int, b: int): int { if a >= b then a else b }

  function Min(a: int, b: int): int { if a <= b then a else b }

  /** The dictionary `get_overlap_minutes` returns, with its instants kept as
      instants. */
  datatype Overlap = Overlap(start: Time, end: Time, durationMinutes: int)

  /** `get_overlap_minutes(start1, end1, start2, end2)`. */
  function OverlapMinutes(start1: Time, end1: Time, start2: Time, end2: Time): (r: Option<Overlap>)
    ensures r.None? <==> Min(end1, end2) <= Max(start1, start2)
    ensures r.Some? ==> r.value.start == Max(start1, start2) && r.value.end == Min(end1, end2)
    ensures r.Some? ==> start1 <= r.value.start < r.value.end <= end1
    ensures r.Some? ==> start2 <= r.value.start < r.value.end <= end2
    ensures r.Some? ==> (0 <= r.value.durationMinutes
      && r.value.durationMinutes * 60 <= r.value.end - r.value.start < (r.value.durationMinutes + 1) * 60)
  {
    var latestStart := Max(start1, start2);
    var earliestEnd := Min(end1, end2);
    if earliestEnd > latestStart then
      Some(Overlap(latestStart, earliestEnd, (earliestEnd - latestStart) / 60))
    else None
  }

  /** Swapping the two intervals gives the same overlap. */
  lemma OverlapSymmetric(start1: Time, end1: Time, start2: Time, end2: Time)
    ensures OverlapMinutes(start1, end1, start2, end2) == OverlapMinutes(start2, end2, start1, end1)
  {
  }

  /** Reading a block's "start" and "end" and parsing both; `None` when a
      key is missing, a value is not a string, or a string does not parse —
      every case in which the source's `try` falls through to `continue`. */
  function ParseBlock(parse: string -> Option<Time>, b: Dict): (r: Option<Slot>)
    ensures r.Some? <==> ("start" in b && b["start"].Str? && parse(b["start"].s).Some?
                          && "end" in b && b["end"].Str? && parse(b["end"].s).Some?)
    ensures r.Some? ==> r.value == (parse(b["start"].s).value, parse(b["end"].s).value)
  {
    if "start" in b && b["start"].Str? && "end" in b && b["end"].Str? then
      match (parse(b["start"].s), parse(b["end"].s))
      case (Some(s), Some(e)) => Some((s, e))
      case _ => None
    else None
  }

  // ---------------------------------------------------------------------
  // get_overlaps_between_users

  /** The overlaps the inner loop emits for one parsed block of the first user. */
  function RowOverlaps(parse: string -> Option<Time>, a: Slot, ys: seq<Dict>): (r: seq<Overlap>)
    ensures |r| <= |ys|
  {
    if ys == [] then []
    else
      var prior := RowOverlaps(parse, a, ys[..|ys| - 1]);
      match ParseBlock(parse, ys[|ys| - 1])
      case None => prior
      case Some(b) =>
        match OverlapMinutes(a.0, a.1, b.0, b.1)
        case None => prior
        case Some(o) => prior + [o]
  }

  /** The overlaps one block of the first user contributes: none when it
      does not parse. */
  function BlockRow(parse: string -> Option<Time>, x: Dict, ys: seq<Dict>): seq<Overlap>
  {
    match ParseBlock(parse, x)
    case None => []
    case Some(a) => RowOverlaps(parse, a, ys)
  }

  /** All overlaps, first user's block major, second user's block minor. */
  function PairOverlaps(parse: string -> Option<Time>, xs: seq<Dict>, ys: seq<Dict>): seq<Overlap>
  {
    if xs == [] then []
    else PairOverlaps(parse, xs[..|xs| - 1], ys) + BlockRow(parse, xs[|xs| - 1], ys)
  }

  /** The inner loop of `get_overlaps_between_users`: the overlaps of one
      block of the first user with each block of the second, appended to
      what was found so far. */
  method AppendRowOverlaps(parse: string -> Option<Time>, a: Slot, ys: seq<Dict>, found: seq<Overlap>)
    returns (overlaps: seq<Overlap>)
    ensures overlaps == found + RowOverlaps(parse, a, ys)
  {
    overlaps := found;
    var (start1, end1) := a;
    for j := 0 to |ys|
      invariant overlaps == found + RowOverlaps(parse, a, ys[..j])
    {
      assert ys[..j + 1][..j] == ys[..j];
      ghost var row := RowOverlaps(parse, a, ys[..j]);
      var block2 := ParseBlock(parse, ys[j]);
      if block2.None? {
        continue;
      }
      var (start2, end2) := block2.value;
      var overlap := OverlapMinutes(start1, end1, start2, end2);
      if overlap.Some? {
        assert found + row + [overlap.value] == found + (row + [overlap.value]);
        overlaps := overlaps + [overlap.value];
      }
    }
    assert ys[..|ys|] == ys;
  }

  /** `get_overlaps_between_users(email1, email2)`. */
  method OverlapsBetweenUsers(store: Store, parse: string -> Option<Time>, email1: string, email2: string)
    returns (overlaps: seq<Overlap>)
    ensures email1 !in store.users || email2 !in store.users ==> overlaps == []
    ensures email1 in store.users && email2 in store.users ==>
      overlaps == PairOverlaps(parse, store.users[email1].freeTime, store.users[email2].freeTime)
  {
    if email1 !in store.users || email2 !in store.users {
      return [];
    }
    var user1Times := store.users[email1].freeTime;
    var user2Times := store.users[email2].freeTime;
    overlaps := [];
    for i := 0 to |user1Times|
      invariant overlaps == PairOverlaps(parse, user1Times[..i], user2Times)
    {
      assert user1Times[..i + 1][..i] == user1Times[..i];
      var block1 := ParseBlock(parse, user1Times[i]);
      if block1.None? {
        continue;
      }
      overlaps := AppendRowOverlaps(parse, block1.value, user2Times, overlaps);
    }
    assert user1Times[..|user1Times|] == user1Times;
  }

  /** At most one overlap per pair of blocks. */
  lemma {:induction false} PairOverlapsBound(parse: string -> Option<Time>, xs: seq<Dict>, ys: seq<Dict>)
    ensures |PairOverlaps(parse, xs, ys)| <= |xs| * |ys|
  {
    if xs != [] {
      PairOverlapsBound(parse, xs[..|xs| - 1], ys);
      assert (|xs| - 1) * |ys| + |ys| == |xs| * |ys|;
    }
  }

  /** An overlap is contained in one block of each user. */
  predicate Within(o: Overlap, s: Slot)
  {
    s.0 <= o.start && o.end <= s.1
  }

  lemma {:induction false} RowOrigin(parse: string -> Option<Time>, a: Slot, ys: seq<Dict>, k: nat) returns (j: nat)
    requires k < |RowOverlaps(parse, a, ys)|
    ensures j < |ys| && ParseBlock(parse, ys[j]).Some?
    ensures var b := ParseBlock(parse, ys[j]).value;
      OverlapMinutes(a.0, a.1, b.0, b.1) == Some(RowOverlaps(parse, a, ys)[k])
  {
    var init := ys[..|ys| - 1];
    if k < |RowOverlaps(parse, a, init)| {
      j := RowOrigin(parse, a, init, k);
    } else {
      j := |ys| - 1;
    }
  }

  /** Each overlap comes from a parseable block of the first user and a
      parseable block of the second, and lies inside both. */
  lemma {:induction false} PairOrigin(parse: string -> Option<Time>, xs: seq<Dict>, ys: seq<Dict>, k: nat)
    returns (i: nat, j: nat)
    requires k < |PairOverlaps(parse, xs, ys)|
    ensures i < |xs| && j < |ys| && ParseBlock(parse, xs[i]).Some? && ParseBlock(parse, ys[j]).Some?
    ensures var o := PairOverlaps(parse, xs, ys)[k];
      var a := ParseBlock(parse, xs[i]).value;
      var b := ParseBlock(parse, ys[j]).value;
      && OverlapMinutes(a.0, a.1, b.0, b.1) == Some(o)
      && Within(o, a) && Within(o, b) && o.start < o.end
  {
    var init := xs[..|xs| - 1];
    var prior := PairOverlaps(parse, init, ys);
    if k < |prior| {
      i, j := PairOrigin(parse, init, ys, k);
    } else {
      i := |xs| - 1;
      j := RowOrigin(parse, ParseBlock(parse, xs[i]).value, ys, k - |prior|);
    }
  }

  /** Conversely, every parseable block of the second user that overlaps
      the given block contributes its overlap to the row. */
  lemma {:induction false} RowComplete(parse: string -> Option<Time>, a: Slot, ys: seq<Dict>, j: nat)
    requires j < |ys| && ParseBlock(parse, ys[j]).Some?
    requires var b := ParseBlock(parse, ys[j]).value; OverlapMinutes(a.0, a.1, b.0, b.1).Some?
    ensures var b := ParseBlock(parse, ys[j]).value;
      OverlapMinutes(a.0, a.1, b.0, b.1).value in RowOverlaps(parse, a, ys)
  {
    var init := ys[..|ys| - 1];
    if j < |init| {
      assert init[j] == ys[j];
      RowComplete(parse, a, init, j);
    }
  }

  /** Every pair of parseable blocks, one of each user, with a positive
      overlap contributes that overlap. */
  lemma {:induction false} PairComplete(parse: string -> Option<Time>, xs: seq<Dict>, ys: seq<Dict>, i: nat, j: nat)
    requires i < |xs| && j < |ys| && ParseBlock(parse, xs[i]).Some? && ParseBlock(parse, ys[j]).Some?
    requires var a := ParseBlock(parse, xs[i]).value; var b := ParseBlock(parse, ys[j]).value;
      OverlapMinutes(a.0, a.1, b.0, b.1).Some?
    ensures var a := ParseBlock(parse, xs[i]).value; var b := ParseBlock(parse, ys[j]).value;
      OverlapMinutes(a.0, a.1, b.0, b.1).value in PairOverlaps(parse, xs, ys)
  {
    var init := xs[..|xs| - 1];
    var prior := PairOverlaps(parse, init, ys);
    var a := ParseBlock(parse, xs[i]).value;
    var b := ParseBlock(parse, ys[j]).value;
    var o := OverlapMinutes(a.0, a.1, b.0, b.1).value;
    if i < |init| {
      assert init[i] == xs[i];
      PairComplete(parse, init, ys, i, j);
      assert o in prior;
    } else {
      RowComplete(parse, a, ys, j);
      assert BlockRow(parse, xs[i], ys) == RowOverlaps(parse, a, ys);
    }
  }

  /** The overlaps of one column: every parsed block of the first list
      against one fixed block. */
  function ColumnOverlaps(parse: string -> Option<Time>, xs: seq<Dict>, b: Slot): seq<Overlap>
  {
    if xs == [] then []
    else
      var prior := ColumnOverlaps(parse, xs[..|xs| - 1], b);
      match ParseBlock(parse, xs[|xs| - 1])
      case None => prior
      case Some(a) =>
        match OverlapMinutes(a.0, a.1, b.0, b.1)
        case None => prior
        case Some(o) => prior + [o]
  }

  lemma {:induction false} ColumnIsRow(parse: string -> Option<Time>, xs: seq<Dict>, b: Slot)
    ensures ColumnOverlaps(parse, xs, b) == RowOverlaps(parse, b, xs)
  {
    if xs != [] {
      ColumnIsRow(parse, xs[..|xs| - 1], b);
      match ParseBlock(parse, xs[|xs| - 1])
      case None =>
      case Some(a) => OverlapSymmetric(a.0, a.1, b.0, b.1);
    }
  }

  /** One more block for the second user adds one column of overlaps. */
  lemma {:induction false} PairAddColumn(parse: string -> Option<Time>, xs: seq<Dict>, ys: seq<Dict>, y: Dict)
    ensures multiset(PairOverlaps(parse, xs, ys + [y])) ==
      multiset(PairOverlaps(parse, xs, ys)) +
      (match ParseBlock(parse, y) case None => multiset{} case Some(b) => multiset(ColumnOverlaps(parse, xs, b)))
  {
    if xs != [] {
      var init := xs[..|xs| - 1];
      var x := xs[|xs| - 1];
      PairAddColumn(parse, init, ys, y);
      BlockRowAppend(parse, x, ys, y);
      match ParseBlock(parse, y)
      case None =>
      case Some(b) => ColumnSplit(parse, xs, b);
    }
  }

  /** One more block for the second user adds at most one overlap to a row. */
  lemma BlockRowAppend(parse: string -> Option<Time>, x: Dict, ys: seq<Dict>, y: Dict)
    ensures multiset(BlockRow(parse, x, ys + [y])) == multiset(BlockRow(parse, x, ys)) +
      (match ParseBlock(parse, y) case None => multiset{} case Some(b) => multiset(ColumnOverlaps(parse, [x], b)))
  {
    assert (ys + [y])[..|ys|] == ys;
    assert (ys + [y])[|ys|] == y;
    assert [x][..0] == [];
  }

  lemma ColumnSplit(parse: string -> Option<Time>, xs: seq<Dict>, b: Slot)
    requires xs != []
    ensures ColumnOverlaps(parse, xs, b) == ColumnOverlaps(parse, xs[..|xs| - 1], b) + ColumnOverlaps(parse, [xs[|xs| - 1]], b)
  {
    assert [xs[|xs| - 1]][..0] == [];
  }

  lemma {:induction false} PairOverlapsNone(parse: string -> Option<Time>, xs: seq<Dict>)
    ensures PairOverlaps(parse, xs, []) == []
  {
    if xs != [] {
      PairOverlapsNone(parse, xs[..|xs| - 1]);
    }
  }

  /** The overlaps of two users do not depend on which one is passed first,
      up to order. */
  lemma {:induction false} PairOverlapsSymmetric(parse: string -> Option<Time>, xs: seq<Dict>, ys: seq<Dict>)
    ensures multiset(PairOverlaps(parse, xs, ys)) == multiset(PairOverlaps(parse, ys, xs))
    decreases |ys|
  {
    if ys == [] {
      PairOverlapsNone(parse, xs);
    } else {
      var init := ys[..|ys| - 1];
      var y := ys[|ys| - 1];
      assert init + [y] == ys;
      PairOverlapsSymmetric(parse, xs, init);
      PairAddColumn(parse, xs, init, y);
      match ParseBlock(parse, y)
      case None =>
      case Some(b) => ColumnIsRow(parse, xs, b);
    }
  }

  // ---------------------------------------------------------------------
  // get_overlapping_users_for_assignment

  /** The document key of an assignment: a `datetime` due is first rendered
      with `isoformat`, then `slugify(f"{title}_{due}")` is taken. */
  function AssignmentKey(hooks: Hooks, title: Value, due: Value): (key: string)
    ensures due.When? ==> key == hooks.slug(title, Str(hooks.iso(due.t)))
    ensures !due.When? ==> key == hooks.slug(title, due)
  {
    hooks.slug(title, if due.When? then Str(hooks.iso(due.t)) else due)
  }

  /** The students list with every occurrence of `email` dropped, order kept. */
  function Without(students: seq<string>, email: string): (r: seq<string>)
    ensures |r| <= |students|
    ensures forall s :: s in r <==> s in students && s != email
  {
    if students == [] then []
    else
      var prior := Without(students[..|students| - 1], email);
      var last := students[|students| - 1];
      assert forall s :: s in students <==> s in students[..|students| - 1] || s == last;
      if last != email then prior + [last] else prior
  }

  /** Dropping one e-mail distributes over concatenation, so the survivors
      keep their relative order. */
  lemma {:induction false} WithoutAppend(a: seq<string>, b: seq<string>, email: string)
    ensures Without(a + b, email) == Without(a, email) + Without(b, email)
    decreases |b|
  {
    if b == [] {
      assert a + b == a;
    } else {
      var init := b[..|b| - 1];
      assert (a + b)[..|a + b| - 1] == a + init;
      assert (a + b)[|a + b| - 1] == b[|b| - 1];
      WithoutAppend(a, init, email);
    }
  }

  /** `get_overlapping_users_for_assignment(email, title, due)`: the other
      students registered under the assignment's document, or none when the
      document does not exist. */
  function OtherStudents(store: Store, hooks: Hooks, email: string, title: Value, due: Value): (r: seq<string>)
    ensures AssignmentKey(hooks, title, due) !in store.assignments ==> r == []
    ensures AssignmentKey(hooks, title, due) in store.assignments ==>
      r == Without(store.assignments[AssignmentKey(hooks, title, due)], email)
    ensures email !in r
  {
    var key := AssignmentKey(hooks, title, due);
    if key !in store.assignments then [] else Without(store.assignments[key], email)
  }

  // ---------------------------------------------------------------------
  // fetch_user_free_times_before_due

  /** One user's parseable blocks ending no later than `due`, in order. */
  function UserFreeBefore(parse: string -> Option<Time>, blocks: seq<Dict>, due: Time): (r: seq<Slot>)
    ensures |r| <= |blocks|
    ensures forall i :: 0 <= i < |r| ==> r[i].1 <= due
  {
    if blocks == [] then []
    else
      var prior := UserFreeBefore(parse, blocks[..|blocks| - 1], due);
      match ParseBlock(parse, blocks[|blocks| - 1])
      case Some(s) => if s.1 <= due then prior + [s] else prior
      case None => prior
  }

  /** The blocks of every listed user that has a document, e-mail order
      first, block order second. */
  function FreeTimesBefore(store: Store, parse: string -> Option<Time>, emails: seq<string>, due: Time): (r: seq<Slot>)
    ensures forall i :: 0 <= i < |r| ==> r[i].1 <= due
  {
    if emails == [] then []
    else
      var prior := FreeTimesBefore(store, parse, emails[..|emails| - 1], due);
      var email := emails[|emails| - 1];
      if email in store.users then prior + UserFreeBefore(parse, store.users[email].freeTime, due)
      else prior
  }

  /** The inner loop of `fetch_user_free_times_before_due`: one user's
      blocks that parse and end by `due`, appended to what was found so far. */
  method AppendUserFreeBefore(parse: string -> Option<Time>, blocks: seq<Dict>, due: Time, found: seq<Slot>)
    returns (freeTimes: seq<Slot>)
    ensures freeTimes == found + UserFreeBefore(parse, blocks, due)
  {
    freeTimes := found;
    for j := 0 to |blocks|
      invariant freeTimes == found + UserFreeBefore(parse, blocks[..j], due)
    {
      assert blocks[..j + 1][..j] == blocks[..j];
      ghost var prior := UserFreeBefore(parse, blocks[..j], due);
      var block := ParseBlock(parse, blocks[j]);
      if block.None? {
        continue;
      }
      var (start, end) := block.value;
      if end <= due {
        assert found + prior + [(start, end)] == found + (prior + [(start, end)]);
        freeTimes := freeTimes + [(start, end)];
      }
    }
    assert blocks[..|blocks|] == blocks;
  }

  /** `fetch_user_free_times_before_due(emails, due)` for a `datetime` due. */
  method FetchUserFreeTimesBeforeDue(store: Store, parse: string -> Option<Time>, emails: seq<string>, due: Time)
    returns (freeTimes: seq<Slot>)
    ensures freeTimes == FreeTimesBefore(store, parse, emails, due)
    ensures forall i :: 0 <= i < |freeTimes| ==> freeTimes[i].1 <= due
  {
    freeTimes := [];
    for i := 0 to |emails|
      invariant freeTimes == FreeTimesBefore(store, parse, emails[..i], due)
    {
      assert emails[..i + 1][..i] == emails[..i];
      var email := emails[i];
      if email !in store.users {
        continue;
      }
      freeTimes := AppendUserFreeBefore(parse, store.users[email].freeTime, due, freeTimes);
    }
    assert emails[..|emails|] == emails;
  }

  /** A slot is kept for one user exactly when it is the parse of one of the
      user's blocks and ends no later than `due`. */
  lemma {:induction false} UserFreeBeforeMembers(parse: string -> Option<Time>, blocks: seq<Dict>, due: Time, p: Slot)
    ensures p in UserFreeBefore(parse, blocks, due) <==>
      (p.1 <= due && exists b :: 0 <= b < |blocks| && ParseBlock(parse, blocks[b]) == Some(p))
  {
    if blocks != [] {
      var init := blocks[..|blocks| - 1];
      UserFreeBeforeMembers(parse, init, due, p);
      if p.1 <= due && exists b :: 0 <= b < |blocks| && ParseBlock(parse, blocks[b]) == Some(p) {
        var b :| 0 <= b < |blocks| && ParseBlock(parse, blocks[b]) == Some(p);
        if b < |init| {
          assert init[b] == blocks[b];
        }
      }
      if exists b :: 0 <= b < |init| && ParseBlock(parse, init[b]) == Some(p) {
        var b :| 0 <= b < |init| && ParseBlock(parse, init[b]) == Some(p);
        assert blocks[b] == init[b];
      }
    }
  }

  /** A slot is fetched exactly when it is kept for one of the listed users
      who has a document. */
  lemma {:induction false} FreeTimesBeforeMembers(store: Store, parse: string -> Option<Time>, emails: seq<string>, due: Time, p: Slot)
    ensures p in FreeTimesBefore(store, parse, emails, due) <==>
      exists k :: 0 <= k < |emails| && emails[k] in store.users
        && p in UserFreeBefore(parse, store.users[emails[k]].freeTime, due)
  {
    if emails != [] {
      var init := emails[..|emails| - 1];
      FreeTimesBeforeMembers(store, parse, init, due, p);
      if exists k :: (0 <= k < |emails| && emails[k] in store.users
        && p in UserFreeBefore(parse, store.users[emails[k]].freeTime, due))
      {
        var k :| 0 <= k < |emails| && emails[k] in store.users
          && p in UserFreeBefore(parse, store.users[emails[k]].freeTime, due);
        if k < |init| {
          assert init[k] == emails[k];
        }
      }
      if exists k :: (0 <= k < |init| && init[k] in store.users
        && p in UserFreeBefore(parse, store.users[init[k]].freeTime, due))
      {
        var k :| 0 <= k < |init| && init[k] in store.users
          && p in UserFreeBefore(parse, store.users[init[k]].freeTime, due);
        assert emails[k] == init[k];
      }
    }
  }
}
