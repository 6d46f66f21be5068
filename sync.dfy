/** `send_user` of backend/db_utils.py: copying a `User` object into the
    store, with the skip rules for incomplete entries, the exceptions that
    stop the copy half-way, and the effect of each write. */
module Sync {
  import opened Wrappers
  import opened Models
  import opened CommonBlock
  import opened FreeTime

  /** The store writes: `create_user_firestore`, `add_assignment_to_user`
      (due already rendered as ISO text) and `add_free_time_to_user`. */
  datatype Write =
    | CreateUser(name: string, email: string)
    | AddAssignment(email: string, title: Value, due: string)
    | AddFreeTime(email: string, start: string, end: string)

  /** Python truthiness of a field value: `None` and `""` are false, every
      other string and every `datetime` is true. */
  predicate Truthy(v: Value)
  {
    match v
    case Null => false
    case Str(s) => s != []
    case When(_) => true
  }

  /** Python's `a or b`. */
  function Or(a: Value, b: Value): (r: Value)
    ensures Truthy(a) ==> r == a
    ensures !Truthy(a) ==> r == b
    ensures Truthy(r) <==> Truthy(a) || Truthy(b)
  {
    if Truthy(a) then a else b
  }

  /** `if isinstance(v, str): v = datetime.fromisoformat(v)` for a truthy
      value. */
  function Instant(parse: string -> Option<Time>, v: Value): (r: Result<Time, Fault>)
    requires Truthy(v)
    ensures v.When? ==> r == Ok(v.t)
    ensures v.Str? ==> (r.Ok? <==> parse(v.s).Some?)
    ensures v.Str? && r.Ok? ==> Some(r.value) == parse(v.s)
    ensures r.Err? ==> r.error == BadIsoFormat(v.s)
  {
    match v
    case When(t) => Ok(t)
    case Str(s) => if parse(s).Some? then Ok(parse(s).value) else Err(BadIsoFormat(s))
  }

  /** The title and due instant `send_user` reads from one assignment: the
      title falls back to "summary" and the due date to "end" whenever the
      first is falsy; `Ok(None)` is the `continue` for a falsy title or due. */
  function AssignmentFields(parse: string -> Option<Time>, a: Dict): (r: Result<Option<(Value, Time)>, Fault>)
    ensures var title := Or(Get(a, "title", Null), Get(a, "summary", Null));
      var due := Or(Get(a, "due", Null), Get(a, "end", Null));
      && (r == Ok(None) <==> !Truthy(title) || !Truthy(due))
      && (r.Err? <==> Truthy(title) && due.Str? && due.s != [] && parse(due.s).None?)
      && (r.Ok? && r.value.Some? ==> (r.value.value.0 == title && Truthy(title)
          && Ok(r.value.value.1) == Instant(parse, due)))
  {
    var title := Or(Get(a, "title", Null), Get(a, "summary", Null));
    var due := Or(Get(a, "due", Null), Get(a, "end", Null));
    if !Truthy(title) || !Truthy(due) then Ok(None)
    else
      match Instant(parse, due)
      case Err(f) => Err(f)
      case Ok(t) => Ok(Some((title, t)))
  }

  /** The window `send_user` reads from one free-time entry: a tuple raises,
      a falsy "start" or "end" is skipped, texts are parsed start first. */
  function BlockWindow(parse: string -> Option<Time>, f: FreeEntry): (r: Result<Option<Slot>, Fault>)
    ensures f.Pair? ==> r == Err(TupleHasNoGet)
    ensures f.Record? ==>
      var start := Get(f.fields, "start", Null);
      var end := Get(f.fields, "end", Null);
      && (r == Ok(None) <==> !Truthy(start) || !Truthy(end))
      && (r.Ok? && r.value.Some? ==>
            Ok(r.value.value.0) == Instant(parse, start) && Ok(r.value.value.1) == Instant(parse, end))
  {
    match f
    case Pair(_, _) => Err(TupleHasNoGet)
    case Record(d) =>
      var start := Get(d, "start", Null);
      var end := Get(d, "end", Null);
      if !Truthy(start) || !Truthy(end) then Ok(None)
      else
        match Instant(parse, start)
        case Err(e) => Err(e)
        case Ok(s) =>
          match Instant(parse, end)
          case Err(e) => Err(e)
          case Ok(t) => Ok(Some((s, t)))
  }

  /** The write one assignment leads to, if any. */
  function AssignmentWrite(hooks: Hooks, email: string, a: Dict): (r: Result<Option<Write>, Fault>)
    ensures r.Ok? && r.value.Some? ==> r.value.value.AddAssignment?
  {
    match AssignmentFields(hooks.parse, a)
    case Err(f) => Err(f)
    case Ok(None) => Ok(None)
    case Ok(Some((title, due))) => Ok(Some(AddAssignment(email, title, hooks.iso(due))))
  }

  function AssignmentWrites(hooks: Hooks, email: string, assignments: seq<Dict>): (r: seq<Result<Option<Write>, Fault>>)
    ensures |r| == |assignments|
    ensures forall i :: 0 <= i < |r| ==> r[i] == AssignmentWrite(hooks, email, assignments[i])
  {
    seq(|assignments|, i requires 0 <= i < |assignments| => AssignmentWrite(hooks, email, assignments[i]))
  }

  /** The write one free-time entry leads to, if any. */
  function BlockWrite(hooks: Hooks, email: string, f: FreeEntry): (r: Result<Option<Write>, Fault>)
    ensures r.Ok? && r.value.Some? ==> r.value.value.AddFreeTime?
  {
    match BlockWindow(hooks.parse, f)
    case Err(e) => Err(e)
    case Ok(None) => Ok(None)
    case Ok(Some((s, t))) => Ok(Some(AddFreeTime(email, hooks.iso(s), hooks.iso(t))))
  }

  function BlockWrites(hooks: Hooks, email: string, entries: seq<FreeEntry>): (r: seq<Result<Option<Write>, Fault>>)
    ensures |r| == |entries|
    ensures forall i :: 0 <= i < |r| ==> r[i] == BlockWrite(hooks, email, entries[i])
  {
    seq(|entries|, i requires 0 <= i < |entries| => BlockWrite(hooks, email, entries[i]))
  }

  /** `firestore.ArrayUnion([x])` applied to one list. */
  function Union<T(==,!new)>(xs: seq<T>, x: T): (r: seq<T>)
    ensures x in r
    ensures forall y :: y in r <==> y in xs || y == x
  {
    if x in xs then xs else xs + [x]
  }

  /** The dictionary `add_free_time_to_user` stores. */
  function FreeTimeEntry(start: string, end: string): Dict
  {
    map["start" := Str(start), "end" := Str(end)]
  }

  /** The effect of one write on the store. The "assignments" field of a
      user document is not part of `UserDoc`, so adding an assignment only
      touches the assignment's own document. */
  function Apply(store: Store, slug: (Value, Value) -> string, w: Write): Store
  {
    match w
    case CreateUser(_, e) => store.(users := store.users[e := UserDoc([])])
    case AddAssignment(e, title, due) =>
      var key := slug(title, Str(due));
      var students := if key in store.assignments then store.assignments[key] else [];
      store.(assignments := store.assignments[key := Union(students, e)])
    case AddFreeTime(e, s, t) =>
      if e in store.users
      then store.(users := store.users[e := UserDoc(Union(store.users[e].freeTime, FreeTimeEntry(s, t)))])
      else store
  }

  /** The store after some writes, the writes so far, and the exception
      that stopped the copy, if one did. */
  datatype Progress = Progress(store: Store, writes: seq<Write>, fault: Option<Fault>)

  function Perform(p: Progress, slug: (Value, Value) -> string, w: Write): (r: Progress)
    ensures r.writes == p.writes + [w] && r.fault == p.fault
  {
    Progress(Apply(p.store, slug, w), p.writes + [w], p.fault)
  }

  /** One entry of a loop: nothing after an exception; otherwise the entry
      raises, is skipped, or is written. */
  function Advance(slug: (Value, Value) -> string, p: Progress, x: Result<Option<Write>, Fault>): (r: Progress)
    ensures p.fault.Some? ==> r == p
    ensures |p.writes| <= |r.writes| <= |p.writes| + 1 && r.writes[..|p.writes|] == p.writes
  {
    if p.fault.Some? then p
    else
      match x
      case Err(f) => p.(fault := Some(f))
      case Ok(None) => p
      case Ok(Some(w)) => Perform(p, slug, w)
  }

  /** Carrying out the writes of one loop in order; the first exception
      ends the loop and everything after it. */
  function Replay(slug: (Value, Value) -> string, p: Progress, rs: seq<Result<Option<Write>, Fault>>): (r: Progress)
    ensures p.fault.Some? ==> r == p
    ensures |p.writes| <= |r.writes| <= |p.writes| + |rs| && r.writes[..|p.writes|] == p.writes
  {
    if rs == [] then p
    else Advance(slug, Replay(slug, p, rs[..|rs| - 1]), rs[|rs| - 1])
  }

  /** What `send_user` does for a user with the given fields. */
  function SendUserSpec(store: Store, hooks: Hooks, name: string, email: string,
                        assignments: seq<Dict>, entries: seq<FreeEntry>): Progress
  {
    var start := Progress(store, [], None);
    var created := if email in store.users then start else Perform(start, hooks.slug, CreateUser(name, email));
    var afterAssignments := Replay(hooks.slug, created, AssignmentWrites(hooks, email, assignments));
    if afterAssignments.fault.Some? then afterAssignments
    else Replay(hooks.slug, afterAssignments, BlockWrites(hooks, email, entries))
  }

  /** Once some prefix of a loop has raised, the whole loop ends there. */
  lemma {:induction false} ReplayStopsAtFault(slug: (Value, Value) -> string, p: Progress,
                                              rs: seq<Result<Option<Write>, Fault>>, k: nat)
    requires k <= |rs| && Replay(slug, p, rs[..k]).fault.Some?
    ensures Replay(slug, p, rs) == Replay(slug, p, rs[..k])
    decreases |rs|
  {
    if k < |rs| {
      assert rs[..|rs| - 1][..k] == rs[..k];
      ReplayStopsAtFault(slug, p, rs[..|rs| - 1], k);
    } else {
      assert rs[..k] == rs;
    }
  }

  lemma ReplayNext(slug: (Value, Value) -> string, p: Progress, rs: seq<Result<Option<Write>, Fault>>, i: nat)
    requires i < |rs|
    ensures Replay(slug, p, rs[..i + 1]) == Advance(slug, Replay(slug, p, rs[..i]), rs[i])
  {
    assert rs[..i + 1][..i] == rs[..i];
  }

  /** The assignment loop of `send_user`, from the progress so far. */
  method CopyAssignments(hooks: Hooks, email: string, assignments: seq<Dict>, p: Progress) returns (r: Progress)
    requires p.fault.None?
    ensures r == Replay(hooks.slug, p, AssignmentWrites(hooks, email, assignments))
  {
    r := p;
    ghost var aws := AssignmentWrites(hooks, email, assignments);
    for i := 0 to |assignments|
      invariant r == Replay(hooks.slug, p, aws[..i]) && r.fault.None?
    {
      ReplayNext(hooks.slug, p, aws, i);
      ghost var before := r;
      var fields := AssignmentFields(hooks.parse, assignments[i]);
      if fields.Err? {
        r := r.(fault := Some(fields.error));
        assert r == Advance(hooks.slug, before, aws[i]);
        ReplayStopsAtFault(hooks.slug, p, aws, i + 1);
        return;
      }
      if fields.value.None? {
        continue;
      }
      var (title, due) := fields.value.value;
      r := Perform(r, hooks.slug, AddAssignment(email, title, hooks.iso(due)));
      assert r == Advance(hooks.slug, before, aws[i]);
    }
    assert aws[..|aws|] == aws;
  }

  /** The free-time loop of `send_user`, from the progress so far. */
  method CopyFreeTime(hooks: Hooks, email: string, entries: seq<FreeEntry>, p: Progress) returns (r: Progress)
    requires p.fault.None?
    ensures r == Replay(hooks.slug, p, BlockWrites(hooks, email, entries))
  {
    r := p;
    ghost var bws := BlockWrites(hooks, email, entries);
    for j := 0 to |entries|
      invariant r == Replay(hooks.slug, p, bws[..j]) && r.fault.None?
    {
      ReplayNext(hooks.slug, p, bws, j);
      ghost var before := r;
      var window := BlockWindow(hooks.parse, entries[j]);
      if window.Err? {
        r := r.(fault := Some(window.error));
        assert r == Advance(hooks.slug, before, bws[j]);
        ReplayStopsAtFault(hooks.slug, p, bws, j + 1);
        return;
      }
      if window.value.None? {
        continue;
      }
      var (start, end) := window.value.value;
      r := Perform(r, hooks.slug, AddFreeTime(email, hooks.iso(start), hooks.iso(end)));
      assert r == Advance(hooks.slug, before, bws[j]);
    }
    assert bws[..|bws|] == bws;
  }

  /** `send_user(user)`: the user's document first, then the two loops; an
      exception in the first loop skips the second. */
  method SendUser(store: Store, hooks: Hooks, user: User) returns (r: Progress)
    ensures r == SendUserSpec(store, hooks, user.name, user.email, user.assignments, user.freeTime)
  {
    r := Progress(store, [], None);
    if user.email !in store.users {
      r := Perform(r, hooks.slug, CreateUser(user.name, user.email));
    }
    r := CopyAssignments(hooks, user.email, user.assignments, r);
    if r.fault.Some? {
      return;
    }
    r := CopyFreeTime(hooks, user.email, user.freeTime, r);
  }

  // ---------------------------------------------------------------------
  // What the writes leave behind

  /** The store shows the effect of a write. */
  predicate Holds(store: Store, slug: (Value, Value) -> string, w: Write)
  {
    match w
    case CreateUser(_, e) => e in store.users
    case AddAssignment(e, title, due) =>
      slug(title, Str(due)) in store.assignments && e in store.assignments[slug(title, Str(due))]
    case AddFreeTime(e, s, t) => e in store.users && FreeTimeEntry(s, t) in store.users[e].freeTime
  }

  /** A write other than a user creation keeps the effect of every earlier write. */
  lemma ApplyKeeps(store: Store, slug: (Value, Value) -> string, v: Write, w: Write)
    requires !w.CreateUser? && Holds(store, slug, v)
    ensures Holds(Apply(store, slug, w), slug, v)
  {
  }

  /** The writes of the two loops never create a user. */
  predicate NoCreation(rs: seq<Result<Option<Write>, Fault>>)
  {
    forall k :: 0 <= k < |rs| && rs[k].Ok? && rs[k].value.Some? ==> !rs[k].value.value.CreateUser?
  }

  lemma WritesCreateNoUser(hooks: Hooks, email: string, assignments: seq<Dict>, entries: seq<FreeEntry>)
    ensures NoCreation(AssignmentWrites(hooks, email, assignments))
    ensures NoCreation(BlockWrites(hooks, email, entries))
  {
  }

  lemma {:induction false} ReplayKeeps(slug: (Value, Value) -> string, p: Progress,
                                       rs: seq<Result<Option<Write>, Fault>>, v: Write)
    requires NoCreation(rs) && Holds(p.store, slug, v)
    ensures Holds(Replay(slug, p, rs).store, slug, v)
  {
    if rs != [] {
      var init := rs[..|rs| - 1];
      ReplayKeeps(slug, p, init, v);
      var prior := Replay(slug, p, init);
      if prior.fault.None? {
        match rs[|rs| - 1]
        case Err(_) =>
        case Ok(None) =>
        case Ok(Some(w)) =>
          assert !w.CreateUser?;
          ApplyKeeps(prior.store, slug, v, w);
      }
    }
  }

  /** When a loop runs to the end, every write it issued shows in the store. */
  lemma {:induction false} ReplayEffect(slug: (Value, Value) -> string, p: Progress,
                                        rs: seq<Result<Option<Write>, Fault>>, i: nat, w: Write)
    requires NoCreation(rs) && Replay(slug, p, rs).fault.None?
    requires i < |rs| && rs[i] == Ok(Some(w))
    requires w.AddFreeTime? ==> w.email in p.store.users
    ensures Holds(Replay(slug, p, rs).store, slug, w)
  {
    var init := rs[..|rs| - 1];
    var prior := Replay(slug, p, init);
    assert prior.fault.None?;
    if i < |init| {
      ReplayEffect(slug, p, init, i, w);
      match rs[|rs| - 1]
      case Err(_) =>
      case Ok(None) =>
      case Ok(Some(x)) =>
        assert !x.CreateUser?;
        ApplyKeeps(prior.store, slug, w, x);
    } else {
      if w.AddFreeTime? {
        ReplayKeeps(slug, p, init, CreateUser([], w.email));
      }
    }
  }

  /** After `send_user` the user's document exists, whether or not the copy
      raised half-way, and it was created first exactly when it was
      missing. At most one write is issued per entry. */
  lemma SendUserCreates(store: Store, hooks: Hooks, name: string, email: string,
                        assignments: seq<Dict>, entries: seq<FreeEntry>)
    ensures var r := SendUserSpec(store, hooks, name, email, assignments, entries);
      && email in r.store.users
      && (email !in store.users <==> |r.writes| > 0 && r.writes[0] == CreateUser(name, email))
      && |r.writes| <= 1 + |assignments| + |entries|
  {
    var start := Progress(store, [], None);
    var created := if email in store.users then start else Perform(start, hooks.slug, CreateUser(name, email));
    var aws := AssignmentWrites(hooks, email, assignments);
    var bws := BlockWrites(hooks, email, entries);
    WritesCreateNoUser(hooks, email, assignments, entries);
    ReplayKeeps(hooks.slug, created, aws, CreateUser(name, email));
    var afterAssignments := Replay(hooks.slug, created, aws);
    ReplayKeeps(hooks.slug, afterAssignments, bws, CreateUser(name, email));
    var r := SendUserSpec(store, hooks, name, email, assignments, entries);
    if email in store.users && |r.writes| > 0 {
      if |afterAssignments.writes| > 0 {
        ReplayWritesFrom(hooks.slug, created, aws, 0);
        assert r.writes[0] == afterAssignments.writes[0];
      } else {
        ReplayWritesFrom(hooks.slug, afterAssignments, bws, 0);
      }
    }
  }

  /** Every write a loop adds is one of its entries' writes. */
  lemma {:induction false} ReplayWritesFrom(slug: (Value, Value) -> string, p: Progress,
                                            rs: seq<Result<Option<Write>, Fault>>, k: nat)
    requires NoCreation(rs) && |p.writes| <= k < |Replay(slug, p, rs).writes|
    ensures !Replay(slug, p, rs).writes[k].CreateUser?
  {
    var init := rs[..|rs| - 1];
    var prior := Replay(slug, p, init);
    if k < |prior.writes| {
      ReplayWritesFrom(slug, p, init, k);
    }
  }

  /** An assignment `send_user` copied completely is listed under its
      document, so every other student's `get_overlapping_users_for_assignment`
      for the same title and due instant returns this user. */
  lemma SentAssignmentIsShared(store: Store, hooks: Hooks, name: string, email: string,
                               assignments: seq<Dict>, entries: seq<FreeEntry>,
                               i: nat, title: Value, due: Time, other: string)
    requires SendUserSpec(store, hooks, name, email, assignments, entries).fault.None?
    requires i < |assignments| && AssignmentFields(hooks.parse, assignments[i]) == Ok(Some((title, due)))
    requires other != email
    ensures email in OtherStudents(SendUserSpec(store, hooks, name, email, assignments, entries).store,
                                   hooks, other, title, When(due))
  {
    var start := Progress(store, [], None);
    var created := if email in store.users then start else Perform(start, hooks.slug, CreateUser(name, email));
    var aws := AssignmentWrites(hooks, email, assignments);
    var bws := BlockWrites(hooks, email, entries);
    var w := AddAssignment(email, title, hooks.iso(due));
    assert aws[i] == Ok(Some(w));
    WritesCreateNoUser(hooks, email, assignments, entries);
    ReplayEffect(hooks.slug, created, aws, i, w);
    ReplayKeeps(hooks.slug, Replay(hooks.slug, created, aws), bws, w);
  }

  /** A free-time window `send_user` copied completely is fetched back for
      any due date it ends by, provided `fromisoformat` reads back what
      `isoformat` writes. */
  lemma SentFreeTimeIsFetched(store: Store, hooks: Hooks, name: string, email: string,
                              assignments: seq<Dict>, entries: seq<FreeEntry>,
                              j: nat, window: Slot, due: Time)
    requires SendUserSpec(store, hooks, name, email, assignments, entries).fault.None?
    requires j < |entries| && BlockWindow(hooks.parse, entries[j]) == Ok(Some(window))
    requires hooks.parse(hooks.iso(window.0)) == Some(window.0)
    requires hooks.parse(hooks.iso(window.1)) == Some(window.1)
    requires window.1 <= due
    ensures window in FreeTimesBefore(SendUserSpec(store, hooks, name, email, assignments, entries).store,
                                      hooks.parse, [email], due)
  {
    var r := SendUserSpec(store, hooks, name, email, assignments, entries);
    SentFreeTimeIsStored(store, hooks, name, email, assignments, entries, j, window);
    var entry := FreeTimeEntry(hooks.iso(window.0), hooks.iso(window.1));
    assert ParseBlock(hooks.parse, entry) == Some(window);
    StoredIsFetched(r.store, hooks.parse, email, entry, window, due);
  }

  /** After a complete `send_user`, each copied window is stored, as its
      `isoformat` texts, in the user's document. */
  lemma SentFreeTimeIsStored(store: Store, hooks: Hooks, name: string, email: string,
                             assignments: seq<Dict>, entries: seq<FreeEntry>, j: nat, window: Slot)
    requires SendUserSpec(store, hooks, name, email, assignments, entries).fault.None?
    requires j < |entries| && BlockWindow(hooks.parse, entries[j]) == Ok(Some(window))
    ensures Holds(SendUserSpec(store, hooks, name, email, assignments, entries).store, hooks.slug,
                  AddFreeTime(email, hooks.iso(window.0), hooks.iso(window.1)))
  {
    var start := Progress(store, [], None);
    var created := if email in store.users then start else Perform(start, hooks.slug, CreateUser(name, email));
    var aws := AssignmentWrites(hooks, email, assignments);
    var bws := BlockWrites(hooks, email, entries);
    WritesCreateNoUser(hooks, email, assignments, entries);
    var afterAssignments := Replay(hooks.slug, created, aws);
    var r := SendUserSpec(store, hooks, name, email, assignments, entries);
    assert afterAssignments.fault.None? && r == Replay(hooks.slug, afterAssignments, bws);
    ReplayKeeps(hooks.slug, created, aws, CreateUser(name, email));
    var w := AddFreeTime(email, hooks.iso(window.0), hooks.iso(window.1));
    assert bws[j] == Ok(Some(w));
    ReplayEffect(hooks.slug, afterAssignments, bws, j, w);
  }


  /** A stored block that parses to a window ending by `due` is fetched. */
  lemma StoredIsFetched(store: Store, parse: string -> Option<Time>, email: string, entry: Dict, window: Slot, due: Time)
    requires email in store.users && entry in store.users[email].freeTime
    requires ParseBlock(parse, entry) == Some(window) && window.1 <= due
    ensures window in FreeTimesBefore(store, parse, [email], due)
  {
    var blocks := store.users[email].freeTime;
    var b :| 0 <= b < |blocks| && blocks[b] == entry;
    UserFreeBeforeMembers(parse, blocks, due, window);
    FreeTimesBeforeMembers(store, parse, [email], due, window);
    assert [email][0] == email;
  }
}
