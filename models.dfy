/** The backend's `User` record (backend/models.py): a name, an e-mail and
    two lists of loosely typed dictionaries, with in-place appends and a
    normalising conversion to plain dictionaries. */
module Models {
  import opened Wrappers

  /** Instants are whole seconds on the naive local timeline that Python's
      `datetime` objects of this program live on. */
  type Time = int

  /** A field value of one of the program's dictionaries: Python `None`, a
      string, or a `datetime`. */
  datatype Value = Null | Str(s: string) | When(t: Time)

  /** A Python dictionary with string keys. */
  type Dict = map<string, Value>

  /** `d.get(key, default)`. */
  function Get(d: Dict, key: string, default: Value): (v: Value)
    ensures key in d ==> v == d[key]
    ensures key !in d ==> v == default
  {
    if key in d then d[key] else default
  }

  /** An entry of `free_time`: a `(start, end)` tuple or a dictionary. */
  datatype FreeEntry = Pair(first: Value, second: Value) | Record(fields: Dict)

  /** The dictionaries `to_dict` produces. */
  datatype AssignmentRecord = AssignmentRecord(title: Value, due: Value)
  datatype SlotRecord = SlotRecord(start: Value, end: Value)
  datatype UserRecord = UserRecord(
    name: string,
    email: string,
    assignments: seq<AssignmentRecord>,
    freeTime: seq<SlotRecord>)

  /** `serialize_time`: a `datetime` becomes its ISO text (`iso` stands for
      `datetime.isoformat`); every other value is returned unchanged. */
  function SerializeTime(iso: Time -> string, v: Value): (r: Value)
    ensures !r.When?
    ensures !v.When? ==> r == v
    ensures v.When? ==> r == Str(iso(v.t))
  {
    match v
    case When(t) => Str(iso(t))
    case _ => v
  }

  /** `normalize_free_time`: a 2-tuple becomes `{"start", "end"}`, a
      dictionary passes through. */
  function NormalizeFreeTime(f: FreeEntry): (r: FreeEntry)
    ensures r.Record?
    ensures f.Record? ==> r == f
    ensures f.Pair? ==> ("start" in r.fields && "end" in r.fields
      && r.fields["start"] == f.first && r.fields["end"] == f.second)
  {
    match f
    case Pair(a, b) => Record(map["start" := a, "end" := b])
    case Record(_) => f
  }

  /** Whether `normalize_free_time(f)["start"]` and `["end"]` can be read
      without a `KeyError`. */
  predicate HasWindowKeys(f: FreeEntry)
  {
    var n := NormalizeFreeTime(f);
    "start" in n.fields && "end" in n.fields
  }

  /** `to_dict`'s entry for one assignment: the title falls back to
      "summary" and the due date to "end" only when the key is absent. */
  function AssignmentToRecord(iso: Time -> string, a: Dict): (r: AssignmentRecord)
    ensures "title" in a ==> r.title == a["title"]
    ensures "title" !in a && "summary" in a ==> r.title == a["summary"]
    ensures "title" !in a && "summary" !in a ==> r.title == Null
    ensures !r.due.When?
    ensures "due" in a ==> r.due == SerializeTime(iso, a["due"])
    ensures "due" !in a ==> r.due == SerializeTime(iso, Get(a, "end", Null))
  {
    AssignmentRecord(Get(a, "title", Get(a, "summary", Null)),
                     SerializeTime(iso, Get(a, "due", Get(a, "end", Null))))
  }

  /** `to_dict`'s entry for one free-time block; `None` stands for the
      `KeyError` raised when a dictionary lacks "start" or "end". */
  function SlotToRecord(iso: Time -> string, f: FreeEntry): (r: Option<SlotRecord>)
    ensures r.Some? <==> HasWindowKeys(f)
    ensures r.Some? ==> !r.value.start.When? && !r.value.end.When?
    ensures f.Pair? ==> r == Some(SlotRecord(SerializeTime(iso, f.first), SerializeTime(iso, f.second)))
  {
    var n := NormalizeFreeTime(f);
    if "start" in n.fields && "end" in n.fields then
      Some(SlotRecord(SerializeTime(iso, n.fields["start"]), SerializeTime(iso, n.fields["end"])))
    else None
  }

  /** The `assignments` comprehension of `to_dict`. */
  function AssignmentRecords(iso: Time -> string, assignments: seq<Dict>): (r: seq<AssignmentRecord>)
    ensures |r| == |assignments|
    ensures forall i :: 0 <= i < |r| ==> r[i] == AssignmentToRecord(iso, assignments[i])
  {
    if assignments == [] then []
    else [AssignmentToRecord(iso, assignments[0])] + AssignmentRecords(iso, assignments[1..])
  }

  /** The `free_time` comprehension of `to_dict`; it fails as a whole as
      soon as one entry lacks a key. */
  function SlotRecords(iso: Time -> string, entries: seq<FreeEntry>): (r: Option<seq<SlotRecord>>)
    ensures r.Some? <==> forall i :: 0 <= i < |entries| ==> HasWindowKeys(entries[i])
    ensures r.Some? ==> (|r.value| == |entries|
      && forall i :: 0 <= i < |entries| ==> Some(r.value[i]) == SlotToRecord(iso, entries[i]))
  {
    if entries == [] then Some([])
    else
      match (SlotToRecord(iso, entries[0]), SlotRecords(iso, entries[1..]))
      case (Some(x), Some(rest)) => Some([x] + rest)
      case _ => None
  }

  /** The entry `add_assignment` appends. */
  function NewAssignment(title: Value, due: Value): (d: Dict)
  {
    map["title" := title, "due" := due]
  }

  /** The entry `add_free_time` appends, and each entry
      `set_free_time_from_blocks` builds. */
  function NewFreeTime(start: Value, end: Value): (f: FreeEntry)
  {
    Record(map["start" := start, "end" := end])
  }

  function FreeTimeFromBlocks(blocks: seq<(Value, Value)>): (r: seq<FreeEntry>)
    ensures |r| == |blocks|
    ensures forall i :: 0 <= i < |blocks| ==> r[i] == NewFreeTime(blocks[i].0, blocks[i].1)
  {
    if blocks == [] then [] else [NewFreeTime(blocks[0].0, blocks[0].1)] + FreeTimeFromBlocks(blocks[1..])
  }

  class User {
    var name: string
    var email: string
    var assignments: seq<Dict>
    var freeTime: seq<FreeEntry>

    /** `None` (or an empty list) for either list starts it empty. */
    constructor(name: string, email: string, assignments: Option<seq<Dict>>, freeTime: Option<seq<FreeEntry>>)
      ensures this.name == name && this.email == email
      ensures this.assignments == if assignments.Some? then assignments.value else []
      ensures this.freeTime == if freeTime.Some? then freeTime.value else []
    {
      this.name := name;
      this.email := email;
      this.assignments := if assignments.Some? then assignments.value else [];
      this.freeTime := if freeTime.Some? then freeTime.value else [];
    }

    /** `to_dict`: `None` when a free-time dictionary lacks "start" or "end"
        (the `KeyError` case); otherwise both lists keep their length and
        order and no `datetime` is left in them. */
    function ToDict(iso: Time -> string): (r: Option<UserRecord>)
      reads this
      ensures r.Some? <==> forall i :: 0 <= i < |freeTime| ==> HasWindowKeys(freeTime[i])
      ensures r.Some? ==> r.value.name == name && r.value.email == email
      ensures r.Some? ==> |r.value.assignments| == |assignments| && |r.value.freeTime| == |freeTime|
      ensures r.Some? ==> forall i :: 0 <= i < |assignments| ==>
        r.value.assignments[i] == AssignmentToRecord(iso, assignments[i])
      ensures r.Some? ==> forall i :: 0 <= i < |freeTime| ==>
        Some(r.value.freeTime[i]) == SlotToRecord(iso, freeTime[i])
    {
      match SlotRecords(iso, freeTime)
      case Some(slots) => Some(UserRecord(name, email, AssignmentRecords(iso, assignments), slots))
      case None => None
    }

    method AddAssignment(title: Value, due: Value)
      modifies this
      ensures assignments == old(assignments) + [NewAssignment(title, due)]
      ensures name == old(name) && email == old(email) && freeTime == old(freeTime)
    {
      assignments := assignments + [NewAssignment(title, due)];
    }

    method AddFreeTime(start: Value, end: Value)
      modifies this
      ensures freeTime == old(freeTime) + [NewFreeTime(start, end)]
      ensures name == old(name) && email == old(email) && assignments == old(assignments)
    {
      freeTime := freeTime + [NewFreeTime(start, end)];
    }

    /** Replaces `free_time` by one `{"start", "end"}` entry per pair, in order. */
    method SetFreeTimeFromBlocks(blocks: seq<(Value, Value)>)
      modifies this
      ensures freeTime == FreeTimeFromBlocks(blocks)
      ensures name == old(name) && email == old(email) && assignments == old(assignments)
    {
      freeTime := FreeTimeFromBlocks(blocks);
    }
  }

  /** After `add_assignment`, `to_dict` lists one more assignment, at the
      end, whose title and due date are the ones given. */
  lemma {:induction false} AddAssignmentShowsInDict(iso: Time -> string, assignments: seq<Dict>, title: Value, due: Value)
    ensures AssignmentRecords(iso, assignments + [NewAssignment(title, due)])
      == AssignmentRecords(iso, assignments) + [AssignmentRecord(title, SerializeTime(iso, due))]
  {
    var r := AssignmentRecords(iso, assignments + [NewAssignment(title, due)]);
    var e := AssignmentRecords(iso, assignments) + [AssignmentRecord(title, SerializeTime(iso, due))];
    assert |r| == |e|;
    forall i | 0 <= i < |r| ensures r[i] == e[i] {
      if i < |assignments| {
        assert (assignments + [NewAssignment(title, due)])[i] == assignments[i];
      }
    }
  }

  /** After `add_free_time`, `to_dict` succeeds exactly as before and lists
      one more block, at the end. */
  lemma {:induction false} AddFreeTimeShowsInDict(iso: Time -> string, entries: seq<FreeEntry>, start: Value, end: Value)
    ensures var after := SlotRecords(iso, entries + [NewFreeTime(start, end)]);
      var before := SlotRecords(iso, entries);
      && (after.Some? <==> before.Some?)
      && (after.Some? ==> after.value == before.value + [SlotRecord(SerializeTime(iso, start), SerializeTime(iso, end))])
  {
    var es := entries + [NewFreeTime(start, end)];
    assert forall i :: 0 <= i < |entries| ==> es[i] == entries[i];
    assert HasWindowKeys(es[|entries|]);
    var after := SlotRecords(iso, es);
    var before := SlotRecords(iso, entries);
    if after.Some? {
      var e := before.value + [SlotRecord(SerializeTime(iso, start), SerializeTime(iso, end))];
      forall i | 0 <= i < |es| ensures after.value[i] == e[i] {
        assert Some(after.value[i]) == SlotToRecord(iso, es[i]);
        if i < |entries| {
          assert Some(before.value[i]) == SlotToRecord(iso, entries[i]);
        }
      }
    }
  }

  /** `set_free_time_from_blocks` followed by `to_dict` gives back the pairs,
      in order, with any `datetime` serialised. */
  lemma {:induction false} BlocksRoundTrip(iso: Time -> string, blocks: seq<(Value, Value)>)
    ensures var r := SlotRecords(iso, FreeTimeFromBlocks(blocks));
      && r.Some? && |r.value| == |blocks|
      && forall i :: 0 <= i < |blocks| ==>
           r.value[i] == SlotRecord(SerializeTime(iso, blocks[i].0), SerializeTime(iso, blocks[i].1))
  {
    var es := FreeTimeFromBlocks(blocks);
    forall i | 0 <= i < |es| ensures HasWindowKeys(es[i]) {
      assert es[i] == NewFreeTime(blocks[i].0, blocks[i].1);
    }
    var r := SlotRecords(iso, es);
    forall i | 0 <= i < |blocks|
      ensures r.value[i] == SlotRecord(SerializeTime(iso, blocks[i].0), SerializeTime(iso, blocks[i].1))
    {
      assert Some(r.value[i]) == SlotToRecord(iso, es[i]);
    }
  }
}
