/**
  The process store: the list of process records (each a BPMN diagram with
  its metadata), the selected record, and the record list kept in durable
  storage.

  Actions are pure transitions from one `Store` to the next. The clock and
  the random id generator are parameters: `now` is the timestamp the action
  reads, `freshId` the id it would generate. Storage holds the record list
  as reading and parsing it yields; JSON encoding is outside the model, and
  `Save` writes the raw form of every record.
 */
module ProcessStore {
  import opened Js

  /** The diagram a record gets when it has none of its own. */
  const DefaultBpmn: string := JoinLines(DefaultBpmnLines)

  /** The lines of the default diagram. */
  const DefaultBpmnLines: seq<string> := [
    "<?xml version=\"1.0\" encoding=\"UTF-8\"?>",
    "<bpmn:definitions xmlns:xsi=\"http://www.w3.org/2001/XMLSchema-instance\" xmlns:bpmn=\"http://www.omg.org/spec/BPMN/20100524/MODEL\" xmlns:bpmndi=\"http://www.omg.org/spec/BPMN/20100524/DI\" xmlns:dc=\"http://www.omg.org/spec/DD/20100524/DC\" xmlns:di=\"http://www.omg.org/spec/DD/20100524/DI\" id=\"Definitions_1\" targetNamespace=\"http://bpmn.io/schema/bpmn\">",
    "  <bpmn:process id=\"Process_1\" isExecutable=\"false\">",
    "    <bpmn:startEvent id=\"StartEvent_1\" name=\"Start\" />",
    "  </bpmn:process>",
    "  <bpmndi:BPMNDiagram id=\"BPMNDiagram_1\">",
    "    <bpmndi:BPMNPlane id=\"BPMNPlane_1\" bpmnElement=\"Process_1\">",
    "      <bpmndi:BPMNShape id=\"StartEvent_1_di\" bpmnElement=\"StartEvent_1\">",
    "        <dc:Bounds x=\"186\" y=\"81\" width=\"36\" height=\"36\" />",
    "      </bpmndi:BPMNShape>",
    "    </bpmndi:BPMNPlane>",
    "  </bpmndi:BPMNDiagram>",
    "</bpmn:definitions>"
  ]

  /** The lines joined with newline characters. */
  function JoinLines(lines: seq<string>): (r: string)
    ensures |lines| > 0 ==> |r| >= |lines[0]|
  {
    if |lines| == 0 then ""
    else if |lines| == 1 then lines[0]
    else lines[0] + "\n" + JoinLines(lines[1..])
  }

  const UntitledName := "Untitled process"
  const NewProcessName := "New process"
  const ImportedName := "Imported process"
  const PublishedText := "published"
  const DraftText := "draft"

  datatype Status = Draft | Published

  /** A normalised process record. */
  datatype Process = Process(
    id: string,
    name: string,
    area: Option<string>,
    parentId: Option<string>,
    status: Status,
    version: nat,
    createdAt: string,
    updatedAt: string,
    bpmnXml: string)

  /**
    A record as parsed from storage, every field possibly absent. A list item
    that is not an object at all reads as the record with every field absent.
    `version` is the field's numeric value when it is a finite number (the
    model keeps whole numbers only) and absent otherwise.
   */
  datatype RawProcess = RawProcess(
    id: Option<string>,
    name: Option<string>,
    area: Option<string>,
    parentId: Option<string>,
    status: Option<string>,
    version: Option<int>,
    createdAt: Option<string>,
    updatedAt: Option<string>,
    bpmnXml: Option<string>)

  /** The stored record list as read back. */
  datatype Record = NoRecord | Unparsable | NotAnArray | Items(items: seq<RawProcess>)

  datatype Store = Store(processes: seq<Process>, selected: Option<Process>, storage: Record)

  /**
    The fields `updateProcess` may change; `None` is a field left undefined.
    For `area` and `parentId`, `Some(None)` sets the field to null.
   */
  datatype Patch = Patch(
    name: Option<string>,
    area: Option<Option<string>>,
    parentId: Option<Option<string>>,
    status: Option<string>,
    bpmnXml: Option<string>)

  /**
    A record with every field filled: the form `normalizeProcess` produces
    when the clock and id generator yield non-empty text, and the form that
    survives saving and reloading unchanged. Creating, importing or updating
    with an empty name or diagram leaves a record that is not well formed.
   */
  predicate WellFormed(p: Process) {
    && p.id != "" && p.name != "" && p.version > 0
    && p.createdAt != "" && p.updatedAt != "" && p.bpmnXml != ""
  }

  /** The stored text of a status. */
  function StatusText(s: Status): string {
    if s == Published then PublishedText else DraftText
  }

  /** Only the exact text "published" publishes; anything else is a draft. */
  function ParseStatus(raw: Option<string>): (r: Status)
    ensures r == Published <==> raw == Some(PublishedText)
  {
    if raw == Some(PublishedText) then Published else Draft
  }

  /** No two records share an id. */
  predicate UniqueIds(ps: seq<Process>) {
    forall i, j :: 0 <= i < j < |ps| ==> ps[i].id != ps[j].id
  }

  /** A version is kept when it is a positive number and becomes 1 otherwise. */
  function NormalizeVersion(v: Option<int>): (r: nat)
    ensures r > 0
    ensures v.Some? && v.value > 0 ==> r == v.value
    ensures !(v.Some? && v.value > 0) ==> r == 1
  {
    if v.Some? && v.value > 0 then v.value else 1
  }

  /**
    Turns a stored record into a process record. A missing or empty id,
    name, diagram or time gets its default: a generated id, "Untitled
    process", the default diagram, the update time (itself defaulting to
    now) as the creation time. A missing area or parent becomes null, while
    an empty one is kept. A version that is not positive becomes 1, and any
    status other than published is draft.
   */
  function Normalize(raw: RawProcess, now: string, freshId: string): (p: Process)
    ensures p.status == Published <==> raw.status == Some(PublishedText)
    ensures p.version > 0
    ensures raw.version.Some? && raw.version.value > 0 ==> p.version == raw.version.value
    ensures !(raw.version.Some? && raw.version.value > 0) ==> p.version == 1
    ensures p.name != "" && p.bpmnXml != ""
    ensures Truthy(raw.name) ==> p.name == raw.name.value
    ensures !Truthy(raw.name) ==> p.name == UntitledName
    ensures Truthy(raw.bpmnXml) ==> p.bpmnXml == raw.bpmnXml.value
    ensures !Truthy(raw.bpmnXml) ==> p.bpmnXml == DefaultBpmn
    ensures p.area == raw.area && p.parentId == raw.parentId
    ensures Truthy(raw.updatedAt) ==> p.updatedAt == raw.updatedAt.value
    ensures !Truthy(raw.updatedAt) ==> p.updatedAt == now
    ensures Truthy(raw.createdAt) ==> p.createdAt == raw.createdAt.value
    ensures !Truthy(raw.createdAt) ==> p.createdAt == p.updatedAt
    ensures Truthy(raw.id) ==> p.id == raw.id.value
    ensures !Truthy(raw.id) ==> p.id == freshId
    ensures now != "" && freshId != "" ==> WellFormed(p)
  {
    assert |DefaultBpmn| >= |DefaultBpmnLines[0]| > 0;
    var updatedAt := Or(raw.updatedAt, now);
    Process(
      Or(raw.id, freshId),
      Or(raw.name, UntitledName),
      raw.area,
      raw.parentId,
      ParseStatus(raw.status),
      NormalizeVersion(raw.version),
      Or(raw.createdAt, updatedAt),
      updatedAt,
      Or(raw.bpmnXml, DefaultBpmn))
  }

  /** The stored form of a record (what parsing its JSON text gives back). */
  function ToRaw(p: Process): RawProcess {
    RawProcess(Some(p.id), Some(p.name), p.area, p.parentId, Some(StatusText(p.status)),
               Some(p.version), Some(p.createdAt), Some(p.updatedAt), Some(p.bpmnXml))
  }

  function RawList(ps: seq<Process>): (r: seq<RawProcess>)
    ensures |r| == |ps|
    ensures forall i :: 0 <= i < |ps| ==> r[i] == ToRaw(ps[i])
  {
    seq(|ps|, i requires 0 <= i < |ps| => ToRaw(ps[i]))
  }

  /** Storage holds exactly the stored form of the in-memory list. */
  predicate Persisted(st: Store) {
    st.storage == Items(RawList(st.processes))
  }

  /** `saveToStorage`: writes the whole list. */
  function Save(st: Store): (r: Store)
    ensures r.processes == st.processes && r.selected == st.selected
    ensures Persisted(r)
  {
    st.(storage := Items(RawList(st.processes)))
  }

  /**
    `loadFromStorage`: a stored list is normalised item by item (item `i`
    receiving `freshId(i)` should it need an id); anything else stored, or
    nothing, gives an empty list.
   */
  function LoadFromStorage(st: Store, now: string, freshId: nat -> string): (r: Store)
    ensures r.selected == st.selected && r.storage == st.storage
    ensures !st.storage.Items? ==> r.processes == []
    ensures st.storage.Items? ==>
              && |r.processes| == |st.storage.items|
              && forall i :: 0 <= i < |r.processes| ==>
                   r.processes[i] == Normalize(st.storage.items[i], now, freshId(i))
    ensures now != "" && (forall i: nat :: freshId(i) != "") ==>
              forall i :: 0 <= i < |r.processes| ==> WellFormed(r.processes[i])
  {
    match st.storage
    case Items(items) =>
      st.(processes := seq(|items|, i requires 0 <= i < |items| => Normalize(items[i], now, freshId(i))))
    case _ => st.(processes := [])
  }

  /** The first record carrying `id`, or null. */
  function GetProcessById(ps: seq<Process>, id: string): (r: Option<Process>)
    ensures r.Some? <==> exists i :: 0 <= i < |ps| && ps[i].id == id
    ensures r.Some? ==> exists i :: 0 <= i < |ps| && ps[i] == r.value && r.value.id == id
                                    && forall j :: 0 <= j < i ==> ps[j].id != id
  {
    Find(ps, (p: Process) => p.id == id)
  }

  /** Appends a new draft record named `name` ("New process" when undefined) and saves. */
  function CreateProcess(st: Store, name: Option<string>, freshId: string, now: string): (r: (Store, Process))
    ensures r.0.processes == st.processes + [r.1]
    ensures r.0.selected == st.selected && Persisted(r.0)
    ensures r.1.id == freshId && r.1.name == name.GetOr(NewProcessName)
    ensures r.1.status == Draft && r.1.version == 1
    ensures r.1.area.None? && r.1.parentId.None?
    ensures r.1.createdAt == now && r.1.updatedAt == now && r.1.bpmnXml == DefaultBpmn
  {
    var p := Process(freshId, name.GetOr(NewProcessName), None, None, Draft, 1, now, now, DefaultBpmn);
    (Save(st.(processes := st.processes + [p])), p)
  }

  /** Appends an imported draft record ("Imported process" for an empty name) and saves. */
  function ImportProcessFromFile(st: Store, name: Option<string>, bpmnXml: string, freshId: string, now: string)
    : (r: (Store, Process))
    ensures r.0.processes == st.processes + [r.1]
    ensures r.0.selected == st.selected && Persisted(r.0)
    ensures r.1.id == freshId && r.1.bpmnXml == bpmnXml
    ensures Truthy(name) ==> r.1.name == name.value
    ensures !Truthy(name) ==> r.1.name == ImportedName
    ensures r.1.status == Draft && r.1.version == 1
    ensures r.1.area.None? && r.1.parentId.None?
    ensures r.1.createdAt == now && r.1.updatedAt == now
  {
    var p := Process(freshId, Or(name, ImportedName), None, None, Draft, 1, now, now, bpmnXml);
    (Save(st.(processes := st.processes + [p])), p)
  }

  /**
    The edit `updateProcess` makes to one record: each supplied field is
    written (a supplied status normalised to published or draft), the
    version is bumped when the record becomes published from a draft, and
    the update time is set.
   */
  function ApplyPatch(p: Process, patch: Patch, now: string): (q: Process)
    ensures q.id == p.id && q.createdAt == p.createdAt && q.updatedAt == now
    ensures q.name == patch.name.GetOr(p.name)
    ensures q.area == patch.area.GetOr(p.area) && q.parentId == patch.parentId.GetOr(p.parentId)
    ensures q.bpmnXml == patch.bpmnXml.GetOr(p.bpmnXml)
    ensures patch.status.None? ==> q.status == p.status
    ensures patch.status.Some? ==> (q.status == Published <==> patch.status.value == PublishedText)
    ensures p.status == Draft && q.status == Published ==> q.version == (if p.version == 0 then 1 else p.version) + 1
    ensures !(p.status == Draft && q.status == Published) ==> q.version == p.version
  {
    var status := if patch.status.Some? then ParseStatus(patch.status) else p.status;
    var version := if status == Published && p.status != Published
                   then (if p.version == 0 then 1 else p.version) + 1
                   else p.version;
    Process(p.id, patch.name.GetOr(p.name), patch.area.GetOr(p.area), patch.parentId.GetOr(p.parentId),
            status, version, p.createdAt, now, patch.bpmnXml.GetOr(p.bpmnXml))
  }

  /**
    Edits the first record carrying `id` and saves; with no such record
    nothing changes and nothing is saved.
   */
  function UpdateProcess(st: Store, id: string, patch: Patch, now: string): (r: Store)
    ensures GetProcessById(st.processes, id).None? ==> r == st
    ensures GetProcessById(st.processes, id).Some? ==>
              && Persisted(r) && r.selected == st.selected
              && exists i :: 0 <= i < |st.processes| && st.processes[i].id == id
                             && (forall j :: 0 <= j < i ==> st.processes[j].id != id)
                             && r.processes == st.processes[i := ApplyPatch(st.processes[i], patch, now)]
  {
    match FirstIndex(st.processes, (p: Process) => p.id == id)
    case None => st
    case Some(i) => Save(st.(processes := st.processes[i := ApplyPatch(st.processes[i], patch, now)]))
  }

  /** The list without the records carrying `id`, in their original order. */
  function RemoveId(ps: seq<Process>, id: string): (r: seq<Process>)
    ensures |r| <= |ps|
    ensures forall p :: p in r <==> p in ps && p.id != id
    ensures (forall i :: 0 <= i < |ps| ==> ps[i].id != id) ==> r == ps
  {
    if |ps| == 0 then []
    else if ps[0].id == id then RemoveId(ps[1..], id)
    else [ps[0]] + RemoveId(ps[1..], id)
  }

  /** Deletes every record carrying `id`, clears a selection with that id, and saves. */
  function DeleteProcess(st: Store, id: string): (r: Store)
    ensures forall p :: p in r.processes <==> p in st.processes && p.id != id
    ensures GetProcessById(r.processes, id).None?
    ensures r.selected.None? <==> st.selected.None? || st.selected.value.id == id
    ensures r.selected.Some? ==> r.selected == st.selected
    ensures Persisted(r)
  {
    var selected := if st.selected.Some? && st.selected.value.id == id then None else st.selected;
    Save(Store(RemoveId(st.processes, id), selected, st.storage))
  }

  /** Selects the first record carrying `id`, or clears the selection when there is none. */
  function SetSelectedProcess(st: Store, id: string): (r: Store)
    ensures r.processes == st.processes && r.storage == st.storage
    ensures r.selected.None? <==> forall i :: 0 <= i < |st.processes| ==> st.processes[i].id != id
    ensures r.selected.Some? ==>
              exists i :: 0 <= i < |st.processes| && st.processes[i] == r.selected.value
                          && r.selected.value.id == id
                          && forall j :: 0 <= j < i ==> st.processes[j].id != id
  {
    st.(selected := GetProcessById(st.processes, id))
  }

  // ---------------------------------------------------------------------
  // Properties.
  // ---------------------------------------------------------------------

  /** The stored text of a status reads back as the same status. */
  lemma StatusRoundTrip(s: Status)
    ensures ParseStatus(Some(StatusText(s))) == s
  {
  }

  /** Normalising the stored form of a well-formed record gives the record back. */
  lemma NormalizeFixesWellFormed(p: Process, now: string, freshId: string)
    requires WellFormed(p)
    ensures Normalize(ToRaw(p), now, freshId) == p
  {
  }

  /** Saving and loading again restores a list of well-formed records. */
  lemma SaveThenLoadRoundTrip(st: Store, now: string, freshId: nat -> string)
    requires forall i :: 0 <= i < |st.processes| ==> WellFormed(st.processes[i])
    ensures LoadFromStorage(Save(st), now, freshId).processes == st.processes
  {
    var r := LoadFromStorage(Save(st), now, freshId).processes;
    forall i | 0 <= i < |r|
      ensures r[i] == st.processes[i]
    {
      NormalizeFixesWellFormed(st.processes[i], now, freshId(i));
    }
  }

  /**
    For a record with a positive version, an update raises the version by
    exactly one when it moves the record from draft to published, and
    leaves it unchanged otherwise (unpublishing, republishing, no status).
   */
  lemma VersionBumpsExactlyOnPublish(p: Process, patch: Patch, now: string)
    requires p.version > 0
    ensures var q := ApplyPatch(p, patch, now);
            && (q.version == p.version + 1 <==> p.status == Draft && q.status == Published)
            && (q.version == p.version <==> !(p.status == Draft && q.status == Published))
  {
  }

  /** Removing records distributes over concatenation, so the kept records keep their order. */
  lemma {:induction false} RemoveIdAppend(a: seq<Process>, b: seq<Process>, id: string)
    ensures RemoveId(a + b, id) == RemoveId(a, id) + RemoveId(b, id)
    decreases |a|
  {
    if |a| == 0 {
      assert a + b == b;
    } else {
      assert (a + b)[0] == a[0];
      assert (a + b)[1..] == a[1..] + b;
      RemoveIdAppend(a[1..], b, id);
    }
  }

  /** Two records that survive deletion appear in the same relative order afterwards. */
  lemma DeleteKeepsOrder(st: Store, id: string, i: int, j: int)
    requires 0 <= i < j < |st.processes|
    requires st.processes[i].id != id && st.processes[j].id != id
    ensures exists k, l :: 0 <= k < l < |DeleteProcess(st, id).processes|
                           && DeleteProcess(st, id).processes[k] == st.processes[i]
                           && DeleteProcess(st, id).processes[l] == st.processes[j]
  {
    var ps := st.processes;
    assert ps == ps[..j] + ps[j..];
    RemoveIdAppend(ps[..j], ps[j..], id);
    var left := RemoveId(ps[..j], id);
    var right := RemoveId(ps[j..], id);
    assert ps[i] in ps[..j];
    assert ps[i] in left;
    var k :| 0 <= k < |left| && left[k] == ps[i];
    assert ps[j..][0] == ps[j];
    assert right == [ps[j]] + RemoveId(ps[j..][1..], id);
    var r := DeleteProcess(st, id).processes;
    assert r == left + right;
    assert r[k] == ps[i];
    assert r[|left|] == ps[j];
  }

  /** Appending a record with an id not yet in the list makes it the one a lookup of that id finds. */
  lemma {:induction false} AppendNewIdIsFindable(ps: seq<Process>, p: Process)
    requires forall q :: q in ps ==> q.id != p.id
    ensures GetProcessById(ps + [p], p.id) == Some(p)
    ensures forall id :: id != p.id ==> GetProcessById(ps + [p], id) == GetProcessById(ps, id)
    ensures UniqueIds(ps) ==> UniqueIds(ps + [p])
  {
    var qs := ps + [p];
    assert qs[|ps|] == p;
    assert forall i :: 0 <= i < |ps| ==> qs[i] == ps[i];
    forall id | id != p.id
      ensures GetProcessById(qs, id) == GetProcessById(ps, id)
    {
      var a := GetProcessById(qs, id);
      var b := GetProcessById(ps, id);
      if a.Some? {
        var i :| 0 <= i < |qs| && qs[i] == a.value && a.value.id == id
                 && forall j :: 0 <= j < i ==> qs[j].id != id;
        assert i < |ps|;
        assert b.Some?;
        var k :| 0 <= k < |ps| && ps[k] == b.value && b.value.id == id
                 && forall j :: 0 <= j < k ==> ps[j].id != id;
        assert !(i < k) && !(k < i);
      }
    }
  }

  /** A created record with a new id is what a lookup of its id finds; other lookups and unique ids are kept. */
  lemma CreateAddsFindableRecord(st: Store, name: Option<string>, freshId: string, now: string)
    requires forall q :: q in st.processes ==> q.id != freshId
    ensures var r := CreateProcess(st, name, freshId, now);
            && GetProcessById(r.0.processes, freshId) == Some(r.1)
            && (forall id :: id != freshId ==> GetProcessById(r.0.processes, id) == GetProcessById(st.processes, id))
            && (UniqueIds(st.processes) ==> UniqueIds(r.0.processes))
  {
    var r := CreateProcess(st, name, freshId, now);
    AppendNewIdIsFindable(st.processes, r.1);
  }

  /** An imported record with a new id is what a lookup of its id finds; other lookups and unique ids are kept. */
  lemma ImportAddsFindableRecord(st: Store, name: Option<string>, bpmnXml: string, freshId: string, now: string)
    requires forall q :: q in st.processes ==> q.id != freshId
    ensures var r := ImportProcessFromFile(st, name, bpmnXml, freshId, now);
            && GetProcessById(r.0.processes, freshId) == Some(r.1)
            && (forall id :: id != freshId ==> GetProcessById(r.0.processes, id) == GetProcessById(st.processes, id))
            && (UniqueIds(st.processes) ==> UniqueIds(r.0.processes))
  {
    var r := ImportProcessFromFile(st, name, bpmnXml, freshId, now);
    AppendNewIdIsFindable(st.processes, r.1);
  }

  /**
    Reloading a saved record keeps every field, except that an empty name
    reads back as "Untitled process" and an empty diagram as the default.
   */
  lemma EmptyFieldsReloadAsDefaults(p: Process, now: string, freshId: string)
    requires p.id != "" && p.version > 0 && p.createdAt != "" && p.updatedAt != ""
    ensures var q := Normalize(ToRaw(p), now, freshId);
            && q.name == (if p.name == "" then UntitledName else p.name)
            && q.bpmnXml == (if p.bpmnXml == "" then DefaultBpmn else p.bpmnXml)
            && q.(name := p.name, bpmnXml := p.bpmnXml) == p
  {
  }

  /**
    Renaming a record to the empty string and reloading gives it the name
    "Untitled process"; the record is the first one carrying its id, which
    is the one the update finds.
   */
  lemma EmptyNameUpdateReloadsUntitled(st: Store, i: nat, now: string, later: string, freshId: nat -> string)
    requires i < |st.processes|
    requires forall j :: 0 <= j < i ==> st.processes[j].id != st.processes[i].id
    ensures var id := st.processes[i].id;
            var updated := UpdateProcess(st, id, Patch(Some(""), None, None, None, None), now);
            var reloaded := LoadFromStorage(updated, later, freshId);
            && updated.processes[i].name == ""
            && reloaded.processes[i].name == UntitledName
  {
    var id := st.processes[i].id;
    var updated := UpdateProcess(st, id, Patch(Some(""), None, None, None, None), now);
    assert GetProcessById(st.processes, id).Some?;
    var k :| 0 <= k < |st.processes| && st.processes[k].id == id
             && (forall j :: 0 <= j < k ==> st.processes[j].id != id)
             && updated.processes == st.processes[k := ApplyPatch(st.processes[k], Patch(Some(""), None, None, None, None), now)];
    assert k == i;
  }
}
