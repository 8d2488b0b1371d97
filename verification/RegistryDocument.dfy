/**
 Reading the registry manifest from its parsed TOML document: exact keys, required types, then the registry's own
 checks (build.rs).
 */
module RegistryDocument {
  import opened Common
  import opened EvidenceRegistry

  /** A parsed TOML value; the kinds the manifest never uses are one. */
  datatype Value =
    | Str(text: string)
    | Integer(number: int)
    | Table(entries: map<string, Value>)
    | Array(items: seq<Value>)
    | Other

  type Document = map<string, Value>

  function StringAt(t: Document, key: string): Option<string> {
    if key in t && t[key].Str? then Some(t[key].text) else None
  }

  function IntegerAt(t: Document, key: string): Option<int> {
    if key in t && t[key].Integer? then Some(t[key].number) else None
  }

  /** A number that fits an unsigned size. */
  function SizeAt(t: Document, key: string): Option<nat> {
    if key in t && t[key].Integer? && t[key].number >= 0 then Some(t[key].number) else None
  }

  // ---------- Rows ----------

  function ReadProducer(v: Value): Option<Producer> {
    if !v.Table? || v.entries.Keys != {"kind", "rust_owner", "rust_state_prefix", "semantic_prefix"} then None
    else
      var t := v.entries;
      var kind, owner := StringAt(t, "kind"), StringAt(t, "rust_owner");
      var prefix, semantic := StringAt(t, "rust_state_prefix"), StringAt(t, "semantic_prefix");
      if kind.None? || owner.None? || prefix.None? || semantic.None? then None
      else Some(Producer(kind.value, owner.value, prefix.value, semantic.value))
  }

  function ReadAllocation(v: Value): Option<Allocation> {
    if !v.Table? || v.entries.Keys != {"id_end_exclusive", "id_start", "name"} then None
    else
      var t := v.entries;
      var name, start, end := StringAt(t, "name"), SizeAt(t, "id_start"), SizeAt(t, "id_end_exclusive");
      if name.None? || start.None? || end.None? then None
      else Some(Allocation(name.value, start.value, end.value))
  }

  function ReadState(v: Value): Option<StateRow> {
    if !v.Table? || v.entries.Keys != {"allocation", "id", "producer_kind", "rust_variant", "semantic_state"} then None
    else
      var t := v.entries;
      var variant, kind, semantic := StringAt(t, "rust_variant"), StringAt(t, "producer_kind"), StringAt(t, "semantic_state");
      var allocation, id := StringAt(t, "allocation"), SizeAt(t, "id");
      if variant.None? || kind.None? || semantic.None? || allocation.None? || id.None? then None
      else Some(StateRow(variant.value, kind.value, semantic.value, allocation.value, id.value))
  }

  /** Every item read, or nothing when one cannot be. */
  function ReadAll<T>(items: seq<Value>, read: Value -> Option<T>): (r: Option<seq<T>>)
    ensures r.Some? <==> forall i :: 0 <= i < |items| ==> read(items[i]).Some?
    ensures r.Some? ==> |r.value| == |items| && forall i :: 0 <= i < |items| ==> read(items[i]) == Some(r.value[i])
  {
    if items == [] then Some([])
    else
      var n := |items| - 1;
      var front, last := ReadAll(items[..n], read), read(items[n]);
      if front.None? || last.None? then None else Some(front.value + [last.value])
  }

  function RowsAt<T>(t: Document, key: string, read: Value -> Option<T>): Option<seq<T>> {
    if key in t && t[key].Array? then ReadAll(t[key].items, read) else None
  }

  // ---------- The document ----------

  function ReadManifest(doc: Document): Option<Manifest> {
    if doc.Keys != {"allocation", "family", "producer", "schema_version", "state"} || !doc["family"].Table? then None
    else
      var family := doc["family"].entries;
      var version, name, capacity := IntegerAt(doc, "schema_version"), StringAt(family, "name"), SizeAt(family, "capacity");
      var producers, allocations := RowsAt(doc, "producer", ReadProducer), RowsAt(doc, "allocation", ReadAllocation);
      var states := RowsAt(doc, "state", ReadState);
      if family.Keys != {"capacity", "name"} || version.None? || name.None? || capacity.None? then None
      else if producers.None? || allocations.None? || states.None? then None
      else Some(Manifest(version.value, name.value, capacity.value, producers.value, allocations.value, states.value))
  }

  /** The manifest of a document, exactly when it can be read and is well formed throughout. */
  method ParseDocument(doc: Document) returns (r: Option<Manifest>)
    ensures r.Some? <==> ReadManifest(doc).Some? && Accepted(ReadManifest(doc).value)
    ensures r.Some? ==> r == ReadManifest(doc)
  {
    r := ReadManifest(doc);
    if r.Some? {
      var accepted := ParseRegistry(r.value);
      if !accepted {
        return None;
      }
    }
  }

  // ---------- Round trip ----------

  function WriteProducer(p: Producer): Value {
    Table(map["kind" := Str(p.kind), "rust_owner" := Str(p.rustOwner), "rust_state_prefix" := Str(p.rustStatePrefix),
              "semantic_prefix" := Str(p.semanticPrefix)])
  }

  function WriteAllocation(a: Allocation): Value {
    Table(map["name" := Str(a.name), "id_start" := Integer(a.idStart), "id_end_exclusive" := Integer(a.idEndExclusive)])
  }

  function WriteState(s: StateRow): Value {
    Table(map["rust_variant" := Str(s.rustVariant), "producer_kind" := Str(s.producerKind),
              "semantic_state" := Str(s.semanticState), "allocation" := Str(s.allocation), "id" := Integer(s.id)])
  }

  function WriteAll<T>(rows: seq<T>, write: T -> Value): Value {
    Array(seq(|rows|, i requires 0 <= i < |rows| => write(rows[i])))
  }

  function WriteFamily(name: string, capacity: nat): Value {
    Table(map["name" := Str(name), "capacity" := Integer(capacity)])
  }

  function Root(version: Value, family: Value, producers: Value, allocations: Value, states: Value): Document {
    map["schema_version" := version, "family" := family, "producer" := producers, "allocation" := allocations,
        "state" := states]
  }

  function WriteManifest(m: Manifest): Document {
    Root(Integer(m.schemaVersion), WriteFamily(m.familyName, m.capacity), WriteAll(m.producers, WriteProducer),
         WriteAll(m.allocations, WriteAllocation), WriteAll(m.states, WriteState))
  }

  lemma RootEntries(version: Value, family: Value, producers: Value, allocations: Value, states: Value)
    ensures var doc := Root(version, family, producers, allocations, states);
            && doc.Keys == {"allocation", "family", "producer", "schema_version", "state"}
            && doc["schema_version"] == version && doc["family"] == family && doc["producer"] == producers
            && doc["allocation"] == allocations && doc["state"] == states
  {
  }

  lemma FamilyRoundTrip(name: string, capacity: nat)
    ensures var t := WriteFamily(name, capacity).entries;
            && t.Keys == {"capacity", "name"}
            && StringAt(t, "name") == Some(name) && SizeAt(t, "capacity") == Some(capacity)
  {
  }

  lemma ProducerRoundTrip(p: Producer)
    ensures ReadProducer(WriteProducer(p)) == Some(p)
  {
  }

  lemma AllocationRoundTrip(a: Allocation)
    ensures ReadAllocation(WriteAllocation(a)) == Some(a)
  {
  }

  lemma StateRoundTrip(s: StateRow)
    ensures ReadState(WriteState(s)) == Some(s)
  {
  }

  lemma RowsRoundTrip<T>(rows: seq<T>, read: Value -> Option<T>, write: T -> Value)
    requires forall i :: 0 <= i < |rows| ==> read(write(rows[i])) == Some(rows[i])
    ensures ReadAll(WriteAll(rows, write).items, read) == Some(rows)
  {
    var items := WriteAll(rows, write).items;
    forall i | 0 <= i < |items| ensures read(items[i]) == Some(rows[i]) {
    }
    assert ReadAll(items, read).value == rows;
  }

  lemma AllRowsRoundTrip(m: Manifest)
    ensures ReadAll(WriteAll(m.producers, WriteProducer).items, ReadProducer) == Some(m.producers)
    ensures ReadAll(WriteAll(m.allocations, WriteAllocation).items, ReadAllocation) == Some(m.allocations)
    ensures ReadAll(WriteAll(m.states, WriteState).items, ReadState) == Some(m.states)
  {
    forall i | 0 <= i < |m.producers| ensures ReadProducer(WriteProducer(m.producers[i])) == Some(m.producers[i]) {
      ProducerRoundTrip(m.producers[i]);
    }
    forall i | 0 <= i < |m.allocations| ensures ReadAllocation(WriteAllocation(m.allocations[i])) == Some(m.allocations[i]) {
      AllocationRoundTrip(m.allocations[i]);
    }
    forall i | 0 <= i < |m.states| ensures ReadState(WriteState(m.states[i])) == Some(m.states[i]) {
      StateRoundTrip(m.states[i]);
    }
    RowsRoundTrip(m.producers, ReadProducer, WriteProducer);
    RowsRoundTrip(m.allocations, ReadAllocation, WriteAllocation);
    RowsRoundTrip(m.states, ReadState, WriteState);
  }

  /** Reading a document from the parts of its root. */
  lemma ReadRoot(doc: Document, m: Manifest, producers: Value, allocations: Value, states: Value)
    requires doc.Keys == {"allocation", "family", "producer", "schema_version", "state"}
    requires doc["schema_version"] == Integer(m.schemaVersion) && doc["family"] == WriteFamily(m.familyName, m.capacity)
    requires doc["producer"] == producers && doc["allocation"] == allocations && doc["state"] == states
    requires producers.Array? && ReadAll(producers.items, ReadProducer) == Some(m.producers)
    requires allocations.Array? && ReadAll(allocations.items, ReadAllocation) == Some(m.allocations)
    requires states.Array? && ReadAll(states.items, ReadState) == Some(m.states)
    ensures ReadManifest(doc) == Some(m)
  {
    FamilyRoundTrip(m.familyName, m.capacity);
  }

  /** Every manifest has a document that reads back as it, so none is refused for its form. */
  lemma ManifestRoundTrip(m: Manifest)
    ensures ReadManifest(WriteManifest(m)) == Some(m)
  {
    var producers, allocations := WriteAll(m.producers, WriteProducer), WriteAll(m.allocations, WriteAllocation);
    var states := WriteAll(m.states, WriteState);
    RootEntries(Integer(m.schemaVersion), WriteFamily(m.familyName, m.capacity), producers, allocations, states);
    AllRowsRoundTrip(m);
    ReadRoot(WriteManifest(m), m, producers, allocations, states);
  }
}
