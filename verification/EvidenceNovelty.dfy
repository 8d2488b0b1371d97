/** 64-bit words as their bits, least significant first, with the bitwise operations taken bit by bit. */
module Words {

  const BITS: nat := 64

  type Word = w: seq<bool> | |w| == BITS witness seq(BITS, _ => false)

  function Zero(): Word {
    seq(BITS, _ => false)
  }

  /** `1 << i`. */
  function Mask(i: nat): Word {
    seq(BITS, b => b == i)
  }

  function And(x: Word, y: Word): Word {
    seq(BITS, b requires 0 <= b < BITS => x[b] && y[b])
  }

  function Or(x: Word, y: Word): Word {
    seq(BITS, b requires 0 <= b < BITS => x[b] || y[b])
  }

  /** How many of the first `n` bits are set; over all of them, the population count. */
  function Ones(w: Word, n: nat): nat
    requires n <= BITS
  {
    if n == 0 then 0 else Ones(w, n - 1) + if w[n - 1] then 1 else 0
  }

  /** A word meets a one-bit mask exactly when it has that bit. */
  lemma MaskTest(w: Word, i: nat)
    requires i < BITS
    ensures And(w, Mask(i)) != Zero() <==> w[i]
  {
    var met := And(w, Mask(i));
    assert met[i] == w[i] && Zero()[i] == false;
    if !w[i] {
      assert met == Zero();
    }
  }
}

/**
 The build-time registry of evidence states: allocations that tile the id space, and states with unique ids
 inside their allocation (build.rs). A panic of the build script is the result None.
 */
module EvidenceRegistry {
  import opened Common

  datatype Producer = Producer(kind: string, rustOwner: string, rustStatePrefix: string, semanticPrefix: string)

  datatype Allocation = Allocation(name: string, idStart: nat, idEndExclusive: nat)

  datatype StateRow = StateRow(
    rustVariant: string,
    producerKind: string,
    semanticState: string,
    allocation: string,
    id: nat)

  datatype Manifest = Manifest(
    schemaVersion: int,
    familyName: string,
    capacity: nat,
    producers: seq<Producer>,
    allocations: seq<Allocation>,
    states: seq<StateRow>)

  const MAX_CAPACITY: nat := 65536

  // ---------- Name shapes ----------

  predicate IsLower(c: char) { 'a' <= c <= 'z' }

  predicate IsUpper(c: char) { 'A' <= c <= 'Z' }

  predicate IsDigit(c: char) { '0' <= c <= '9' }

  predicate IsSnakeCase(s: string) {
    s != "" && IsLower(s[0]) && forall i :: 0 < i < |s| ==> IsLower(s[i]) || IsDigit(s[i]) || s[i] == '_'
  }

  predicate IsUpperCamelCase(s: string) {
    s != "" && IsUpper(s[0]) && forall i :: 0 < i < |s| ==> IsLower(s[i]) || IsUpper(s[i]) || IsDigit(s[i])
  }

  /** The pieces between separators; always at least one. */
  function Split(s: string, separators: set<char>): (parts: seq<string>)
    ensures parts != []
  {
    if s == "" then [""]
    else
      var parts := Split(s[..|s| - 1], separators);
      var c := s[|s| - 1];
      if c in separators then parts + [""]
      else parts[..|parts| - 1] + [parts[|parts| - 1] + [c]]
  }

  predicate IsDottedSnakeCase(s: string) {
    var parts := Split(s, {'.'});
    forall i :: 0 <= i < |parts| ==> IsSnakeCase(parts[i])
  }

  function Upper(c: char): char {
    if IsLower(c) then (c as int - 32) as char else c
  }

  function UpperFirst(part: string): string {
    if part == "" then "" else [Upper(part[0])] + part[1..]
  }

  function Concatenate(parts: seq<string>): string {
    if parts == [] then "" else Concatenate(parts[..|parts| - 1]) + UpperFirst(parts[|parts| - 1])
  }

  function DottedSnakeToUpperCamelCase(s: string): string {
    Concatenate(Split(s, {'.', '_'}))
  }

  predicate ProducerValid(p: Producer) {
    && IsSnakeCase(p.kind)
    && IsUpperCamelCase(p.rustOwner)
    && IsUpperCamelCase(p.rustStatePrefix)
    && IsDottedSnakeCase(p.semanticPrefix)
    && (p.semanticPrefix == p.kind || p.kind + "." <= p.semanticPrefix)
  }

  // ---------- Producers ----------

  predicate ProducersValid(producers: seq<Producer>) {
    && producers != []
    && (forall i :: 0 <= i < |producers| ==> ProducerValid(producers[i]))
    && (forall i, j :: 0 <= i < j < |producers| ==>
          producers[i].kind != producers[j].kind && producers[i].rustOwner != producers[j].rustOwner)
  }

  method CheckProducers(producers: seq<Producer>) returns (ok: bool)
    ensures ok <==> ProducersValid(producers)
  {
    if producers == [] {
      return false;
    }
    var kinds, owners: set<string> := {}, {};
    for i := 0 to |producers|
      invariant forall j :: 0 <= j < i ==> ProducerValid(producers[j])
      invariant forall j, k :: 0 <= j < k < i ==>
                  producers[j].kind != producers[k].kind && producers[j].rustOwner != producers[k].rustOwner
      invariant forall x :: x in kinds <==> exists j :: 0 <= j < i && producers[j].kind == x
      invariant forall x :: x in owners <==> exists j :: 0 <= j < i && producers[j].rustOwner == x
    {
      var p := producers[i];
      if !ProducerValid(p) || p.kind in kinds || p.rustOwner in owners {
        return false;
      }
      kinds, owners := kinds + {p.kind}, owners + {p.rustOwner};
    }
    return true;
  }

  // ---------- Allocations ----------

  /** Allocation `i` begins where the one before ended, is not empty and stays inside the capacity. */
  predicate Follows(allocations: seq<Allocation>, capacity: nat, i: nat)
    requires i < |allocations|
  {
    && IsSnakeCase(allocations[i].name)
    && allocations[i].idStart == (if i == 0 then 0 else allocations[i - 1].idEndExclusive)
    && allocations[i].idStart < allocations[i].idEndExclusive <= capacity
  }

  predicate Chained(allocations: seq<Allocation>, capacity: nat, n: nat)
    requires n <= |allocations|
  {
    && (forall i: nat :: i < n ==> Follows(allocations, capacity, i))
    && (forall i, j :: 0 <= i < j < n ==> allocations[i].name != allocations[j].name)
  }

  predicate AllocationsValid(allocations: seq<Allocation>, capacity: nat) {
    && allocations != []
    && Chained(allocations, capacity, |allocations|)
    && allocations[|allocations| - 1].idEndExclusive == capacity
  }

  /** The check runs along the rows with the start it expects next. */
  method CheckAllocations(allocations: seq<Allocation>, capacity: nat) returns (ok: bool)
    ensures ok <==> AllocationsValid(allocations, capacity)
  {
    if allocations == [] {
      return false;
    }
    var names: set<string> := {};
    var expectedStart := 0;
    for i := 0 to |allocations|
      invariant expectedStart == if i == 0 then 0 else allocations[i - 1].idEndExclusive
      invariant Chained(allocations, capacity, i)
      invariant forall j :: 0 <= j < i ==> allocations[j].name in names
      invariant forall x :: x in names ==> exists j :: 0 <= j < i && allocations[j].name == x
    {
      var a := allocations[i];
      var inRange := a.idStart == expectedStart && a.idStart < a.idEndExclusive <= capacity;
      if !IsSnakeCase(a.name) || a.name in names || !inRange {
        assert !Follows(allocations, capacity, i) || a.name in names;
        return false;
      }
      assert Follows(allocations, capacity, i);
      names := names + {a.name};
      expectedStart := a.idEndExclusive;
    }
    return expectedStart == capacity;
  }

  predicate Holds(a: Allocation, id: nat) {
    a.idStart <= id < a.idEndExclusive
  }

  lemma {:induction false} ChainIsMonotone(allocations: seq<Allocation>, capacity: nat, i: nat, j: nat)
    requires Chained(allocations, capacity, |allocations|) && i < j < |allocations|
    ensures allocations[i].idEndExclusive <= allocations[j].idStart
    decreases j
  {
    assert Follows(allocations, capacity, j) && Follows(allocations, capacity, j - 1);
    if i + 1 < j {
      ChainIsMonotone(allocations, capacity, i, j - 1);
    }
  }

  /** The allocations tile the capacity: every id below it lies in exactly one allocation, none beyond in any. */
  lemma AllocationsTile(allocations: seq<Allocation>, capacity: nat, id: nat)
    requires AllocationsValid(allocations, capacity)
    ensures id < capacity <==> exists i :: 0 <= i < |allocations| && Holds(allocations[i], id)
    ensures forall i, j :: 0 <= i < j < |allocations| ==> !(Holds(allocations[i], id) && Holds(allocations[j], id))
  {
    forall i, j | 0 <= i < j < |allocations| ensures !(Holds(allocations[i], id) && Holds(allocations[j], id)) {
      ChainIsMonotone(allocations, capacity, i, j);
    }
    forall i | 0 <= i < |allocations| && Holds(allocations[i], id) ensures id < capacity {
      assert Follows(allocations, capacity, i);
    }
    if id < capacity {
      FindHolder(allocations, capacity, id, |allocations|);
    }
  }

  lemma {:induction false} FindHolder(allocations: seq<Allocation>, capacity: nat, id: nat, n: nat)
    requires Chained(allocations, capacity, |allocations|)
    requires 0 < n <= |allocations| && id < allocations[n - 1].idEndExclusive
    ensures exists i :: 0 <= i < |allocations| && Holds(allocations[i], id)
  {
    assert Follows(allocations, capacity, n - 1);
    if !Holds(allocations[n - 1], id) {
      FindHolder(allocations, capacity, id, n - 1);
    }
  }

  // ---------- States ----------

  /** A row derived from its producer and placed inside its allocation. */
  predicate StateValid(producers: seq<Producer>, allocations: seq<Allocation>, row: StateRow) {
    && IsUpperCamelCase(row.rustVariant)
    && IsDottedSnakeCase(row.semanticState)
    && (exists i :: 0 <= i < |producers| && producers[i].kind == row.producerKind && DerivedFrom(producers[i], row))
    && (exists i :: 0 <= i < |allocations| && allocations[i].name == row.allocation && Holds(allocations[i], row.id))
  }

  predicate DerivedFrom(p: Producer, row: StateRow) {
    var prefix := p.semanticPrefix + ".";
    && prefix < row.semanticState
    && row.rustVariant == p.rustStatePrefix + DottedSnakeToUpperCamelCase(row.semanticState[|prefix|..])
  }

  predicate RowsApart(a: StateRow, b: StateRow) {
    && a.rustVariant != b.rustVariant
    && (a.producerKind, a.semanticState) != (b.producerKind, b.semanticState)
    && a.id != b.id
  }

  predicate StatesValid(producers: seq<Producer>, allocations: seq<Allocation>, states: seq<StateRow>) {
    && states != []
    && (forall i :: 0 <= i < |states| ==> StateValid(producers, allocations, states[i]))
    && (forall i, j :: 0 <= i < j < |states| ==> RowsApart(states[i], states[j]))
  }

  /** One pass over the rows, each checked on its own and against the names and ids already taken. */
  method ScanStates(states: seq<StateRow>, valid: StateRow -> bool) returns (ok: bool)
    ensures ok <==> && (forall i :: 0 <= i < |states| ==> valid(states[i]))
                    && (forall i, j :: 0 <= i < j < |states| ==> RowsApart(states[i], states[j]))
  {
    var variants: set<string> := {};
    var mappings: set<(string, string)> := {};
    var ids: set<nat> := {};
    for i := 0 to |states|
      invariant forall j :: 0 <= j < i ==> valid(states[j])
      invariant forall j, k :: 0 <= j < k < i ==> RowsApart(states[j], states[k])
      invariant Taken(states[..i], variants, mappings, ids)
    {
      var row := states[i];
      var mapping := (row.producerKind, row.semanticState);
      ghost var before := states[..i];
      assert states[..i + 1] == before + [row];
      assert forall j :: 0 <= j < i ==> before[j] == states[j];
      if !valid(row) {
        return false;
      }
      TakenExactly(before, row, variants, mappings, ids);
      if row.rustVariant in variants || mapping in mappings || row.id in ids {
        return false;
      }
      variants, mappings, ids := variants + {row.rustVariant}, mappings + {mapping}, ids + {row.id};
    }
    return true;
  }

  /** The three sets hold exactly what the rows have taken. */
  ghost predicate Taken(rows: seq<StateRow>, variants: set<string>, mappings: set<(string, string)>, ids: set<nat>) {
    && variants == (set r | r in rows :: r.rustVariant)
    && mappings == (set r | r in rows :: (r.producerKind, r.semanticState))
    && ids == (set r | r in rows :: r.id)
  }

  /** A row clashes with the sets exactly when it clashes with some row behind them, and otherwise extends them. */
  lemma TakenExactly(
    rows: seq<StateRow>, row: StateRow, variants: set<string>, mappings: set<(string, string)>, ids: set<nat>)
    requires Taken(rows, variants, mappings, ids)
    ensures var mapping := (row.producerKind, row.semanticState);
            && ((forall i :: 0 <= i < |rows| ==> RowsApart(rows[i], row))
                <==> row.rustVariant !in variants && mapping !in mappings && row.id !in ids)
            && Taken(rows + [row], variants + {row.rustVariant}, mappings + {mapping}, ids + {row.id})
  {
    var mapping := (row.producerKind, row.semanticState);
    var all := rows + [row];
    assert forall r :: r in all <==> r in rows || r == row;
    assert (set r | r in all :: r.rustVariant) == variants + {row.rustVariant};
    assert (set r | r in all :: (r.producerKind, r.semanticState)) == mappings + {mapping};
    assert (set r | r in all :: r.id) == ids + {row.id};
    assert forall i :: 0 <= i < |rows| ==> rows[i] in rows;
  }

  method CheckStates(producers: seq<Producer>, allocations: seq<Allocation>, states: seq<StateRow>) returns (ok: bool)
    ensures ok <==> StatesValid(producers, allocations, states)
  {
    var valid := row => StateValid(producers, allocations, row);
    ok := ScanStates(states, valid);
    ok := ok && states != [];
  }

  // ---------- The registry ----------

  predicate Accepted(m: Manifest) {
    && m.schemaVersion == 1
    && IsSnakeCase(m.familyName)
    && 0 < m.capacity <= MAX_CAPACITY
    && ProducersValid(m.producers)
    && AllocationsValid(m.allocations, m.capacity)
    && StatesValid(m.producers, m.allocations, m.states)
  }

  /** Read the manifest as the build script does; it is accepted exactly when it is well formed throughout. */
  method ParseRegistry(m: Manifest) returns (accepted: bool)
    ensures accepted <==> Accepted(m)
  {
    if m.schemaVersion != 1 || !IsSnakeCase(m.familyName) || !(0 < m.capacity <= MAX_CAPACITY) {
      return false;
    }
    accepted := CheckProducers(m.producers);
    if accepted {
      accepted := CheckAllocations(m.allocations, m.capacity);
    }
    if accepted {
      accepted := CheckStates(m.producers, m.allocations, m.states);
    }
  }

  /** In an accepted manifest every state's id is below the capacity, and no two states share one. */
  lemma IdsAreUniqueAndInRange(m: Manifest)
    requires Accepted(m)
    ensures forall i :: 0 <= i < |m.states| ==> m.states[i].id < m.capacity
    ensures forall i, j :: 0 <= i < |m.states| && 0 <= j < |m.states| && m.states[i].id == m.states[j].id ==> i == j
  {
    forall i | 0 <= i < |m.states| ensures m.states[i].id < m.capacity {
      assert StateValid(m.producers, m.allocations, m.states[i]);
      AllocationsTile(m.allocations, m.capacity, m.states[i].id);
    }
    assert forall i, j :: 0 <= i < j < |m.states| ==> RowsApart(m.states[i], m.states[j]);
  }

  /** How many 64-bit words the generated constant gives a capacity. */
  function WordCount(capacity: nat): nat {
    (capacity + 63) / 64
  }

  /** The owner the generated table gives a state. */
  function OwnerOf(producers: seq<Producer>, kind: string): Option<string> {
    if producers == [] then None
    else if producers[0].kind == kind then Some(producers[0].rustOwner)
    else OwnerOf(producers[1..], kind)
  }

  /** In an accepted manifest a state's owner is that of the one producer of its kind. */
  lemma OwnerIsTheProducers(m: Manifest, state: nat, p: nat)
    requires Accepted(m) && state < |m.states| && p < |m.producers| && m.producers[p].kind == m.states[state].producerKind
    ensures OwnerOf(m.producers, m.states[state].producerKind) == Some(m.producers[p].rustOwner)
    ensures forall q :: 0 <= q < |m.producers| && m.producers[q].kind == m.states[state].producerKind ==> q == p
  {
    OwnerOfKind(m.producers, m.states[state].producerKind, p);
  }

  lemma {:induction false} OwnerOfKind(producers: seq<Producer>, kind: string, p: nat)
    requires p < |producers| && producers[p].kind == kind
    requires forall i, j :: 0 <= i < j < |producers| ==> producers[i].kind != producers[j].kind
    ensures OwnerOf(producers, kind) == Some(producers[p].rustOwner)
    decreases |producers|
  {
    if p > 0 {
      assert producers[0].kind != producers[p].kind;
      OwnerOfKind(producers[1..], kind, p - 1);
    }
  }

  /** The words cover the capacity and no more than the last is wanted. */
  lemma WordCountIsCeiling(capacity: nat)
    ensures 64 * WordCount(capacity) >= capacity
    ensures capacity > 0 ==> 64 * (WordCount(capacity) - 1) < capacity
  {
  }

  // ---------- Names ----------

  function JoinWith(parts: seq<string>, separator: char): string {
    if parts == [] then ""
    else if |parts| == 1 then parts[0]
    else JoinWith(parts[..|parts| - 1], separator) + [separator] + parts[|parts| - 1]
  }

  lemma JoinLast(parts: seq<string>, separator: char, more: string)
    requires parts != []
    ensures JoinWith(parts[..|parts| - 1] + [parts[|parts| - 1] + more], separator) == JoinWith(parts, separator) + more
  {
    var n := |parts| - 1;
    var longer := parts[..n] + [parts[n] + more];
    assert longer[..n] == parts[..n];
    if n > 0 {
      assert JoinWith(parts[..n], separator) + [separator] + (parts[n] + more)
          == JoinWith(parts[..n], separator) + [separator] + parts[n] + more;
    }
  }

  lemma JoinNext(parts: seq<string>, separator: char)
    requires parts != []
    ensures JoinWith(parts + [""], separator) == JoinWith(parts, separator) + [separator]
  {
    var longer := parts + [""];
    assert longer[..|parts|] == parts;
    assert JoinWith(parts, separator) + [separator] + "" == JoinWith(parts, separator) + [separator];
  }

  /** Splitting at a separator and joining again gives the text back. */
  lemma {:induction false} SplitRoundTrip(s: string, separator: char)
    ensures JoinWith(Split(s, {separator}), separator) == s
    decreases |s|
  {
    if s == "" {
      assert Split(s, {separator}) == [""];
    } else {
      var front, c := s[..|s| - 1], s[|s| - 1];
      SplitRoundTrip(front, separator);
      assert s == front + [c];
      if c == separator {
        JoinNext(Split(front, {separator}), separator);
      } else {
        JoinLast(Split(front, {separator}), separator, [c]);
      }
    }
  }

  /** No part holds the separator, so the parts are the ones between its occurrences. */
  lemma {:induction false} PartsAreBetween(s: string, separator: char)
    ensures forall part :: part in Split(s, {separator}) ==> separator !in part
    decreases |s|
  {
    if s != "" {
      var front, c := s[..|s| - 1], s[|s| - 1];
      PartsAreBetween(front, separator);
      var parts := Split(front, {separator});
      assert parts[|parts| - 1] in parts;
      forall part | part in Split(s, {separator}) ensures separator !in part {
        assert part in parts || part == "" || part == parts[|parts| - 1] + [c];
      }
    }
  }

  predicate IsSeparator(c: char) { c == '.' || c == '_' }

  /** What one character becomes: a separator nothing, one that begins a part its upper case. */
  function CamelChar(s: string, i: nat): string
    requires i < |s|
  {
    if IsSeparator(s[i]) then ""
    else if i == 0 || IsSeparator(s[i - 1]) then [Upper(s[i])]
    else [s[i]]
  }

  function CamelScan(s: string): string {
    if s == "" then "" else CamelScan(s[..|s| - 1]) + CamelChar(s, |s| - 1)
  }

  lemma SplitEnds(s: string)
    ensures var parts := Split(s, {'.', '_'});
            parts[|parts| - 1] == "" <==> s == "" || IsSeparator(s[|s| - 1])
  {
  }

  lemma SplitSnoc(front: string, c: char)
    ensures var parts := Split(front, {'.', '_'});
            Split(front + [c], {'.', '_'})
              == if IsSeparator(c) then parts + [""] else parts[..|parts| - 1] + [parts[|parts| - 1] + [c]]
  {
    assert (front + [c])[..|front|] == front;
  }

  lemma LastPart(parts: seq<string>) returns (begun: seq<string>, last: string)
    requires parts != []
    ensures begun == parts[..|parts| - 1] && last == parts[|parts| - 1] && parts == begun + [last]
  {
    begun, last := parts[..|parts| - 1], parts[|parts| - 1];
  }

  /** What one more character does to the parts: it opens a new one or extends the last. */
  lemma SplitStep(front: string, c: char) returns (begun: seq<string>, last: string)
    ensures Split(front, {'.', '_'}) == begun + [last]
    ensures last == "" <==> front == "" || IsSeparator(front[|front| - 1])
    ensures Split(front + [c], {'.', '_'}) == if IsSeparator(c) then begun + [last] + [""] else begun + [last + [c]]
  {
    SplitEnds(front);
    SplitSnoc(front, c);
    begun, last := LastPart(Split(front, {'.', '_'}));
  }

  /** Splitting, capitalizing and joining is one scan over the characters. */
  lemma {:induction false} CamelCaseIsAScan(s: string)
    ensures DottedSnakeToUpperCamelCase(s) == CamelScan(s)
    decreases |s|
  {
    if s == "" {
      assert Split(s, {'.', '_'}) == [""] && [""][..0] == [];
      assert Concatenate([""]) == "";
    } else {
      var front, c := s[..|s| - 1], s[|s| - 1];
      assert s == front + [c];
      CamelCaseIsAScan(front);
      CamelStep(front, c);
    }
  }

  lemma CamelStep(front: string, c: char)
    ensures DottedSnakeToUpperCamelCase(front + [c]) == DottedSnakeToUpperCamelCase(front) + CamelChar(front + [c], |front|)
  {
    var begun, last := SplitStep(front, c);
    if IsSeparator(c) {
      ConcatenateSnoc(begun + [last], "");
    } else {
      ConcatenateLonger(begun, last, c);
    }
  }

  /** How a character extends a part. */
  function Extension(part: string, c: char): string {
    [if part == "" then Upper(c) else c]
  }

  lemma ConcatenateLonger(begun: seq<string>, last: string, c: char)
    ensures Concatenate(begun + [last + [c]]) == Concatenate(begun + [last]) + Extension(last, c)
  {
    LongerPart(last, c);
    ConcatenateSnoc(begun, last);
    ConcatenateSnoc(begun, last + [c]);
    AssociateText(Concatenate(begun), UpperFirst(last), Extension(last, c));
  }

  lemma ConcatenateSnoc(front: seq<string>, last: string)
    ensures Concatenate(front + [last]) == Concatenate(front) + UpperFirst(last)
  {
    assert (front + [last])[..|front|] == front;
  }

  lemma AssociateText(a: string, b: string, c: string)
    ensures a + (b + c) == a + b + c
  {
  }

  lemma LongerPart(part: string, c: char)
    ensures UpperFirst(part + [c]) == UpperFirst(part) + Extension(part, c)
  {
    if part == "" {
      assert part + [c] == [c];
    } else {
      assert (part + [c])[1..] == part[1..] + [c];
    }
  }

  lemma {:induction false} SplitHead(s: string)
    ensures var parts := Split(s, {'.'});
            && '.' !in parts[0]
            && (if |parts| == 1 then parts[0] == s else parts[0] + "." <= s)
    decreases |s|
  {
    if s == "" {
      assert Split(s, {'.'}) == [""];
    } else {
      SplitHead(s[..|s| - 1]);
      assert s == s[..|s| - 1] + [s[|s| - 1]];
    }
  }

  /** A producer's semantic prefix is a dotted path whose first part is its kind. */
  lemma PrefixStartsWithKind(p: Producer)
    requires '.' !in p.kind
    ensures p.semanticPrefix == p.kind || p.kind + "." <= p.semanticPrefix
       <==> Split(p.semanticPrefix, {'.'})[0] == p.kind
  {
    var s, k := p.semanticPrefix, p.kind;
    var parts := Split(s, {'.'});
    var head := parts[0];
    SplitHead(s);
    assert |parts| > 1 ==> s[|head|] == (head + ".")[|head|];
    if k + "." <= s {
      assert s[|k|] == (k + ".")[|k|];
      assert k == s[..|k|] && head == s[..|head|];
      assert forall i :: 0 <= i < |head| ==> s[i] in head;
      assert forall i :: 0 <= i < |k| ==> s[i] in k;
    }
  }

  /** The name of a row is its producer's prefix, a dot and a part of its own that the variant spells. */
  lemma DerivedExactly(p: Producer, row: StateRow)
    ensures DerivedFrom(p, row)
       <==> exists own :: own != "" && row.semanticState == p.semanticPrefix + "." + own
                          && row.rustVariant == p.rustStatePrefix + CamelScan(own)
  {
    var prefix := p.semanticPrefix + ".";
    if own :| own != "" && row.semanticState == prefix + own && row.rustVariant == p.rustStatePrefix + CamelScan(own) {
      assert row.semanticState[|prefix|..] == own;
      CamelCaseIsAScan(own);
    }
    if DerivedFrom(p, row) {
      var own := row.semanticState[|prefix|..];
      CamelCaseIsAScan(own);
      assert row.semanticState == prefix + own;
    }
  }

  /** The n-th lower-case letter becomes the n-th upper-case one, and nothing else changes. */
  lemma UpperMeans(c: char)
    ensures if 'a' <= c <= 'z' then Upper(c) as int - 'A' as int == c as int - 'a' as int else Upper(c) == c
    ensures Upper('a') == 'A' && Upper('z') == 'Z'
  {
  }

  /** A snake-case name begins with a lower-case letter and goes on with letters, digits and underscores. */
  lemma SnakeCaseMeans(s: string)
    ensures var shape := forall c :: c in s ==> 'a' <= c <= 'z' || '0' <= c <= '9' || c == '_';
            IsSnakeCase(s) <==> |s| > 0 && 'a' <= s[0] <= 'z' && shape
  {
    assert forall i :: 0 <= i < |s| ==> s[i] in s;
  }

  /** A camel-case name begins with an upper-case letter and goes on with letters and digits. */
  lemma CamelCaseMeans(s: string)
    ensures var shape := forall c :: c in s ==> 'a' <= c <= 'z' || 'A' <= c <= 'Z' || '0' <= c <= '9';
            IsUpperCamelCase(s) <==> |s| > 0 && 'A' <= s[0] <= 'Z' && shape
  {
    assert forall i :: 0 <= i < |s| ==> s[i] in s;
  }

  lemma SnakeHasNoDot(s: string)
    requires IsSnakeCase(s)
    ensures '.' !in s
  {
  }

  /** A producer row is valid when its names have their shapes and its dotted prefix starts with its kind. */
  lemma ProducerDecides(p: Producer)
    ensures var parts := Split(p.semanticPrefix, {'.'});
            ProducerValid(p) <==>
              && IsSnakeCase(p.kind) && IsUpperCamelCase(p.rustOwner) && IsUpperCamelCase(p.rustStatePrefix)
              && (forall part :: part in parts ==> IsSnakeCase(part))
              && parts[0] == p.kind
  {
    if IsSnakeCase(p.kind) {
      SnakeHasNoDot(p.kind);
      PrefixStartsWithKind(p);
    }
  }

  /** The one producer and the one allocation a row names decide it. */
  lemma StateDecides(producers: seq<Producer>, allocations: seq<Allocation>, capacity: nat, row: StateRow, p: nat, a: nat)
    requires ProducersValid(producers) && AllocationsValid(allocations, capacity)
    requires p < |producers| && producers[p].kind == row.producerKind
    requires a < |allocations| && allocations[a].name == row.allocation
    ensures StateValid(producers, allocations, row) <==>
              && IsUpperCamelCase(row.rustVariant)
              && (forall part :: part in Split(row.semanticState, {'.'}) ==> IsSnakeCase(part))
              && DerivedFrom(producers[p], row)
              && allocations[a].idStart <= row.id < allocations[a].idEndExclusive
  {
    assert forall i :: 0 <= i < |producers| && producers[i].kind == row.producerKind ==> i == p;
    assert forall i :: 0 <= i < |allocations| && allocations[i].name == row.allocation ==> i == a;
  }

  /** A row that names no producer or no allocation is refused. */
  lemma StateNeedsBoth(producers: seq<Producer>, allocations: seq<Allocation>, row: StateRow)
    requires StateValid(producers, allocations, row)
    ensures exists p :: 0 <= p < |producers| && producers[p].kind == row.producerKind
    ensures exists a :: 0 <= a < |allocations| && allocations[a].name == row.allocation
  {
  }
}

/**
 The in-process novelty guard: a fixed-size bitmap per market episode, one bit per registered state
 (src/bolt_v3_evidence_novelty.rs).
 */
module EvidenceNovelty {
  import opened Common
  import opened Words
  import opened EvidenceRegistry

  type Episode = string

  /** The bit of state `id` in a bitmap. */
  predicate Marked(words: seq<Word>, id: nat) {
    id / BITS < |words| && words[id / BITS][id % BITS]
  }

  function Mark(words: seq<Word>, id: nat): seq<Word>
    requires id / BITS < |words|
  {
    words[id / BITS := Or(words[id / BITS], Mask(id % BITS))]
  }

  /** Marking an id marks it and no other. */
  lemma MarkSetsOneBit(words: seq<Word>, id: nat, other: nat)
    requires id / BITS < |words|
    ensures Marked(Mark(words, id), other) <==> Marked(words, other) || other == id
  {
    var word := Or(words[id / BITS], Mask(id % BITS));
    assert word[other % BITS] == (words[id / BITS][other % BITS] || other % BITS == id % BITS);
  }

  // ---------- Counting ----------

  /** The sum of the words' population counts. */
  function CountOnes(words: seq<Word>): nat {
    if words == [] then 0 else CountOnes(words[..|words| - 1]) + Ones(words[|words| - 1], BITS)
  }

  /** The marked ids below `n`. */
  ghost function MarkedBelow(words: seq<Word>, n: nat): set<nat> {
    set id | 0 <= id < n && Marked(words, id)
  }

  lemma MarkedBelowNext(words: seq<Word>, id: nat)
    ensures |MarkedBelow(words, id + 1)| == |MarkedBelow(words, id)| + if Marked(words, id) then 1 else 0
  {
    var below := MarkedBelow(words, id);
    assert MarkedBelow(words, id + 1) == if Marked(words, id) then below + {id} else below;
  }

  lemma {:induction false} OneWordCount(words: seq<Word>, k: nat, n: nat)
    requires k < |words| && n <= BITS
    ensures |MarkedBelow(words, BITS * k + n)| == |MarkedBelow(words, BITS * k)| + Ones(words[k], n)
  {
    if n > 0 {
      OneWordCount(words, k, n - 1);
      var id := BITS * k + n - 1;
      assert id / BITS == k && id % BITS == n - 1;
      MarkedBelowNext(words, id);
    }
  }

  /** The population count of a bitmap is the number of ids marked in it. */
  lemma {:induction false} CountIsCardinality(words: seq<Word>, k: nat)
    requires k <= |words|
    ensures CountOnes(words[..k]) == |MarkedBelow(words, BITS * k)|
  {
    if k == 0 {
      assert MarkedBelow(words, 0) == {};
    } else {
      CountIsCardinality(words, k - 1);
      OneWordCount(words, k - 1, BITS);
      assert words[..k][..k - 1] == words[..k - 1];
    }
  }

  // ---------- Whole runs ----------

  type Seen = map<Episode, seq<Word>>

  /** A claim names an episode and a registered state, by its row in the manifest. */
  type Claim = (Episode, nat)

  ghost predicate SizedFor(seen: Seen, capacity: nat) {
    forall e :: e in seen ==> |seen[e]| == WordCount(capacity)
  }

  predicate Claimed(seen: Seen, e: Episode, id: nat) {
    e in seen && Marked(seen[e], id)
  }

  function WordsOf(seen: Seen, capacity: nat, e: Episode): seq<Word> {
    if e in seen then seen[e] else seq(WordCount(capacity), _ => Zero())
  }

  /** The bitmaps after one claim of `id`; whether it was new is `!Claimed` before. */
  function ClaimStep(seen: Seen, capacity: nat, e: Episode, id: nat): Seen
    requires SizedFor(seen, capacity) && id < capacity
  {
    seen[e := Mark(WordsOf(seen, capacity, e), id)]
  }

  lemma {:induction false} FreshWordsAreClear(seen: Seen, capacity: nat, e: Episode, id: nat)
    ensures Marked(WordsOf(seen, capacity, e), id) <==> Claimed(seen, e, id)
  {
  }

  /** One claim adds exactly its own episode and state. */
  lemma {:induction false} ClaimAddsOne(seen: Seen, capacity: nat, e: Episode, id: nat, f: Episode, other: nat)
    requires SizedFor(seen, capacity) && id < capacity
    ensures SizedFor(ClaimStep(seen, capacity, e, id), capacity)
    ensures Claimed(ClaimStep(seen, capacity, e, id), f, other)
       <==> Claimed(seen, f, other) || (f == e && other == id)
  {
    FreshWordsAreClear(seen, capacity, e, other);
    MarkSetsOneBit(WordsOf(seen, capacity, e), id, other);
  }

  /** Claiming again changes nothing. */
  lemma RepeatChangesNothing(seen: Seen, capacity: nat, e: Episode, id: nat)
    requires SizedFor(seen, capacity) && id < capacity && Claimed(seen, e, id)
    ensures ClaimStep(seen, capacity, e, id) == seen
  {
    var word := seen[e][id / BITS];
    assert Or(word, Mask(id % BITS)) == word;
    assert Mark(seen[e], id) == seen[e];
  }

  ghost predicate Registered(m: Manifest, claims: seq<Claim>) {
    forall i :: 0 <= i < |claims| ==> claims[i].1 < |m.states|
  }

  /** The bitmaps after a whole run of claims, from none. */
  ghost function ClaimAll(m: Manifest, claims: seq<Claim>): (seen: Seen)
    requires Accepted(m) && Registered(m, claims)
    ensures SizedFor(seen, m.capacity)
    decreases |claims|
  {
    if claims == [] then map[]
    else
      IdsAreUniqueAndInRange(m);
      var last := claims[|claims| - 1];
      ClaimStep(ClaimAll(m, claims[..|claims| - 1]), m.capacity, last.0, m.states[last.1].id)
  }

  lemma ClaimAllSnoc(m: Manifest, claims: seq<Claim>, c: Claim)
    requires Accepted(m) && Registered(m, claims) && c.1 < |m.states|
    ensures Registered(m, claims + [c]) && m.states[c.1].id < m.capacity
    ensures ClaimAll(m, claims + [c]) == ClaimStep(ClaimAll(m, claims), m.capacity, c.0, m.states[c.1].id)
  {
    IdsAreUniqueAndInRange(m);
    assert (claims + [c])[..|claims|] == claims;
  }

  /** The distinct states a run claimed in one episode, and their ids. */
  ghost function StatesOf(claims: seq<Claim>, e: Episode): set<nat> {
    set c | c in claims && c.0 == e :: c.1
  }

  ghost function IdsOf(m: Manifest, states: set<nat>): set<nat> {
    set s | s in states && s < |m.states| :: m.states[s].id
  }

  lemma StatesGrow(before: seq<Claim>, last: Claim, e: Episode)
    ensures StatesOf(before + [last], e)
         == if last.0 == e then StatesOf(before, e) + {last.1} else StatesOf(before, e)
  {
    var all := before + [last];
    assert forall c :: c in all <==> c in before || c == last;
  }

  lemma IdsGrow(m: Manifest, states: set<nat>, s: nat)
    requires s < |m.states|
    ensures IdsOf(m, states + {s}) == IdsOf(m, states) + {m.states[s].id}
  {
  }

  /** The bitmaps refine the set of claims: an id reads as claimed exactly when the run claimed its state. */
  lemma {:induction false} BitmapsRefineClaims(m: Manifest, claims: seq<Claim>, e: Episode, id: nat)
    requires Accepted(m) && Registered(m, claims)
    ensures Claimed(ClaimAll(m, claims), e, id) <==> id in IdsOf(m, StatesOf(claims, e))
    decreases |claims|
  {
    if claims != [] {
      var last, before := claims[|claims| - 1], claims[..|claims| - 1];
      assert claims == before + [last];
      BitmapsRefineClaims(m, before, e, id);
      IdsAreUniqueAndInRange(m);
      ClaimAddsOne(ClaimAll(m, before), m.capacity, last.0, m.states[last.1].id, e, id);
      StatesGrow(before, last, e);
      IdsGrow(m, StatesOf(before, e), last.1);
    }
  }

  /** Over any run, a state reads as new exactly when the run has not claimed it in that episode. */
  lemma NewExactlyOnFirstClaim(m: Manifest, claims: seq<Claim>, e: Episode, s: nat)
    requires Accepted(m) && Registered(m, claims) && s < |m.states|
    ensures Claimed(ClaimAll(m, claims), e, m.states[s].id) <==> (e, s) in claims
  {
    BitmapsRefineClaims(m, claims, e, m.states[s].id);
    IdsAreUniqueAndInRange(m);
    assert forall c :: c in claims && c == (e, s) ==> s in StatesOf(claims, e);
    if m.states[s].id in IdsOf(m, StatesOf(claims, e)) {
      assert s in StatesOf(claims, e);
    }
  }

  lemma {:induction false} IdsAreAsManyAsStates(m: Manifest, states: set<nat>)
    requires Accepted(m) && forall s :: s in states ==> s < |m.states|
    ensures |IdsOf(m, states)| == |states|
    decreases |states|
  {
    if states != {} {
      var s := Pick(states);
      var rest := states - {s};
      IdsAreAsManyAsStates(m, rest);
      IdsGrow(m, rest, s);
      assert rest + {s} == states;
      IdsAreUniqueAndInRange(m);
      assert m.states[s].id !in IdsOf(m, rest);
    }
  }

  lemma RegisteredStates(m: Manifest, claims: seq<Claim>, e: Episode)
    requires Registered(m, claims)
    ensures forall s :: s in StatesOf(claims, e) ==> s < |m.states|
  {
    forall c | c in claims ensures c.1 < |m.states| {
      var i :| 0 <= i < |claims| && claims[i] == c;
    }
  }

  /** The population count over a run is the number of distinct states claimed in the episode. */
  lemma {:induction false} CountIsDistinctClaims(m: Manifest, claims: seq<Claim>, e: Episode)
    requires Accepted(m) && Registered(m, claims)
    ensures CountOnes(WordsOf(ClaimAll(m, claims), m.capacity, e)) == |StatesOf(claims, e)|
  {
    var seen := ClaimAll(m, claims);
    var words := WordsOf(seen, m.capacity, e);
    var states := StatesOf(claims, e);
    var n := BITS * WordCount(m.capacity);
    CountIsCardinality(words, |words|);
    assert words[..|words|] == words;
    RegisteredStates(m, claims, e);
    IdsAreAsManyAsStates(m, states);
    IdsAreUniqueAndInRange(m);
    forall id: nat ensures id in MarkedBelow(words, n) <==> id in IdsOf(m, states) {
      FreshWordsAreClear(seen, m.capacity, e, id);
      BitmapsRefineClaims(m, claims, e, id);
    }
    assert MarkedBelow(words, n) == IdsOf(m, states);
  }

  lemma {:induction false} ZeroWordsCountNothing(n: nat)
    ensures CountOnes(seq(n, _ => Zero())) == 0
  {
    var words := seq(n, _ => Zero());
    CountIsCardinality(words, n);
    assert words[..n] == words;
    assert MarkedBelow(words, BITS * n) == {};
  }

  /** The search for a producer's semantic state finds its one registration, or there is none. */
  method RegisteredEvidenceState(states: seq<StateRow>, producerKind: string, semanticState: string)
    returns (r: Option<nat>)
    requires forall i, j :: 0 <= i < j < |states| ==> RowsApart(states[i], states[j])
    ensures r.Some? ==> r.value < |states|
    ensures forall s :: 0 <= s < |states| ==> (r == Some(s) <==> Names(states[s], producerKind, semanticState))
  {
    for i := 0 to |states|
      invariant forall s :: 0 <= s < i ==> !Names(states[s], producerKind, semanticState)
    {
      if Names(states[i], producerKind, semanticState) {
        assert forall s :: i < s < |states| ==> RowsApart(states[i], states[s]);
        return Some(i);
      }
    }
    return None;
  }

  predicate Names(row: StateRow, producerKind: string, semanticState: string) {
    row.producerKind == producerKind && row.semanticState == semanticState
  }

  // ---------- The guard ----------

  datatype ClaimError = OwnerMismatch | EmitFailed

  class EvidenceNoveltyGuard {
    const manifest: Manifest
    const owner: string
    var seenByEpisode: Seen
    /** Every claim accepted so far, in order: what the bitmaps stand for. */
    ghost var claims: seq<Claim>

    ghost predicate Valid()
      reads this
    {
      && Accepted(manifest)
      && Registered(manifest, claims)
      && seenByEpisode == ClaimAll(manifest, claims)
    }

    constructor (manifest: Manifest, owner: string)
      requires Accepted(manifest)
      ensures Valid() && this.manifest == manifest && this.owner == owner && claims == []
    {
      this.manifest, this.owner := manifest, owner;
      seenByEpisode, claims := map[], [];
    }

    /** A state belongs to the guard when its producer's owner is the guard's. */
    predicate Owns(state: nat)
      requires state < |manifest.states|
    {
      OwnerOf(manifest.producers, manifest.states[state].producerKind) == Some(owner)
    }

    /**
     Claim a registered state: refused exactly for another owner's, else true exactly when no earlier call claimed it
     in the episode, and then remembered. The registry keeps every id below the capacity, so the capacity guard never
     fires and the word is in bounds.
     */
    method ClaimOnce(e: Episode, state: nat) returns (r: Result<bool, ClaimError>)
      requires Valid() && state < |manifest.states|
      modifies this
      ensures Valid()
      ensures r.Err? <==> !Owns(state)
      ensures r.Err? ==> r.error == OwnerMismatch && claims == old(claims) && seenByEpisode == old(seenByEpisode)
      ensures r.Ok? ==> claims == old(claims) + [(e, state)]
      ensures r.Ok? ==> (r.value <==> (e, state) !in old(claims))
      ensures manifest.states[state].id < manifest.capacity
    {
      var row := manifest.states[state];
      IdsAreUniqueAndInRange(manifest);
      if OwnerOf(manifest.producers, row.producerKind) != Some(owner) {
        return Err(OwnerMismatch);
      }
      NewExactlyOnFirstClaim(manifest, claims, e, state);
      ClaimAllSnoc(manifest, claims, (e, state));
      claims := claims + [(e, state)];
      var claimed := ReadBit(e, row.id);
      if claimed {
        RepeatChangesNothing(seenByEpisode, manifest.capacity, e, row.id);
        return Ok(false);
      }
      seenByEpisode := seenByEpisode[e := Mark(WordsOf(seenByEpisode, manifest.capacity, e), row.id)];
      return Ok(true);
    }

    /** Test the bit of an id in an episode's bitmap, or in a fresh one. */
    method ReadBit(e: Episode, id: nat) returns (claimed: bool)
      requires SizedFor(seenByEpisode, manifest.capacity) && id < manifest.capacity
      ensures claimed <==> Claimed(seenByEpisode, e, id)
    {
      FreshWordsAreClear(seenByEpisode, manifest.capacity, e, id);
      var words := WordsOf(seenByEpisode, manifest.capacity, e);
      MaskTest(words[id / BITS], id % BITS);
      claimed := And(words[id / BITS], Mask(id % BITS)) != Zero();
    }

    /** Claim before emitting: the emitter runs exactly on a first claim, and a failed emission stays claimed. */
    method EmitOnce(e: Episode, state: nat, emitSucceeds: bool) returns (r: Result<bool, ClaimError>, invoked: bool)
      requires Valid() && state < |manifest.states|
      modifies this
      ensures Valid()
      ensures invoked <==> Owns(state) && (e, state) !in old(claims)
      ensures claims == if Owns(state) then old(claims) + [(e, state)] else old(claims)
      ensures r == if !Owns(state) then Err(OwnerMismatch)
                   else if !invoked then Ok(false)
                   else if emitSucceeds then Ok(true) else Err(EmitFailed)
    {
      invoked := false;
      r := ClaimOnce(e, state);
      if r == Ok(true) {
        invoked := true;
        r := if emitSucceeds then Ok(true) else Err(EmitFailed);
      }
    }

    /** How many distinct states an episode has claimed: the sum of its words' population counts. */
    method SeenStateCount(e: Episode) returns (n: nat)
      requires Valid()
      ensures n == |StatesOf(claims, e)|
    {
      CountIsDistinctClaims(manifest, claims, e);
      if e !in seenByEpisode {
        ZeroWordsCountNothing(WordCount(manifest.capacity));
        return 0;
      }
      n := SumOnes(seenByEpisode[e]);
    }
  }

  /** Add the population counts of the words. */
  method SumOnes(words: seq<Word>) returns (n: nat)
    ensures n == CountOnes(words)
  {
    n := 0;
    for k := 0 to |words|
      invariant n == CountOnes(words[..k])
    {
      assert words[..k + 1][..k] == words[..k];
      n := n + Ones(words[k], BITS);
    }
    assert words[..|words|] == words;
  }
}
