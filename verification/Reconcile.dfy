/**
 * Stored Activity Log operations and their bounded reconciliation: rows whose projection is stale or
 * pending are projected again from the retained payload, and long-pending ones become unknown.
 */
module Reconcile {
  import ChunkCodec
  import opened Options
  import opened Text

  const ASSEMBLER_VERSION: nat := 1
  const MAX_INLINE: nat := 60000

  const RESERVED := {
    "PartitionKey", "RowKey", "Timestamp",
    "OperationIdentity", "OperationIdentityHash", "OperationId", "CorrelationId",
    "SubscriptionId", "ResourceId", "ResourceType", "OperationName",
    "FirstEventTime", "LastEventTime", "RequestEventId", "TerminalEventId",
    "AllEventIds", "AllEventIdsChunkCount",
    "AppliedEventId", "AppliedPayloadGz", "PayloadEncoding",
    "AppliedPayloadSpillBlob", "PayloadTruncated",
    "Outcome", "PairingStatus", "ReprojectionPending",
    "AssemblerVersion", "RecipeVersion", "PublishedVersion",
    "FirstSeenAt", "LastSeenAt", "FinalizedAt"}

  /**
   * What assembly made of the events, copied through storage unchanged.  idChunks: the texts of the event ids
   * where one property cannot hold them, chunk by chunk as ChunkCodec splits them; empty otherwise.
   */
  datatype Facts = Facts(
    operationId: Option<string>, correlation: Option<string>, subscription: string, resource: Option<string>,
    resourceType: Option<string>, operation: Option<string>, firstTime: Option<string>, lastTime: Option<string>,
    requestId: Option<string>, terminalId: Option<string>, allIds: seq<string>, idChunks: seq<string>,
    appliedId: Option<string>,
    encoding: Option<string>, pairing: Option<string>)

  /** key: the identity, which determines partition and row key. */
  datatype Operation = Operation(
    key: string, facts: Facts, columns: map<string, Option<string>>, payload: Option<string>,
    outcome: Option<string>, pending: bool, assembler: Option<nat>, recipe: Option<nat>)

  datatype Row = Row(
    key: string, facts: Facts, columns: map<string, string>, inline: Option<string>, spill: Option<string>,
        truncated: bool,
    outcome: Option<string>, pending: bool, assembler: Option<nat>, recipe: Option<nat>,
    firstSeen: int, lastSeen: int, finalized: Option<int>, published: Option<nat>)

  type Blobs = map<string, string>

  datatype Projection = Projection(columns: map<string, Option<string>>, pending: bool)

  /**
   * What a timestamp parses to.  A local one has no UTC offset: parsing it succeeds, and comparing the result
   * with the clock raises.
   */
  datatype Stamp = Moment(at: int) | Local | Malformed

  /** The recipes of this deployment: the version expected of an operation, and what they make of a payload. */
  datatype Recipes = Recipes(
    versionOf: (Option<string>, Option<string>) -> Option<nat>,
    project: (Option<string>, Option<string>, string) -> seq<Projection>,
    parse: string -> Stamp)

  function Or(s: Option<string>): string { if s.Some? then s.value else "" }

  predicate Truthy(s: Option<string>) { s.Some? && s.value != "" }

  // ---- storage ----

  function SpillName(f: Facts, key: string): string {
    (if f.subscription == "" then "unknown" else Lower(f.subscription)) + "/"
        + (if Truthy(f.appliedId) then f.appliedId.value else key) + ".json.gz"
  }

  predicate Spills(op: Operation) {
    Truthy(op.payload) && |op.payload.value| > MAX_INLINE
  }

  predicate TerminalOutcome(outcome: Option<string>) {
    Lower(Or(outcome)) in {"succeeded", "failed", "cancelled"}
  }

  /** Reserved names are skipped, and so are columns without a value. */
  function Stored(columns: map<string, Option<string>>): map<string, string> {
    map c | c in columns && c !in RESERVED && columns[c].Some? :: columns[c].value
  }

  /** The properties of a long id list; their names are not reserved. */
  function IdColumns(chunks: seq<string>): map<string, string> {
    if chunks == [] then map[]
    else
      var last := |chunks| - 1;
      IdColumns(chunks[..last])[ChunkCodec.ChunkName(ChunkCodec.ALL_EVENT_IDS, last) := chunks[last]]
  }

  /** The columns, over which the id list is written. */
  function Properties(op: Operation): map<string, string> {
    Stored(op.columns) + IdColumns(op.facts.idChunks)
  }

  function Build(op: Operation, seenAt: int): Row {
    Row(op.key, op.facts, Properties(op),
        if Truthy(op.payload) && !Spills(op) then op.payload else None,
        if Spills(op) then Some(SpillName(op.facts, op.key)) else None,
        Spills(op), op.outcome, op.pending, op.assembler, op.recipe,
        seenAt, seenAt, if TerminalOutcome(op.outcome) then Some(seenAt) else None, None)
  }

  function Retained(op: Operation): Option<string> {
    if Truthy(op.payload) then op.payload else None
  }

  function Uploaded(blobs: Blobs, op: Operation): Blobs {
    if Spills(op) then blobs[SpillName(op.facts, op.key) := op.payload.value] else blobs
  }

  /** First seen, first finalized and published survive an upsert. */
  function Preserved(row: Row, prior: Row): Row {
    row.(firstSeen := prior.firstSeen,
         finalized := if prior.finalized.Some? then prior.finalized else row.finalized,
         published := prior.published)
  }

  function Load(row: Row, blobs: Blobs): Option<string> {
    if row.truncated && Truthy(row.spill) && row.spill.value in blobs then Some(blobs[row.spill.value]) else row.inline
  }

  function Hydrate(row: Row, blobs: Blobs): Operation {
    Operation(row.key, row.facts, map c | c in row.columns && c !in RESERVED :: Some(row.columns[c]),
              Load(row, blobs), row.outcome, row.pending, row.assembler, row.recipe)
  }

  ghost predicate RowOk(row: Row, blobs: Blobs) {
    && (forall c | c in row.columns :: c !in RESERVED)
    && (forall c | c in IdColumns(row.facts.idChunks) ::
          c in row.columns && row.columns[c] == IdColumns(row.facts.idChunks)[c])
    && (row.inline.Some? ==> 0 < |row.inline.value| <= MAX_INLINE && row.spill.None?)
    && (row.truncated <==> row.spill.Some?)
    && (row.spill.Some? ==>
          && row.spill.value == SpillName(row.facts, row.key)
          && row.spill.value in blobs && |blobs[row.spill.value]| > MAX_INLINE)
    && (TerminalOutcome(row.outcome) ==> row.finalized.Some?)
  }

  lemma {:induction false} IdColumnsAreNotReserved(chunks: seq<string>)
    ensures forall c | c in IdColumns(chunks) :: c !in RESERVED
  {
    if chunks != [] {
      var last := |chunks| - 1;
      IdColumnsAreNotReserved(chunks[..last]);
      var name := ChunkCodec.ChunkName(ChunkCodec.ALL_EVENT_IDS, last);
      ChunkCodec.ChunkNamesEndInADigit(ChunkCodec.ALL_EVENT_IDS, last);
      ReservedNamesEndInALetter(name);
    }
  }

  lemma ReservedNamesEndInALetter(name: string)
    requires name != [] && '0' <= name[|name| - 1] <= '9'
    ensures name !in RESERVED
  {
  }

  lemma SpillNameIsNotEmpty(f: Facts, key: string)
    ensures SpillName(f, key) != ""
  {
    assert |SpillName(f, key)| >= |".json.gz"|;
  }

  /** What is stored reads back: building a hydrated row gives the row, and uploads what is there. */
  lemma BuildUndoesHydrate(row: Row, blobs: Blobs, seenAt: int)
    requires RowOk(row, blobs)
    ensures Preserved(Build(Hydrate(row, blobs), seenAt), row) == row.(lastSeen := seenAt)
    ensures Uploaded(blobs, Hydrate(row, blobs)) == blobs
  {
    SpillNameIsNotEmpty(row.facts, row.key);
    assert Stored(Hydrate(row, blobs).columns) == row.columns;
    assert Properties(Hydrate(row, blobs)) == row.columns;
  }

  lemma BuiltIsOk(op: Operation, blobs: Blobs, seenAt: int)
    ensures RowOk(Build(op, seenAt), Uploaded(blobs, op))
  {
    IdColumnsAreNotReserved(op.facts.idChunks);
  }

  /** The payload of a built row is the operation's, inline or uploaded. */
  lemma BuiltLoads(op: Operation, blobs: Blobs, seenAt: int)
    ensures Load(Build(op, seenAt), Uploaded(blobs, op)) == Retained(op)
  {
    SpillNameIsNotEmpty(op.facts, op.key);
  }

  /**
   * And the other way: hydrating a built row gives the operation, less the columns storage skips.  The chunks of a
   * long id list, whose names are not reserved, come back among the columns too.
   */
  lemma HydrateUndoesBuild(op: Operation, blobs: Blobs, seenAt: int)
    ensures var row, after := Build(op, seenAt), Uploaded(blobs, op);
      RowOk(row, after) &&
      Hydrate(row, after) == op.(columns := map c | c in Properties(op) :: Some(Properties(op)[c]),
                                 payload := Retained(op))
  {
    BuiltIsOk(op, blobs, seenAt);
    BuiltLoads(op, blobs, seenAt);
  }

  /** How a row is stamped and where its payload goes when it is built. */
  lemma BuildStamps(op: Operation, seenAt: int)
    ensures var row := Build(op, seenAt);
      && row.firstSeen == seenAt && row.lastSeen == seenAt && row.published == None
      && row.finalized == (if op.outcome.Some? && Lower(op.outcome.value) in {"succeeded", "failed", "cancelled"}
                           then Some(seenAt) else None)
      && row.outcome == op.outcome && row.pending == op.pending && row.facts == op.facts && row.key == op.key
      && row.assembler == op.assembler && row.recipe == op.recipe
      && (row.truncated <==> op.payload.Some? && |op.payload.value| > 60000)
      && (row.inline.Some? <==> op.payload.Some? && 0 < |op.payload.value| <= 60000)
  {
    assert Lower("") == "";
  }

  ghost predicate NoSlash(s: string) {
    '/' !in s
  }

  /** The directory and file a payload spills to. */
  ghost predicate SpillsTo(f: Facts, key: string, directory: string, file: string) {
    && directory == (if f.subscription == "" then "unknown" else Lower(f.subscription))
    && file == (if f.appliedId.Some? && f.appliedId.value != "" then f.appliedId.value else key)
  }

  lemma FirstSlash(directory: string, rest: string)
    requires NoSlash(directory)
    ensures var s := directory + "/" + rest;
      s[|directory|] == '/' && (forall i | 0 <= i < |directory| :: s[i] != '/')
        && s[..|directory|] == directory && s[|directory| + 1..] == rest
  {
    forall i | 0 <= i < |directory| ensures (directory + "/" + rest)[i] != '/' { assert directory[i] in directory; }
  }

  lemma SuffixOff(a: string, b: string, suffix: string)
    ensures a + suffix == b + suffix <==> a == b
  {
    if a + suffix == b + suffix {
      assert a == (a + suffix)[..|a|] && b == (b + suffix)[..|b|];
    }
  }

  /** Two payloads share a blob exactly if subscription and applied event, or else operation, agree. */
  lemma OneBlobExactlyForOneEvent(f: Facts, k: string, g: Facts, l: string, d: string, a: string, e: string, b: string)
    requires SpillsTo(f, k, d, a) && SpillsTo(g, l, e, b) && NoSlash(d) && NoSlash(e)
    ensures SpillName(f, k) == SpillName(g, l) <==> d == e && a == b
  {
    var u, v := a + ".json.gz", b + ".json.gz";
    assert SpillName(f, k) == d + "/" + u && SpillName(g, l) == e + "/" + v;
    FirstSlash(d, u);
    FirstSlash(e, v);
    SuffixOff(a, b, ".json.gz");
  }

  // ---- reconciliation of one row ----

  predicate AgeExceeds(r: Recipes, time: Option<string>, now: int, horizon: nat) {
    Truthy(time) && r.parse(time.value).Moment? && now - r.parse(time.value).at > horizon
  }

  /** The age test of a pending operation raises: only a malformed time is caught. */
  predicate AgeRaises(r: Recipes, outcome: Option<string>, f: Facts) {
    Lower(Or(outcome)) == "pending" && Truthy(f.lastTime) && r.parse(f.lastTime.value).Local?
  }

  predicate Overdue(r: Recipes, outcome: Option<string>, f: Facts, now: int, horizon: nat) {
    Lower(Or(outcome)) == "pending" && AgeExceeds(r, f.lastTime, now, horizon)
  }

  predicate Stale(r: Recipes, f: Facts, pending: bool, assembler: Option<nat>, recipe: Option<nat>) {
    pending || assembler != Some(ASSEMBLER_VERSION) || recipe != r.versionOf(f.resourceType, f.operation)
  }

  predicate HasPayload(row: Row) {
    Truthy(row.inline) || Truthy(row.spill)
  }

  /** The pre-filter, before any payload is loaded. */
  predicate Needs(r: Recipes, row: Row, now: int, horizon: nat) {
    Overdue(r, row.outcome, row.facts, now, horizon)
        || (HasPayload(row) && Stale(r, row.facts, row.pending, row.assembler, row.recipe))
  }

  /** Its outcome is still open and its last event is further back than the horizon. */
  ghost predicate LongPending(r: Recipes, outcome: Option<string>, lastTime: Option<string>, now: int, horizon: nat) {
    && outcome.Some? && Lower(outcome.value) == "pending" && lastTime.Some? && lastTime.value != ""
    && r.parse(lastTime.value).Moment? && r.parse(lastTime.value).at + horizon < now
  }

  /** It was projected only in part, by another assembler, or under other recipe versions. */
  ghost predicate Outdated(r: Recipes, f: Facts, pending: bool, assembler: Option<nat>, recipe: Option<nat>) {
    pending || assembler != Some(1) || recipe != r.versionOf(f.resourceType, f.operation)
  }

  /** What the filter selects, in terms of the row. */
  lemma NeedsExactly(r: Recipes, row: Row, now: int, horizon: nat)
    ensures Needs(r, row, now, horizon) <==>
            || LongPending(r, row.outcome, row.facts.lastTime, now, horizon)
            || (((row.inline.Some? && row.inline.value != "") || (row.spill.Some? && row.spill.value != ""))
                && Outdated(r, row.facts, row.pending, row.assembler, row.recipe))
  {
    assert Lower("") == "";
  }

  /** Which rows make the filter raise. */
  lemma RaisesExactly(r: Recipes, outcome: Option<string>, f: Facts)
    ensures AgeRaises(r, outcome, f) <==>
            && outcome.Some? && Lower(outcome.value) == "pending"
            && f.lastTime.Some? && f.lastTime.value != "" && r.parse(f.lastTime.value) == Local
  {
    assert Lower("") == "";
  }

  /** Merging projections: each column is the last one's that has it, and one pending makes the whole pending. */
  lemma {:induction false} MergeTakesTheLast(results: seq<Projection>, c: string)
    ensures forall i | 0 <= i < |results| && c in results[i].columns
              && (forall j | i < j < |results| :: c !in results[j].columns) ::
              c in MergeAll(results).columns && MergeAll(results).columns[c] == results[i].columns[c]
    ensures c in MergeAll(results).columns ==> exists i :: 0 <= i < |results| && c in results[i].columns
    ensures MergeAll(results).pending <==> exists i :: 0 <= i < |results| && results[i].pending
  {
    if results != [] {
      var before, last := results[..|results| - 1], results[|results| - 1];
      MergeTakesTheLast(before, c);
      assert forall i | 0 <= i < |before| :: before[i] == results[i];
      if MergeAll(before).pending { var i :| 0 <= i < |before| && before[i].pending; assert results[i].pending; }
      if c in MergeAll(before).columns {
        var i :| 0 <= i < |before| && c in before[i].columns;
        assert c in results[i].columns;
      }
      assert last == results[|results| - 1];
    }
  }

  function MergeAll(results: seq<Projection>): Projection {
    if results == [] then Projection(map[], false)
    else
      var before, last := MergeAll(results[..|results| - 1]), results[|results| - 1];
      Projection(before.columns + last.columns, before.pending || last.pending)
  }

  /** None: nothing to change.  For an operation whose age test does not raise. */
  function Reconciled(r: Recipes, op: Operation, now: int, horizon: nat): Option<Operation> {
    var stale := Stale(r, op.facts, op.pending, op.assembler, op.recipe) && Truthy(op.payload);
    var overdue := Overdue(r, op.outcome, op.facts, now, horizon);
    if !stale && !overdue then None
    else
      var again := if !stale then op
                   else
                     var p := MergeAll(r.project(op.facts.resourceType, op.facts.operation, op.payload.value));
                     op.(columns := p.columns, pending := p.pending, assembler := Some(ASSEMBLER_VERSION),
                         recipe := r.versionOf(op.facts.resourceType, op.facts.operation));
      Some(if overdue then again.(outcome := Some("unknown")) else again)
  }

  /** What reconciliation makes of an operation, in terms of the operation. */
  lemma ReconciledExactly(r: Recipes, op: Operation, now: int, horizon: nat)
    ensures var again := op.payload.Some? && op.payload.value != ""
        && Outdated(r, op.facts, op.pending, op.assembler, op.recipe);
      var late := LongPending(r, op.outcome, op.facts.lastTime, now, horizon);
      var after := Reconciled(r, op, now, horizon);
      && (after.Some? <==> again || late)
      && (after.Some? ==>
            var p := after.value;
            && p.key == op.key && p.facts == op.facts && p.payload == op.payload
            && p.outcome == (if late then Some("unknown") else op.outcome)
            && (!again ==>
                  p.columns == op.columns && p.pending == op.pending && p.assembler == op.assembler
                    && p.recipe == op.recipe)
            && (again ==>
                  var merged := MergeAll(r.project(op.facts.resourceType, op.facts.operation, op.payload.value));
                  && p.columns == merged.columns && p.pending == merged.pending
                  && p.assembler == Some(1) && p.recipe == r.versionOf(op.facts.resourceType, op.facts.operation)))
  {
    assert Lower("") == "";
  }

  method ReconcileOperation(r: Recipes, op: Operation, now: int, horizon: nat)
    returns (raised: bool, changed: bool, after: Operation)
    ensures raised == AgeRaises(r, op.outcome, op.facts)
    ensures !raised ==> changed == Reconciled(r, op, now, horizon).Some?
    ensures !raised ==> after == if changed then Reconciled(r, op, now, horizon).value else op
  {
    raised, changed, after := false, false, op;
    var expected := r.versionOf(op.facts.resourceType, op.facts.operation);
    if (op.pending || op.assembler != Some(ASSEMBLER_VERSION) || op.recipe != expected) && Truthy(op.payload) {
      var columns: map<string, Option<string>>, pending := map[], false;
      var results := r.project(op.facts.resourceType, op.facts.operation, op.payload.value);
      for k := 0 to |results|
        invariant Projection(columns, pending) == MergeAll(results[..k])
      {
        assert results[..k + 1][..k] == results[..k];
        columns := columns + results[k].columns;
        pending := pending || results[k].pending;
      }
      assert results[..|results|] == results;
      after := after.(columns := columns, pending := pending, assembler := Some(ASSEMBLER_VERSION), recipe := expected);
      changed := true;
    }
    if AgeRaises(r, after.outcome, after.facts) { return true, changed, after; }
    if Overdue(r, after.outcome, after.facts, now, horizon) {
      after := after.(outcome := Some("unknown"));
      changed := true;
    }
  }

  /** The pre-filter is exact: it selects the rows reconciliation changes, and no others. */
  lemma SelectedExactlyWhenChanged(r: Recipes, row: Row, blobs: Blobs, now: int, horizon: nat)
    requires RowOk(row, blobs)
    ensures Needs(r, row, now, horizon) <==> Reconciled(r, Hydrate(row, blobs), now, horizon).Some?
  {
    SpillNameIsNotEmpty(row.facts, row.key);
  }

  /** The stored row after its reconciliation; a row that needs none stays. */
  function Next(r: Recipes, row: Row, blobs: Blobs, now: int, horizon: nat): Row {
    var op := Reconciled(r, Hydrate(row, blobs), now, horizon);
    if op.Some? then Preserved(Build(op.value, now), row) else row
  }

  /** Projecting this row's payload again leaves a field still to be resolved. */
  predicate StaysPending(r: Recipes, row: Row, blobs: Blobs) {
    && HasPayload(row) && Stale(r, row.facts, row.pending, row.assembler, row.recipe)
    && Load(row, blobs).Some?
    && MergeAll(r.project(row.facts.resourceType, row.facts.operation, Load(row, blobs).value)).pending
  }

  lemma UnknownIsNotPending()
    ensures Lower("unknown") != "pending" && !TerminalOutcome(Some("unknown"))
  {
    assert Lower("unknown")[0] == 'u';
  }

  predicate Reprojected(r: Recipes, row: Row) {
    HasPayload(row) && Stale(r, row.facts, row.pending, row.assembler, row.recipe)
  }

  /** What reconciling changes of the hydrated operation. */
  lemma ReconciledKeepsTheRest(r: Recipes, row: Row, blobs: Blobs, now: int, horizon: nat)
    requires RowOk(row, blobs) && Reconciled(r, Hydrate(row, blobs), now, horizon).Some?
    ensures var op := Reconciled(r, Hydrate(row, blobs), now, horizon).value;
      && op.key == row.key && op.facts == row.facts && op.payload == Load(row, blobs)
      && op.outcome == (if Overdue(r, row.outcome, row.facts, now, horizon) then Some("unknown") else row.outcome)
      && (!Reprojected(r, row) ==>
            op.pending == row.pending && op.assembler == row.assembler && op.recipe == row.recipe)
      && (Reprojected(r, row) ==>
            op.assembler == Some(ASSEMBLER_VERSION)
                && op.recipe == r.versionOf(row.facts.resourceType, row.facts.operation)
            && op.pending == StaysPending(r, row, blobs))
  {
    SpillNameIsNotEmpty(row.facts, row.key);
  }

  /** Storing an operation with a row's payload puts it where it was. */
  lemma PayloadStaysPut(op: Operation, row: Row, blobs: Blobs, now: int)
    requires RowOk(row, blobs) && op.key == row.key && op.facts == row.facts && op.payload == Load(row, blobs)
    ensures var next := Preserved(Build(op, now), row);
      && next.inline == row.inline && next.spill == row.spill && next.truncated == row.truncated
      && (forall c | c in next.columns :: c !in RESERVED)
      && next.columns == Properties(op)
      && (row.finalized.Some? ==> next.finalized == row.finalized)
  {
    SpillNameIsNotEmpty(row.facts, row.key);
    IdColumnsAreNotReserved(op.facts.idChunks);
  }

  /** What the row's next state keeps, and what it says of its projection. */
  lemma NextKeepsTheRest(r: Recipes, row: Row, blobs: Blobs, now: int, horizon: nat)
    requires RowOk(row, blobs)
    ensures var next := Next(r, row, blobs, now, horizon);
      && next.key == row.key && next.facts == row.facts
      && next.inline == row.inline && next.spill == row.spill && next.truncated == row.truncated
      && next.outcome == (if Overdue(r, row.outcome, row.facts, now, horizon) then Some("unknown") else row.outcome)
      && (row.finalized.Some? ==> next.finalized == row.finalized)
      && (!Reprojected(r, row) ==>
            next.pending == row.pending && next.assembler == row.assembler && next.recipe == row.recipe)
      && (Reprojected(r, row) ==>
            && next.assembler == Some(ASSEMBLER_VERSION)
            && next.recipe == r.versionOf(row.facts.resourceType, row.facts.operation)
            && next.pending == StaysPending(r, row, blobs))
      && (forall c | c in next.columns :: c !in RESERVED)
      && forall c | c in IdColumns(row.facts.idChunks) ::
           c in next.columns && next.columns[c] == IdColumns(row.facts.idChunks)[c]
  {
    SelectedExactlyWhenChanged(r, row, blobs, now, horizon);
    var op := Reconciled(r, Hydrate(row, blobs), now, horizon);
    if op.Some? {
      ReconciledKeepsTheRest(r, row, blobs, now, horizon);
      PayloadStaysPut(op.value, row, blobs, now);
    }
  }

  /** After reconciliation a row needs it again exactly when its projection stays pending. */
  lemma NeedsAgainExactlyWhenItStaysPending(r: Recipes, row: Row, blobs: Blobs, now: int, horizon: nat)
    requires RowOk(row, blobs)
    ensures Needs(r, Next(r, row, blobs, now, horizon), now, horizon) <==> StaysPending(r, row, blobs)
  {
    NextKeepsTheRest(r, row, blobs, now, horizon);
    UnknownIsNotPending();
  }

  lemma NextIsOk(r: Recipes, row: Row, blobs: Blobs, now: int, horizon: nat)
    requires RowOk(row, blobs)
    ensures RowOk(Next(r, row, blobs, now, horizon), blobs)
  {
    NextKeepsTheRest(r, row, blobs, now, horizon);
    UnknownIsNotPending();
  }

  /** A reconciled operation spills to the blob it came from, with the same content. */
  lemma ReconciliationUploadsWhatIsThere(r: Recipes, row: Row, blobs: Blobs, now: int, horizon: nat)
    requires RowOk(row, blobs) && Reconciled(r, Hydrate(row, blobs), now, horizon).Some?
    ensures Uploaded(blobs, Reconciled(r, Hydrate(row, blobs), now, horizon).value) == blobs
  {
    SpillNameIsNotEmpty(row.facts, row.key);
  }

  // ---- one bounded run over a subscription ----

  /** One run: the deployment's recipes, the spilled payloads, whose rows, when, and how many at most. */
  datatype Task = Task(r: Recipes, blobs: Blobs, subscription: string, now: int, horizon: nat)

  predicate Selected(t: Task, row: Row) {
    row.facts.subscription == t.subscription && Needs(t.r, row, t.now, t.horizon)
  }

  function Pending(t: Task, rows: seq<Row>): nat {
    if rows == [] then 0 else (if Selected(t, rows[0]) then 1 else 0) + Pending(t, rows[1..])
  }

  /** The first maxUnits selected rows. */
  function Targets(t: Task, rows: seq<Row>, maxUnits: nat): seq<Row> {
    if rows == [] || maxUnits == 0 then []
    else if Selected(t, rows[0]) then [rows[0]] + Targets(t, rows[1..], maxUnits - 1)
    else Targets(t, rows[1..], maxUnits)
  }

  function After(t: Task, row: Row): Row {
    Next(t.r, row, t.blobs, t.now, t.horizon)
  }

  /** The table with exactly the targets replaced by their next states. */
  function Swept(t: Task, rows: seq<Row>, maxUnits: nat): seq<Row> {
    if rows == [] || maxUnits == 0 then rows
    else if Selected(t, rows[0]) then [After(t, rows[0])] + Swept(t, rows[1..], maxUnits - 1)
    else [rows[0]] + Swept(t, rows[1..], maxUnits)
  }

  /** The age test of one of the subscription's rows raises, which ends the run before anything is written. */
  predicate Raises(t: Task, row: Row) {
    row.facts.subscription == t.subscription && AgeRaises(t.r, row.outcome, row.facts)
  }

  /** A run is for a named subscription, and the age test of none of its rows raises. */
  predicate Clear(t: Task, rows: seq<Row>) {
    t.subscription != "" && forall row | row in rows :: !Raises(t, row)
  }

  /** The table after a run. */
  function Run(t: Task, rows: seq<Row>, maxUnits: nat): seq<Row> {
    if Clear(t, rows) then Swept(t, rows, maxUnits) else rows
  }

  function Written(t: Task, rows: seq<Row>, maxUnits: nat): nat {
    if Clear(t, rows) then |Targets(t, rows, maxUnits)| else 0
  }

  ghost predicate TableOk(rows: seq<Row>, blobs: Blobs) {
    DistinctRows(rows) && forall row | row in rows :: RowOk(row, blobs)
  }

  ghost predicate DistinctRows(rows: seq<Row>) {
    forall i, j | 0 <= i < j < |rows| :: rows[i].key != rows[j].key
  }

  function Stuck(t: Task, rows: seq<Row>): nat {
    if rows == [] then 0 else (if StaysPending(t.r, rows[0], t.blobs) then 1 else 0) + Stuck(t, rows[1..])
  }

  lemma TargetsAreTheFirst(t: Task, rows: seq<Row>, maxUnits: nat)
    ensures |Targets(t, rows, maxUnits)| == if maxUnits < Pending(t, rows) then maxUnits else Pending(t, rows)
    decreases |rows|
  {
    if rows != [] && maxUnits > 0 {
      TargetsAreTheFirst(t, rows[1..], if Selected(t, rows[0]) then maxUnits - 1 else maxUnits);
    }
  }

  /** A target counts again exactly if its projection stays pending. */
  lemma TargetCountsAgain(t: Task, row: Row)
    requires RowOk(row, t.blobs) && Selected(t, row)
    ensures Selected(t, After(t, row)) <==> StaysPending(t.r, row, t.blobs)
  {
    NeedsAgainExactlyWhenItStaysPending(t.r, row, t.blobs, t.now, t.horizon);
    NextKeepsTheRest(t.r, row, t.blobs, t.now, t.horizon);
  }

  /** The selected target at the front, what it becomes, and the rest. */
  lemma FrontTarget(t: Task, row: Row, next: Row, before: seq<Row>, after: seq<Row>, targets: seq<Row>)
    requires Selected(t, row) && (Selected(t, next) <==> StaysPending(t.r, row, t.blobs))
    requires Pending(t, after) == Pending(t, before) - |targets| + Stuck(t, targets)
    ensures Pending(t, [next] + after) == Pending(t, [row] + before) - |[row] + targets| + Stuck(t, [row] + targets)
  {
    assert ([next] + after)[1..] == after && ([row] + before)[1..] == before && ([row] + targets)[1..] == targets;
  }

  lemma FrontPassed(t: Task, row: Row, before: seq<Row>, after: seq<Row>)
    requires !Selected(t, row)
    ensures Pending(t, [row] + after) == Pending(t, after) && Pending(t, [row] + before) == Pending(t, before)
  {
    assert ([row] + after)[1..] == after && ([row] + before)[1..] == before;
  }

  lemma SweepFront(t: Task, first: Row, rest: seq<Row>, maxUnits: nat)
    requires maxUnits > 0
    ensures Selected(t, first) ==>
      Swept(t, [first] + rest, maxUnits) == [After(t, first)] + Swept(t, rest, maxUnits - 1)
        && Targets(t, [first] + rest, maxUnits) == [first] + Targets(t, rest, maxUnits - 1)
    ensures !Selected(t, first) ==>
      Swept(t, [first] + rest, maxUnits) == [first] + Swept(t, rest, maxUnits)
        && Targets(t, [first] + rest, maxUnits) == Targets(t, rest, maxUnits)
  {
    assert ([first] + rest)[1..] == rest;
  }

  /** The count of a sweep, as the law has it. */
  ghost predicate Lowers(t: Task, rows: seq<Row>, maxUnits: nat) {
    Pending(t, Swept(t, rows, maxUnits)) ==
      Pending(t, rows) - |Targets(t, rows, maxUnits)| + Stuck(t, Targets(t, rows, maxUnits))
  }

  lemma SweepTakes(t: Task, first: Row, rest: seq<Row>, maxUnits: nat)
    requires maxUnits > 0 && RowOk(first, t.blobs) && Selected(t, first) && Lowers(t, rest, maxUnits - 1)
    ensures Lowers(t, [first] + rest, maxUnits)
  {
    var next, after, targets := After(t, first), Swept(t, rest, maxUnits - 1), Targets(t, rest, maxUnits - 1);
    SweepFront(t, first, rest, maxUnits);
    TargetCountsAgain(t, first);
    FrontTarget(t, first, next, rest, after, targets);
  }

  lemma SweepPasses(t: Task, first: Row, rest: seq<Row>, maxUnits: nat)
    requires maxUnits > 0 && !Selected(t, first) && Lowers(t, rest, maxUnits)
    ensures Lowers(t, [first] + rest, maxUnits)
  {
    SweepFront(t, first, rest, maxUnits);
    FrontPassed(t, first, rest, Swept(t, rest, maxUnits));
  }

  ghost predicate RowsOk(rows: seq<Row>, blobs: Blobs) {
    forall row | row in rows :: RowOk(row, blobs)
  }

  lemma FrontOk(first: Row, rest: seq<Row>, blobs: Blobs)
    requires RowsOk([first] + rest, blobs)
    ensures RowOk(first, blobs) && RowsOk(rest, blobs)
  {
    assert first in [first] + rest && forall row | row in rest :: row in [first] + rest;
  }

  lemma {:induction false} EverySweepLowers(t: Task, rows: seq<Row>, maxUnits: nat)
    requires RowsOk(rows, t.blobs)
    ensures Lowers(t, rows, maxUnits)
  {
    if rows != [] && maxUnits > 0 {
      var first, rest := rows[0], rows[1..];
      assert rows == [first] + rest;
      FrontOk(first, rest, t.blobs);
      if Selected(t, first) {
        EverySweepLowers(t, rest, maxUnits - 1);
        SweepTakes(t, first, rest, maxUnits);
      } else {
        EverySweepLowers(t, rest, maxUnits);
        SweepPasses(t, first, rest, maxUnits);
      }
    }
  }

  /** A run lowers the pending count by its targets, less those whose projection stays pending. */
  lemma SweepLowersTheCount(t: Task, rows: seq<Row>, maxUnits: nat)
    requires forall row | row in rows :: RowOk(row, t.blobs)
    ensures Pending(t, Swept(t, rows, maxUnits)) ==
        Pending(t, rows) - |Targets(t, rows, maxUnits)| + Stuck(t, Targets(t, rows, maxUnits))
  {
    EverySweepLowers(t, rows, maxUnits);
  }

  lemma {:induction false} StuckCounts(t: Task, rows: seq<Row>)
    ensures Stuck(t, rows) == 0 <==> forall row | row in rows :: !StaysPending(t.r, row, t.blobs)
    ensures Stuck(t, rows) <= |rows|
  {
    if rows != [] {
      StuckCounts(t, rows[1..]);
      assert rows == [rows[0]] + rows[1..];
    }
  }

  /**
   * The exact condition: the count falls by min(maxUnits, count) if and only if there is nothing to do, or no row
   * of the subscription has a pending outcome and a time without an offset, and no target stays pending.
   */
  lemma RunDrainsExactlyWhenClearAndNothingStays(t: Task, rows: seq<Row>, maxUnits: nat)
    requires TableOk(rows, t.blobs)
    ensures Pending(t, Run(t, rows, maxUnits)) == Left(Pending(t, rows), maxUnits)
            <==> Targets(t, rows, maxUnits) == []
                 || (Clear(t, rows)
                     && forall row | row in Targets(t, rows, maxUnits) :: !StaysPending(t.r, row, t.blobs))
  {
    SweepLowersTheCount(t, rows, maxUnits);
    TargetsAreTheFirst(t, rows, maxUnits);
    StuckCounts(t, Targets(t, rows, maxUnits));
  }

  ghost predicate NoneStays(t: Task, rows: seq<Row>) {
    forall row | row in rows :: RowOk(row, t.blobs) && !StaysPending(t.r, row, t.blobs)
  }

  lemma {:induction false} SweepKeepsNoneStays(t: Task, rows: seq<Row>, maxUnits: nat)
    requires NoneStays(t, rows)
    ensures NoneStays(t, Swept(t, rows, maxUnits))
  {
    if rows != [] && maxUnits > 0 {
      assert rows[0] in rows;
      assert NoneStays(t, rows[1..]);
      SweepKeepsNoneStays(t, rows[1..], if Selected(t, rows[0]) then maxUnits - 1 else maxUnits);
      NextKeepsTheRest(t.r, rows[0], t.blobs, t.now, t.horizon);
      NextIsOk(t.r, rows[0], t.blobs, t.now, t.horizon);
    }
  }

  lemma NextRaisesNoMore(t: Task, row: Row)
    requires RowOk(row, t.blobs) && !Raises(t, row)
    ensures !Raises(t, After(t, row))
  {
    NextKeepsTheRest(t.r, row, t.blobs, t.now, t.horizon);
    UnknownIsNotPending();
  }

  lemma {:induction false} SweepKeepsClear(t: Task, rows: seq<Row>, maxUnits: nat)
    requires Clear(t, rows) && forall row | row in rows :: RowOk(row, t.blobs)
    ensures Clear(t, Swept(t, rows, maxUnits))
  {
    if rows != [] && maxUnits > 0 {
      assert rows[0] in rows;
      SweepKeepsClear(t, rows[1..], if Selected(t, rows[0]) then maxUnits - 1 else maxUnits);
      NextRaisesNoMore(t, rows[0]);
    }
  }

  function Runs(t: Task, rows: seq<Row>, maxUnits: nat, n: nat): seq<Row>
    decreases n
  {
    if n == 0 then rows else Runs(t, Run(t, rows, maxUnits), maxUnits, n - 1)
  }

  function Left(count: nat, done: nat): nat {
    if done < count then count - done else 0
  }

  /** Enough runs drain the subscription, and the next run then has no targets and writes nothing. */
  lemma {:induction false} RunsDrain(t: Task, rows: seq<Row>, maxUnits: nat, n: nat)
    requires NoneStays(t, rows) && Clear(t, rows) && maxUnits > 0
    ensures Pending(t, Runs(t, rows, maxUnits, n)) == Left(Pending(t, rows), n * maxUnits)
    ensures Pending(t, rows) <= n * maxUnits ==>
              Targets(t, Runs(t, rows, maxUnits, n), maxUnits) == []
                  && Swept(t, Runs(t, rows, maxUnits, n), maxUnits) == Runs(t, rows, maxUnits, n)
    decreases n
  {
    if n == 0 {
      DoneChangesNothing(t, rows, maxUnits);
    } else {
      var next := Swept(t, rows, maxUnits);
      OneRunDrains(t, rows, maxUnits);
      SweepKeepsNoneStays(t, rows, maxUnits);
      SweepKeepsClear(t, rows, maxUnits);
      RunsDrain(t, next, maxUnits, n - 1);
      MoreRuns(Pending(t, rows), n, maxUnits);
    }
  }

  lemma {:induction false} BlockedRuns(t: Task, rows: seq<Row>, maxUnits: nat, n: nat)
    requires !Clear(t, rows)
    ensures Runs(t, rows, maxUnits, n) == rows
    decreases n
  {
    if n > 0 { BlockedRuns(t, rows, maxUnits, n - 1); }
  }

  /** If no row stays pending, runs drain a subscription exactly when it is clear or there was nothing to do. */
  lemma RunsDrainExactlyWhenClear(t: Task, rows: seq<Row>, maxUnits: nat, n: nat)
    requires NoneStays(t, rows) && maxUnits > 0 && n > 0
    ensures Pending(t, Runs(t, rows, maxUnits, n)) == Left(Pending(t, rows), n * maxUnits)
            <==> Clear(t, rows) || Pending(t, rows) == 0
  {
    assert n * maxUnits > 0;
    if Clear(t, rows) { RunsDrain(t, rows, maxUnits, n); } else { BlockedRuns(t, rows, maxUnits, n); }
  }

  // ---- runs at later and later instants ----

  function At(t: Task, now: int): Task {
    t.(now := now)
  }

  /** Rows that only the passing of time has made overdue. */
  function Fresh(t: Task, now: int, rows: seq<Row>): nat {
    if rows == [] then 0
    else (if Selected(At(t, now), rows[0]) && !Selected(t, rows[0]) then 1 else 0) + Fresh(t, now, rows[1..])
  }

  /** Rows that time may yet make overdue. */
  function Waiting(t: Task, rows: seq<Row>): nat {
    if rows == [] then 0 else (if Awaits(t, rows[0]) then 1 else 0) + Waiting(t, rows[1..])
  }

  predicate Awaits(t: Task, row: Row) {
    && row.facts.subscription == t.subscription && Lower(Or(row.outcome)) == "pending"
    && !Overdue(t.r, row.outcome, row.facts, t.now, t.horizon)
  }

  lemma {:induction false} TimeOnlyAdds(t: Task, now: int, rows: seq<Row>)
    requires t.now <= now
    ensures Pending(At(t, now), rows) == Pending(t, rows) + Fresh(t, now, rows)
    ensures Fresh(t, now, rows) + Waiting(At(t, now), rows) <= Waiting(t, rows)
  {
    if rows != [] { TimeOnlyAdds(t, now, rows[1..]); }
  }

  /** A run never makes a row wait that did not. */
  lemma AwaitsBefore(t: Task, row: Row)
    requires RowOk(row, t.blobs) && Awaits(t, After(t, row))
    ensures Awaits(t, row)
  {
    NextKeepsTheRest(t.r, row, t.blobs, t.now, t.horizon);
    UnknownIsNotPending();
  }

  lemma WaitingOfCons(t: Task, row: Row, rest: seq<Row>)
    ensures Waiting(t, [row] + rest) == (if Awaits(t, row) then 1 else 0) + Waiting(t, rest)
  {
    assert ([row] + rest)[1..] == rest;
  }

  lemma {:induction false} SweepNeverAddsWaiting(t: Task, rows: seq<Row>, maxUnits: nat)
    requires forall row | row in rows :: RowOk(row, t.blobs)
    ensures Waiting(t, Swept(t, rows, maxUnits)) <= Waiting(t, rows)
  {
    if rows != [] && maxUnits > 0 {
      var first, rest := rows[0], rows[1..];
      if Selected(t, first) {
        SweepNeverAddsWaiting(t, rest, maxUnits - 1);
        if Awaits(t, After(t, first)) { AwaitsBefore(t, first); }
        WaitingOfCons(t, After(t, first), Swept(t, rest, maxUnits - 1));
      } else {
        SweepNeverAddsWaiting(t, rest, maxUnits);
        WaitingOfCons(t, first, Swept(t, rest, maxUnits));
      }
    }
  }

  ghost predicate ClockAdvances(from: int, times: seq<int>) {
    && (forall i | 0 <= i < |times| :: from <= times[i])
    && (forall i, j | 0 <= i < j < |times| :: times[i] <= times[j])
  }

  /** Of runs at given instants: what is pending after the last, the newly overdue each finds, the rows written. */
  datatype Log = Log(left: nat, arrivals: seq<nat>, written: nat)

  function RunsOver(t: Task, rows: seq<Row>, maxUnits: nat, times: seq<int>): Log
    decreases |times|
  {
    if times == [] then Log(Pending(t, rows), [], 0)
    else
      var t1 := At(t, times[0]);
      var rest := RunsOver(t1, Run(t1, rows, maxUnits), maxUnits, times[1..]);
      Log(rest.left, [Fresh(t, times[0], rows)] + rest.arrivals, Written(t1, rows, maxUnits) + rest.written)
  }

  /** The table those runs leave. */
  function TableOver(t: Task, rows: seq<Row>, maxUnits: nat, times: seq<int>): seq<Row>
    decreases |times|
  {
    if times == [] then rows
    else TableOver(At(t, times[0]), Run(At(t, times[0]), rows, maxUnits), maxUnits, times[1..])
  }

  /** A subscription that is not clear never becomes so: no run at any instant writes a row of it. */
  lemma {:induction false} BlockedForGood(t: Task, rows: seq<Row>, maxUnits: nat, times: seq<int>)
    requires !Clear(t, rows)
    ensures TableOver(t, rows, maxUnits, times) == rows && RunsOver(t, rows, maxUnits, times).written == 0
    decreases |times|
  {
    if times != [] {
      assert Clear(At(t, times[0]), rows) <==> Clear(t, rows) by {
        forall row | row in rows ensures Raises(At(t, times[0]), row) <==> Raises(t, row) {}
      }
      BlockedForGood(At(t, times[0]), rows, maxUnits, times[1..]);
    }
  }

  /** A queue served maxUnits at a time. */
  function Queue(count: nat, arrivals: seq<nat>, maxUnits: nat): nat
    decreases |arrivals|
  {
    if arrivals == [] then count else Queue(Left(count + arrivals[0], maxUnits), arrivals[1..], maxUnits)
  }

  function Total(arrivals: seq<nat>): nat {
    if arrivals == [] then 0 else arrivals[0] + Total(arrivals[1..])
  }

  lemma NoneStaysAt(t: Task, now: int, rows: seq<Row>)
    requires NoneStays(t, rows) && Clear(t, rows)
    ensures NoneStays(At(t, now), rows) && Clear(At(t, now), rows)
  {
    forall row | row in rows ensures !Raises(At(t, now), row) { assert !Raises(t, row); }
    forall row | row in rows
      ensures !StaysPending(At(t, now).r, row, At(t, now).blobs)
    {
      assert !StaysPending(t.r, row, t.blobs);
    }
  }

  lemma StillClearLater(t: Task, rows: seq<Row>, maxUnits: nat, now: int)
    requires NoneStays(t, rows) && Clear(t, rows)
    ensures var t1 := At(t, now);
      && NoneStays(t1, rows) && Clear(t1, rows)
      && NoneStays(t1, Swept(t1, rows, maxUnits)) && Clear(t1, Swept(t1, rows, maxUnits))
  {
    var t1 := At(t, now);
    NoneStaysAt(t, now, rows);
    SweepKeepsNoneStays(t1, rows, maxUnits);
    SweepKeepsClear(t1, rows, maxUnits);
  }

  /** One run: who is left, who was written, who still waits. */
  lemma OneRunServes(t: Task, rows: seq<Row>, maxUnits: nat)
    requires NoneStays(t, rows)
    ensures var swept := Swept(t, rows, maxUnits);
      && Pending(t, swept) == Left(Pending(t, rows), maxUnits)
      && Pending(t, rows) == |Targets(t, rows, maxUnits)| + Pending(t, swept)
      && Waiting(t, swept) <= Waiting(t, rows)
  {
    OneRunDrains(t, rows, maxUnits);
    TargetsAreTheFirst(t, rows, maxUnits);
    SweepNeverAddsWaiting(t, rows, maxUnits);
  }

  /** And one run later on, to which the newly overdue have come. */
  lemma OneRunLater(t: Task, rows: seq<Row>, maxUnits: nat, now: int)
    requires NoneStays(At(t, now), rows) && t.now <= now
    ensures var t1 := At(t, now);
      var swept := Swept(t1, rows, maxUnits);
      && Pending(t1, swept) == Left(Pending(t, rows) + Fresh(t, now, rows), maxUnits)
      && Pending(t, rows) + Fresh(t, now, rows) == |Targets(t1, rows, maxUnits)| + Pending(t1, swept)
      && Fresh(t, now, rows) + Waiting(t1, swept) <= Waiting(t, rows)
  {
    TimeOnlyAdds(t, now, rows);
    OneRunServes(At(t, now), rows, maxUnits);
  }

  lemma RunsOverFirst(t: Task, rows: seq<Row>, maxUnits: nat, times: seq<int>)
    requires times != [] && Clear(At(t, times[0]), rows)
    ensures var t1 := At(t, times[0]);
      var rest := RunsOver(t1, Swept(t1, rows, maxUnits), maxUnits, times[1..]);
      RunsOver(t, rows, maxUnits, times) == Log(rest.left, [Fresh(t, times[0], rows)] + rest.arrivals,
                                                |Targets(t1, rows, maxUnits)| + rest.written)
  {
  }

  lemma ClockStillAdvances(from: int, times: seq<int>)
    requires times != [] && ClockAdvances(from, times)
    ensures from <= times[0] && ClockAdvances(times[0], times[1..])
  {
  }

  /** What the log says of a backlog and of the rows that may still arrive. */
  ghost predicate Balanced(log: Log, pending: nat, waiting: nat, maxUnits: nat) {
    && log.left == Queue(pending, log.arrivals, maxUnits)
    && log.written + log.left == pending + Total(log.arrivals)
    && Total(log.arrivals) <= waiting
  }

  lemma OneMoreRunBalances(rest: Log, first: nat, targets: nat, pending: nat, after: nat, waiting: nat,
      stillWaiting: nat, maxUnits: nat)
    requires Balanced(rest, after, stillWaiting, maxUnits) && first + stillWaiting <= waiting
    requires after == Left(pending + first, maxUnits) && pending + first == targets + after
    ensures Balanced(Log(rest.left, [first] + rest.arrivals, targets + rest.written), pending, waiting, maxUnits)
  {
    assert ([first] + rest.arrivals)[1..] == rest.arrivals;
  }

  /** The log of a first run and of the rest. */
  lemma FirstRunBalances(t: Task, rows: seq<Row>, maxUnits: nat, now: int, rest: Log)
    requires NoneStays(At(t, now), rows) && t.now <= now
    requires var t1, swept := At(t, now), Swept(At(t, now), rows, maxUnits);
      Balanced(rest, Pending(t1, swept), Waiting(t1, swept), maxUnits)
    ensures Balanced(Log(rest.left, [Fresh(t, now, rows)] + rest.arrivals,
                         |Targets(At(t, now), rows, maxUnits)| + rest.written),
                     Pending(t, rows), Waiting(t, rows), maxUnits)
  {
    var t1 := At(t, now);
    var swept := Swept(t1, rows, maxUnits);
    OneRunLater(t, rows, maxUnits, now);
    OneMoreRunBalances(rest, Fresh(t, now, rows), |Targets(t1, rows, maxUnits)|, Pending(t, rows), Pending(t1, swept),
                       Waiting(t, rows), Waiting(t1, swept), maxUnits);
  }

  lemma {:induction false} AllRunsBalance(t: Task, rows: seq<Row>, maxUnits: nat, times: seq<int>, log: Log)
    requires NoneStays(t, rows) && Clear(t, rows) && ClockAdvances(t.now, times)
    requires log == RunsOver(t, rows, maxUnits, times)
    ensures |log.arrivals| == |times| && Balanced(log, Pending(t, rows), Waiting(t, rows), maxUnits)
    decreases |times|
  {
    if times != [] {
      var t1 := At(t, times[0]);
      var swept := Swept(t1, rows, maxUnits);
      var rest := RunsOver(t1, swept, maxUnits, times[1..]);
      ClockStillAdvances(t.now, times);
      StillClearLater(t, rows, maxUnits, times[0]);
      RunsOverFirst(t, rows, maxUnits, times);
      AllRunsBalance(t1, swept, maxUnits, times[1..], rest);
      FirstRunBalances(t, rows, maxUnits, times[0], rest);
    }
  }

  /**
   * Over runs at any nondecreasing instants of a clear subscription, under one set of recipes and with no row staying
   * pending: the
   * backlog is that of a queue which each run serves maxUnits of and to which time adds the newly overdue;
   * what is written is what was pending and what arrived, less what is left; and no more ever arrives than
   * was waiting at the start, so that all but finitely many runs find nothing to write.
   */
  lemma RunsDrainOverTime(t: Task, rows: seq<Row>, maxUnits: nat, times: seq<int>)
    requires NoneStays(t, rows) && Clear(t, rows) && ClockAdvances(t.now, times)
    ensures |RunsOver(t, rows, maxUnits, times).arrivals| == |times|
    ensures Balanced(RunsOver(t, rows, maxUnits, times), Pending(t, rows), Waiting(t, rows), maxUnits)
  {
    AllRunsBalance(t, rows, maxUnits, times, RunsOver(t, rows, maxUnits, times));
  }

  lemma MoreRuns(count: nat, n: nat, maxUnits: nat)
    requires n > 0
    ensures n * maxUnits == (n - 1) * maxUnits + maxUnits && (n - 1) * maxUnits >= 0
    ensures Left(Left(count, maxUnits), (n - 1) * maxUnits) == Left(count, n * maxUnits)
    ensures count <= n * maxUnits ==> Left(count, maxUnits) <= (n - 1) * maxUnits
  {
  }

  lemma OneRunDrains(t: Task, rows: seq<Row>, maxUnits: nat)
    requires NoneStays(t, rows)
    ensures Pending(t, Swept(t, rows, maxUnits)) == Left(Pending(t, rows), maxUnits)
  {
    SweepLowersTheCount(t, rows, maxUnits);
    TargetsAreTheFirst(t, rows, maxUnits);
    TargetsAreRows(t, rows, maxUnits);
    StuckCounts(t, Targets(t, rows, maxUnits));
  }

  lemma {:induction false} DoneChangesNothing(t: Task, rows: seq<Row>, maxUnits: nat)
    ensures Pending(t, rows) == 0 ==> Targets(t, rows, maxUnits) == [] && Swept(t, rows, maxUnits) == rows
  {
    if rows != [] && maxUnits > 0 { DoneChangesNothing(t, rows[1..], maxUnits); }
  }

  lemma {:induction false} TargetsAreRows(t: Task, rows: seq<Row>, maxUnits: nat)
    ensures forall row | row in Targets(t, rows, maxUnits) :: row in rows && Selected(t, row)
  {
    if rows != [] && maxUnits > 0 {
      TargetsAreRows(t, rows[1..], if Selected(t, rows[0]) then maxUnits - 1 else maxUnits);
    }
  }

  // ---- the store ----

  function RowAt(rows: seq<Row>, key: string): Option<Row> {
    if rows == [] then None else if rows[0].key == key then Some(rows[0]) else RowAt(rows[1..], key)
  }

  /** What an entity is written as: the preserved fields come from the row before the batch. */
  function Merged(start: seq<Row>, e: Row): Row {
    if RowAt(start, e.key).Some? then Preserved(e, RowAt(start, e.key).value) else e
  }

  /** One table upsert. */
  function UpsertRow(rows: seq<Row>, start: seq<Row>, e: Row): seq<Row> {
    var row := Merged(start, e);
    if RowAt(rows, e.key).Some? then seq(|rows|, i requires 0 <= i < |rows| => if rows[i].key == e.key then row
        else rows[i])
    else rows + [row]
  }

  function UpsertRows(start: seq<Row>, entities: seq<Row>): seq<Row> {
    if entities == [] then start else UpsertRow(UpsertRows(start, entities[..|entities| - 1]), start,
        entities[|entities| - 1])
  }

  /** A dictionary by key in insertion order: a later operation replaces an earlier one of its key. */
  function PutRow(entities: seq<Row>, e: Row): seq<Row> {
    if RowAt(entities, e.key).Some?
        then seq(|entities|, i requires 0 <= i < |entities| => if entities[i].key == e.key then e else entities[i])
    else entities + [e]
  }

  function Entities(ops: seq<Operation>, seenAt: int): seq<Row> {
    if ops == [] then [] else PutRow(Entities(ops[..|ops| - 1], seenAt), Build(ops[|ops| - 1], seenAt))
  }

  function UploadAll(blobs: Blobs, ops: seq<Operation>): Blobs {
    if ops == [] then blobs else Uploaded(UploadAll(blobs, ops[..|ops| - 1]), ops[|ops| - 1])
  }

  /**
   * Storing an operation again, as an overlapping collection does, changes only when it was last
   * seen: the first sighting, the earliest terminal time and the published version stay.
   */
  lemma UpsertAgainOnlyTouchesLastSeen(rows: seq<Row>, op: Operation, first: int, again: int)
    requires DistinctRows(rows)
    ensures var once := UpsertRows(rows, [Build(op, first)]);
      UpsertRows(once, [Build(op, again)]) ==
      seq(|once|, i requires 0 <= i < |once| => if once[i].key == op.key then once[i].(lastSeen := again) else once[i])
  {
    UpsertOne(rows, Build(op, first));
    var once := UpsertRows(rows, [Build(op, first)]);
    UpsertOne(once, Build(op, again));
    var at := WhereUpserted(rows, Build(op, first));
    UpsertFound(once, once, Build(op, again), once[at], at);
  }

  /** After an upsert the table has one row of that key. */
  lemma WhereUpserted(rows: seq<Row>, e: Row) returns (at: nat)
    requires DistinctRows(rows)
    ensures var once := UpsertRow(rows, rows, e);
      && DistinctRows(once) && at < |once|
      && once[at] == Merged(rows, e)
  {
    RowAtFinds(rows, e.key);
    if RowAt(rows, e.key).Some? {
      at :| at < |rows| && rows[at].key == e.key;
    } else {
      at := |rows|;
    }
  }

  lemma UpsertOne(rows: seq<Row>, e: Row)
    ensures UpsertRows(rows, [e]) == UpsertRow(rows, rows, e)
  {
    assert [e][..0] == [];
    assert UpsertRows(rows, []) == rows;
  }

  class ActivityLogStore {
    var rows: seq<Row>
    var blobs: Blobs

    constructor ()
      ensures rows == [] && blobs == map[] && TableOk(rows, blobs)
    {
      rows, blobs := [], map[];
    }

    method UpsertOperations(ops: seq<Operation>, seenAt: int) returns (written: nat)
      modifies this
      ensures old(TableOk(rows, blobs)) ==> TableOk(rows, blobs)
      ensures rows == UpsertRows(old(rows), Entities(ops, seenAt)) && blobs == UploadAll(old(blobs), ops)
      ensures written == |Entities(ops, seenAt)|
    {
      var entities: seq<Row> := [];
      for k := 0 to |ops|
        invariant entities == Entities(ops[..k], seenAt) && blobs == UploadAll(old(blobs), ops[..k])
            && rows == old(rows)
      {
        assert ops[..k + 1][..k] == ops[..k];
        entities := PutRow(entities, Build(ops[k], seenAt));
        blobs := Uploaded(blobs, ops[k]);
      }
      assert ops[..|ops|] == ops;
      WriteRows(entities);
      written := |entities|;
      if old(TableOk(rows, blobs)) { UpsertKeepsTableOk(old(rows), old(blobs), ops, seenAt); }
    }

    method WriteRows(entities: seq<Row>)
      modifies this`rows
      ensures rows == UpsertRows(old(rows), entities)
    {
      var start := rows;
      for k := 0 to |entities|
        invariant rows == UpsertRows(start, entities[..k])
      {
        assert entities[..k + 1][..k] == entities[..k];
        rows := UpsertRow(rows, start, entities[k]);
      }
      assert entities[..|entities|] == entities;
    }

    /**
     * One bounded run: exactly the targets are rewritten, every one of them, and no blob changes; a row whose age
     * test raises ends it in an error with nothing written.
     */
    method ReconcileSubscription(t: Task, maxUnits: nat) returns (ok: bool, reconciled: nat)
      requires TableOk(rows, blobs) && t.blobs == blobs
      modifies this
      ensures ok == (maxUnits == 0 || t.subscription == "" || Clear(t, old(rows)))
      ensures rows == Run(t, old(rows), maxUnits) && blobs == old(blobs) && TableOk(rows, blobs)
      ensures reconciled == Written(t, old(rows), maxUnits)
    {
      if t.subscription == "" || maxUnits == 0 { return true, 0; }
      var raised, targets := SelectTargets(t, rows, maxUnits);
      if raised { return false, 0; }
      SweepKeepsTableOk(t, rows, maxUnits);
      UpdatesSweep(t, rows, maxUnits);
      TargetsAreRows(t, rows, maxUnits);
      var updates := Replay(t, targets);
      ok := true;
      if updates == [] { return true, 0; }
      reconciled := UpsertOperations(updates, t.now);
    }

    method Replay(t: Task, targets: seq<Row>) returns (updates: seq<Operation>)
      requires t.blobs == blobs && forall row | row in targets :: RowOk(row, t.blobs) && Selected(t, row)
      requires forall row | row in targets :: !Raises(t, row)
      ensures updates == Updates(t, targets)
    {
      updates := [];
      for k := 0 to |targets|
        invariant updates == Updates(t, targets[..k])
      {
        assert targets[..k + 1][..k] == targets[..k] && targets[k] in targets;
        SelectedExactlyWhenChanged(t.r, targets[k], blobs, t.now, t.horizon);
        var _, changed, op := ReconcileOperation(t.r, Hydrate(targets[k], blobs), t.now, t.horizon);
        if changed { updates := updates + [op]; }
      }
      assert targets[..|targets|] == targets;
    }
  }

  /** All rows the filter selects, in order. */
  function Picked(t: Task, rows: seq<Row>): seq<Row> {
    if rows == [] then [] else (if Selected(t, rows[0]) then [rows[0]] else []) + Picked(t, rows[1..])
  }

  lemma {:induction false} TargetsArePicked(t: Task, rows: seq<Row>, maxUnits: nat)
    ensures var all := Picked(t, rows);
      Targets(t, rows, maxUnits) == if maxUnits < |all| then all[..maxUnits] else all
    decreases |rows|
  {
    if rows != [] && maxUnits > 0 {
      TargetsArePicked(t, rows[1..], if Selected(t, rows[0]) then maxUnits - 1 else maxUnits);
    }
  }

  lemma PickNext(t: Task, rows: seq<Row>, k: nat, picked: seq<Row>)
    requires k < |rows|
    ensures var more := if Selected(t, rows[k]) then picked + [rows[k]] else picked;
      more + Picked(t, rows[k + 1..]) == picked + Picked(t, rows[k..])
  {
    assert rows[k..][0] == rows[k] && rows[k..][1..] == rows[k + 1..];
  }

  /** Every row of the subscription is put through the filter, and then the first maxUnits are taken. */
  method SelectTargets(t: Task, rows: seq<Row>, maxUnits: nat) returns (raised: bool, targets: seq<Row>)
    ensures raised <==> exists row :: row in rows && Raises(t, row)
    ensures !raised ==> targets == Targets(t, rows, maxUnits)
  {
    targets := [];
    assert rows[0..] == rows;
    for k := 0 to |rows|
      invariant targets + Picked(t, rows[k..]) == Picked(t, rows)
      invariant forall j | 0 <= j < k :: !Raises(t, rows[j])
    {
      if Raises(t, rows[k]) { return true, targets; }
      PickNext(t, rows, k, targets);
      if Selected(t, rows[k]) { targets := targets + [rows[k]]; }
    }
    assert rows[|rows|..] == [];
    raised := false;
    TargetsArePicked(t, rows, maxUnits);
    targets := if maxUnits < |targets| then targets[..maxUnits] else targets;
  }

  // ---- the table stays well formed ----

  lemma UploadKeepsRowOk(row: Row, blobs: Blobs, op: Operation)
    requires RowOk(row, blobs)
    ensures RowOk(row, Uploaded(blobs, op))
  {
  }

  lemma PreservedIsOk(row: Row, prior: Row, blobs: Blobs)
    requires RowOk(row, blobs)
    ensures RowOk(Preserved(row, prior), blobs) && Preserved(row, prior).key == row.key
  {
  }

  lemma PutRowKeeps(entities: seq<Row>, e: Row)
    ensures forall row | row in PutRow(entities, e) :: row in entities || row == e
  {
  }

  lemma {:induction false} EntitiesAreOk(blobs: Blobs, ops: seq<Operation>, seenAt: int)
    ensures forall row | row in Entities(ops, seenAt) :: RowOk(row, UploadAll(blobs, ops))
  {
    if ops != [] {
      var before, op := ops[..|ops| - 1], ops[|ops| - 1];
      EntitiesAreOk(blobs, before, seenAt);
      BuiltIsOk(op, UploadAll(blobs, before), seenAt);
      PutRowKeeps(Entities(before, seenAt), Build(op, seenAt));
      forall row | row in Entities(before, seenAt) ensures RowOk(row, UploadAll(blobs, ops)) {
        UploadKeepsRowOk(row, UploadAll(blobs, before), op);
      }
    }
  }

  lemma {:induction false} UploadsKeepRowOk(row: Row, blobs: Blobs, ops: seq<Operation>)
    requires RowOk(row, blobs)
    ensures RowOk(row, UploadAll(blobs, ops))
  {
    if ops != [] {
      UploadsKeepRowOk(row, blobs, ops[..|ops| - 1]);
      UploadKeepsRowOk(row, UploadAll(blobs, ops[..|ops| - 1]), ops[|ops| - 1]);
    }
  }

  lemma UpsertRowKeepsTableOk(rows: seq<Row>, start: seq<Row>, e: Row, blobs: Blobs)
    requires TableOk(rows, blobs) && RowOk(e, blobs)
    ensures TableOk(UpsertRow(rows, start, e), blobs)
  {
    var row := Merged(start, e);
    if RowAt(start, e.key).Some? { PreservedIsOk(e, RowAt(start, e.key).value, blobs); }
    RowAtFinds(rows, e.key);
    forall x | x in UpsertRow(rows, start, e) ensures RowOk(x, blobs) { assert x in rows || x == row; }
  }

  lemma {:induction false} UpsertRowsKeepTableOk(start: seq<Row>, entities: seq<Row>, blobs: Blobs)
    requires TableOk(start, blobs) && forall e | e in entities :: RowOk(e, blobs)
    ensures TableOk(UpsertRows(start, entities), blobs)
  {
    if entities != [] {
      assert entities[|entities| - 1] in entities;
      UpsertRowsKeepTableOk(start, entities[..|entities| - 1], blobs);
      UpsertRowKeepsTableOk(UpsertRows(start, entities[..|entities| - 1]), start, entities[|entities| - 1], blobs);
    }
  }

  /** Storing any operations keeps the table well formed: distinct keys, every payload where its row says. */
  lemma UpsertKeepsTableOk(rows: seq<Row>, blobs: Blobs, ops: seq<Operation>, seenAt: int)
    requires TableOk(rows, blobs)
    ensures TableOk(UpsertRows(rows, Entities(ops, seenAt)), UploadAll(blobs, ops))
  {
    forall row | row in rows ensures RowOk(row, UploadAll(blobs, ops)) { UploadsKeepRowOk(row, blobs, ops); }
    EntitiesAreOk(blobs, ops, seenAt);
    UpsertRowsKeepTableOk(rows, Entities(ops, seenAt), UploadAll(blobs, ops));
  }

  // ---- what a stored row holds ----

  function LastOp(ops: seq<Operation>, key: string): Option<Operation> {
    if ops == [] then None
    else if ops[|ops| - 1].key == key then Some(ops[|ops| - 1])
    else LastOp(ops[..|ops| - 1], key)
  }

  /** No operation spills to the blob of another key, stored before or in the same batch. */
  ghost predicate SpillsApart(rows: seq<Row>, ops: seq<Operation>) {
    && (forall a, b | a in ops && b in ops && Spills(a) && Spills(b) && a.key != b.key ::
          SpillName(a.facts, a.key) != SpillName(b.facts, b.key))
    && (forall row, op | row in rows && op in ops && row.spill.Some? && Spills(op) && row.key != op.key ::
          row.spill.value != SpillName(op.facts, op.key))
  }

  /** The entities are the last operation of each key. */
  lemma {:induction false} EntitiesAreTheLast(ops: seq<Operation>, seenAt: int)
    ensures forall e | e in Entities(ops, seenAt) ::
              LastOp(ops, e.key).Some? && e == Build(LastOp(ops, e.key).value, seenAt)
    ensures forall key | LastOp(ops, key).Some? :: exists e :: e in Entities(ops, seenAt) && e.key == key
  {
    if ops != [] {
      var before, last := ops[..|ops| - 1], ops[|ops| - 1];
      EntitiesAreTheLast(before, seenAt);
      PutRowReplaces(Entities(before, seenAt), Build(last, seenAt));
      forall key | LastOp(ops, key).Some? ensures exists e :: e in Entities(ops, seenAt) && e.key == key {
        if key != last.key {
          assert LastOp(before, key).Some?;
          var e :| e in Entities(before, seenAt) && e.key == key;
          assert e in Entities(ops, seenAt);
        } else {
          assert Build(last, seenAt) in Entities(ops, seenAt);
        }
      }
    }
  }

  lemma PutRowReplaces(entities: seq<Row>, e: Row)
    ensures forall x :: x in PutRow(entities, e) <==> x == e || (x in entities && x.key != e.key)
  {
    RowAtFinds(entities, e.key);
    var after := PutRow(entities, e);
    if RowAt(entities, e.key).Some? {
      var at :| 0 <= at < |entities| && entities[at].key == e.key;
      assert after[at] == e;
      forall x | x in entities && x.key != e.key ensures x in after {
        var i :| 0 <= i < |entities| && entities[i] == x;
        assert after[i] == x;
      }
    }
  }

  /** A row is stored as an entity but for the preserved times and version. */
  predicate StoredAs(row: Row, e: Row) {
    && row.key == e.key && row.facts == e.facts && row.outcome == e.outcome
    && row.inline == e.inline && row.spill == e.spill && row.truncated == e.truncated
  }

  ghost predicate HasKey(rows: seq<Row>, key: string) {
    exists x :: x in rows && x.key == key
  }

  ghost predicate FromBatch(row: Row, start: seq<Row>, entities: seq<Row>) {
    || (row in start && forall e | e in entities :: e.key != row.key)
    || (exists e :: e in entities && StoredAs(row, e))
  }

  lemma MergedIsStoredAs(start: seq<Row>, e: Row)
    ensures StoredAs(Merged(start, e), e)
  {
  }

  lemma UpsertRowReplaces(rows: seq<Row>, start: seq<Row>, e: Row)
    ensures forall x | x in UpsertRow(rows, start, e) :: x == Merged(start, e) || (x in rows && x.key != e.key)
  {
    RowAtFinds(rows, e.key);
  }

  lemma UpsertRowHas(rows: seq<Row>, start: seq<Row>, e: Row)
    ensures Merged(start, e) in UpsertRow(rows, start, e)
    ensures forall x | x in rows && x.key != e.key :: x in UpsertRow(rows, start, e)
  {
    RowAtFinds(rows, e.key);
    var after := UpsertRow(rows, start, e);
    if RowAt(rows, e.key).Some? {
      var at :| 0 <= at < |rows| && rows[at].key == e.key;
      assert after[at] == Merged(start, e);
      forall x | x in rows && x.key != e.key ensures x in after {
        var i :| 0 <= i < |rows| && rows[i] == x;
        assert after[i] == x;
      }
    }
  }

  /** After a batch every row is one of its entities, or an old row with no entity; and every entity has a row. */
  lemma {:induction false} UpsertedRows(start: seq<Row>, entities: seq<Row>)
    ensures forall x | x in UpsertRows(start, entities) :: FromBatch(x, start, entities)
    ensures forall e | e in entities :: HasKey(UpsertRows(start, entities), e.key)
  {
    if entities != [] {
      var before, last := entities[..|entities| - 1], entities[|entities| - 1];
      var rows := UpsertRows(start, before);
      UpsertedRows(start, before);
      UpsertRowReplaces(rows, start, last);
      UpsertRowHas(rows, start, last);
      MergedIsStoredAs(start, last);
      assert entities == before + [last];
      forall x | x in UpsertRows(start, entities) ensures FromBatch(x, start, entities) {
        if x != Merged(start, last) { assert FromBatch(x, start, before); }
      }
      forall e | e in entities ensures HasKey(UpsertRows(start, entities), e.key) {
        if e in before { assert HasKey(rows, e.key); }
      }
    }
  }

  lemma {:induction false} UploadedLast(blobs: Blobs, ops: seq<Operation>, key: string)
    requires SpillsApart([], ops) && LastOp(ops, key).Some? && Spills(LastOp(ops, key).value)
    ensures var op := LastOp(ops, key).value;
      var name := SpillName(op.facts, op.key);
      op in ops && op.key == key && name in UploadAll(blobs, ops) && UploadAll(blobs, ops)[name] == op.payload.value
  {
    var before, last := ops[..|ops| - 1], ops[|ops| - 1];
    assert last in ops && forall op | op in before :: op in ops;
    if last.key != key { UploadedLast(blobs, before, key); }
  }

  lemma {:induction false} UntouchedBlob(blobs: Blobs, ops: seq<Operation>, name: string)
    requires forall op | op in ops && Spills(op) :: SpillName(op.facts, op.key) != name
    ensures name in UploadAll(blobs, ops) <==> name in blobs
    ensures name in blobs ==> UploadAll(blobs, ops)[name] == blobs[name]
  {
    if ops != [] {
      assert ops[|ops| - 1] in ops;
      UntouchedBlob(blobs, ops[..|ops| - 1], name);
    }
  }

  /** The row of one of the batch's operations. */
  lemma NewRowLoads(row: Row, blobs: Blobs, ops: seq<Operation>, op: Operation, seenAt: int)
    requires SpillsApart([], ops) && LastOp(ops, row.key) == Some(op) && StoredAs(row, Build(op, seenAt))
    ensures Load(row, UploadAll(blobs, ops)) == Retained(op)
  {
    SpillNameIsNotEmpty(op.facts, op.key);
    if Spills(op) { UploadedLast(blobs, ops, row.key); }
  }

  lemma {:induction false} NoLastOp(ops: seq<Operation>, op: Operation)
    requires op in ops
    ensures LastOp(ops, op.key).Some?
  {
    if ops[|ops| - 1].key != op.key {
      assert ops == ops[..|ops| - 1] + [ops[|ops| - 1]];
      NoLastOp(ops[..|ops| - 1], op);
    }
  }

  /** A row none of the batch's operations is for. */
  lemma OldRowLoads(rows: seq<Row>, row: Row, blobs: Blobs, ops: seq<Operation>)
    requires SpillsApart(rows, ops) && row in rows && RowOk(row, blobs) && LastOp(ops, row.key).None?
    ensures Load(row, UploadAll(blobs, ops)) == Load(row, blobs)
  {
    if row.spill.Some? {
      forall op | op in ops && Spills(op) ensures SpillName(op.facts, op.key) != row.spill.value { NoLastOp(ops, op); }
      UntouchedBlob(blobs, ops, row.spill.value);
    }
  }

  /**
   * If spilled operations do not share a blob, then after any batch every row's payload, inline or spilled, is that
   * of the last operation of its key, and the rows of other keys keep theirs.
   */
  lemma UpsertStoresThePayloads(rows: seq<Row>, blobs: Blobs, ops: seq<Operation>, seenAt: int)
    requires TableOk(rows, blobs) && SpillsApart(rows, ops)
    ensures forall row | row in UpsertRows(rows, Entities(ops, seenAt)) ::
      match LastOp(ops, row.key)
      case Some(op) => Load(row, UploadAll(blobs, ops)) == Retained(op)
      case None => row in rows && Load(row, UploadAll(blobs, ops)) == Load(row, blobs)
  {
    var entities := Entities(ops, seenAt);
    EntitiesAreTheLast(ops, seenAt);
    UpsertedRows(rows, entities);
    forall row | row in UpsertRows(rows, entities)
      ensures match LastOp(ops, row.key)
        case Some(op) => Load(row, UploadAll(blobs, ops)) == Retained(op)
        case None => row in rows && Load(row, UploadAll(blobs, ops)) == Load(row, blobs)
    {
      assert FromBatch(row, rows, entities);
      match LastOp(ops, row.key) {
        case Some(op) =>
          var e :| e in entities && StoredAs(row, e);
          NewRowLoads(row, blobs, ops, op, seenAt);
        case None => OldRowLoads(rows, row, blobs, ops);
      }
    }
  }

  /**
   * A single stored operation that is pending and last seen at a time without an offset stops its subscription for
   * good: whatever else is stored with it, no later run writes a row.
   */
  lemma StoredLocalTimeBlocks(t: Task, rows: seq<Row>, ops: seq<Operation>, key: string, seenAt: int, maxUnits: nat,
      times: seq<int>)
    requires LastOp(ops, key).Some?
    requires var op := LastOp(ops, key).value;
      op.facts.subscription == t.subscription && AgeRaises(t.r, op.outcome, op.facts)
    ensures var stored := UpsertRows(rows, Entities(ops, seenAt));
      TableOver(t, stored, maxUnits, times) == stored && RunsOver(t, stored, maxUnits, times).written == 0
  {
    var entities := Entities(ops, seenAt);
    var stored := UpsertRows(rows, entities);
    EntitiesAreTheLast(ops, seenAt);
    UpsertedRows(rows, entities);
    var e :| e in entities && e.key == key;
    assert HasKey(stored, e.key);
    var row :| row in stored && row.key == key;
    assert FromBatch(row, rows, entities);
    assert Raises(t, row);
    BlockedForGood(t, stored, maxUnits, times);
  }

  lemma SweepKeepsTableOk(t: Task, rows: seq<Row>, maxUnits: nat)
    requires TableOk(rows, t.blobs)
    ensures TableOk(Swept(t, rows, maxUnits), t.blobs)
  {
    SweptReplaces(t, rows, maxUnits);
    var targets := Targets(t, rows, maxUnits);
    ReplacedKeepsKeys(t, rows, targets);
    var swept := Swept(t, rows, maxUnits);
    forall row | row in swept ensures RowOk(row, t.blobs) {
      var i :| 0 <= i < |swept| && swept[i] == row;
      assert rows[i] in rows;
      NextIsOk(t.r, rows[i], t.blobs, t.now, t.horizon);
    }
  }

  function Updates(t: Task, targets: seq<Row>): seq<Operation> {
    if targets == [] then []
    else
      var op := Reconciled(t.r, Hydrate(targets[|targets| - 1], t.blobs), t.now, t.horizon);
      Updates(t, targets[..|targets| - 1]) + if op.Some? then [op.value] else []
  }

  // ---- the batch of updates is the sweep ----

  lemma {:induction false} RowAtFinds(rows: seq<Row>, key: string)
    ensures RowAt(rows, key).Some? <==> exists i | 0 <= i < |rows| :: rows[i].key == key
    ensures RowAt(rows, key).Some? ==> RowAt(rows, key).value in rows && RowAt(rows, key).value.key == key
  {
    if rows != [] && rows[0].key != key {
      RowAtFinds(rows[1..], key);
      if i :| 0 <= i < |rows| && rows[i].key == key { assert rows[1..][i - 1].key == key; }
      if RowAt(rows, key).Some? {
        var i :| 0 <= i < |rows[1..]| && rows[1..][i].key == key;
        assert rows[i + 1].key == key;
      }
    }
  }

  lemma {:induction false} TargetsAreDistinct(t: Task, rows: seq<Row>, maxUnits: nat)
    requires DistinctRows(rows)
    ensures DistinctRows(Targets(t, rows, maxUnits))
  {
    if rows != [] && maxUnits > 0 {
      var less := if Selected(t, rows[0]) then maxUnits - 1 else maxUnits;
      TargetsAreDistinct(t, rows[1..], less);
      TargetsAreRows(t, rows[1..], less);
      forall i | 0 <= i < |Targets(t, rows[1..], less)| ensures Targets(t, rows[1..], less)[i].key != rows[0].key {
        assert Targets(t, rows[1..], less)[i] in Targets(t, rows[1..], less);
      }
    }
  }

  /** Each target's entity, without the preserved fields. */
  function Built(t: Task, row: Row): Row {
    var op := Reconciled(t.r, Hydrate(row, t.blobs), t.now, t.horizon);
    if op.Some? then Build(op.value, t.now) else row
  }

  function AllBuilt(t: Task, targets: seq<Row>): seq<Row> {
    seq(|targets|, i requires 0 <= i < |targets| => Built(t, targets[i]))
  }

  lemma PutNewRow(entities: seq<Row>, e: Row)
    requires forall i | 0 <= i < |entities| :: entities[i].key != e.key
    ensures PutRow(entities, e) == entities + [e]
  {
    RowAtFinds(entities, e.key);
  }

  lemma EntitiesSnoc(ops: seq<Operation>, op: Operation, seenAt: int, blobs: Blobs)
    ensures Entities(ops + [op], seenAt) == PutRow(Entities(ops, seenAt), Build(op, seenAt))
    ensures UploadAll(blobs, ops + [op]) == Uploaded(UploadAll(blobs, ops), op)
  {
    assert (ops + [op])[..|ops|] == ops;
  }

  lemma BuiltSnoc(t: Task, before: seq<Row>, last: Row)
    requires forall i | 0 <= i < |before| :: before[i].key != last.key
    ensures PutRow(AllBuilt(t, before), Built(t, last)) == AllBuilt(t, before + [last])
  {
    forall i | 0 <= i < |before| ensures AllBuilt(t, before)[i].key != Built(t, last).key {
      KeyIsKept(t, before[i]);
      KeyIsKept(t, last);
    }
    PutNewRow(AllBuilt(t, before), Built(t, last));
  }

  /** What reconciliation makes of a target. */
  function Update(t: Task, row: Row): Operation
    requires RowOk(row, t.blobs) && Selected(t, row)
  {
    SelectedExactlyWhenChanged(t.r, row, t.blobs, t.now, t.horizon);
    Reconciled(t.r, Hydrate(row, t.blobs), t.now, t.horizon).value
  }

  lemma UpdatesSnoc(t: Task, before: seq<Row>, last: Row)
    requires RowOk(last, t.blobs) && Selected(t, last)
    ensures Updates(t, before + [last]) == Updates(t, before) + [Update(t, last)]
    ensures Build(Update(t, last), t.now) == Built(t, last) && Uploaded(t.blobs, Update(t, last)) == t.blobs
  {
    SelectedExactlyWhenChanged(t.r, last, t.blobs, t.now, t.horizon);
    ReconciliationUploadsWhatIsThere(t.r, last, t.blobs, t.now, t.horizon);
    assert (before + [last])[..|before|] == before;
  }

  /** The batch's entities are the targets built, and it uploads what is there. */
  ghost predicate Entered(t: Task, targets: seq<Row>) {
    Entities(Updates(t, targets), t.now) == AllBuilt(t, targets) && UploadAll(t.blobs, Updates(t, targets)) == t.blobs
  }

  lemma OneMoreEntered(t: Task, before: seq<Row>, last: Row)
    requires Entered(t, before) && RowOk(last, t.blobs) && Selected(t, last)
    requires forall i | 0 <= i < |before| :: before[i].key != last.key
    ensures Entered(t, before + [last])
  {
    UpdatesSnoc(t, before, last);
    EntitiesSnoc(Updates(t, before), Update(t, last), t.now, t.blobs);
    BuiltSnoc(t, before, last);
  }

  ghost predicate AreTargets(t: Task, targets: seq<Row>) {
    DistinctRows(targets) && forall row | row in targets :: RowOk(row, t.blobs) && Selected(t, row)
  }

  lemma {:induction false} EntitiesUpTo(t: Task, targets: seq<Row>, n: nat)
    requires AreTargets(t, targets) && n <= |targets|
    ensures Entered(t, targets[..n])
  {
    if n > 0 {
      var before, last := targets[..n - 1], targets[n - 1];
      EntitiesUpTo(t, targets, n - 1);
      assert last in targets && before + [last] == targets[..n];
      OneMoreEntered(t, before, last);
    }
  }

  lemma EntitiesOfUpdates(t: Task, targets: seq<Row>)
    requires AreTargets(t, targets)
    ensures Entered(t, targets)
  {
    EntitiesUpTo(t, targets, |targets|);
    assert targets[..|targets|] == targets;
  }

  lemma KeyIsKept(t: Task, row: Row)
    ensures Built(t, row).key == row.key
  {
  }

  function Replaced(t: Task, rows: seq<Row>, targets: seq<Row>): seq<Row> {
    seq(|rows|, i requires 0 <= i < |rows| => if rows[i] in targets then After(t, rows[i]) else rows[i])
  }

  lemma FindsItself(rows: seq<Row>, row: Row)
    requires DistinctRows(rows) && row in rows
    ensures RowAt(rows, row.key) == Some(row)
  {
    RowAtFinds(rows, row.key);
  }

  lemma ReplacedKeepsKeys(t: Task, rows: seq<Row>, targets: seq<Row>)
    ensures forall i | 0 <= i < |rows| :: Replaced(t, rows, targets)[i].key == rows[i].key
  {
    forall i | 0 <= i < |rows| ensures After(t, rows[i]).key == rows[i].key { KeyStays(t, rows[i]); }
  }

  lemma BuiltIsNext(t: Task, row: Row)
    requires RowOk(row, t.blobs) && Selected(t, row)
    ensures Preserved(Built(t, row), row) == After(t, row) && Built(t, row).key == row.key
  {
    SelectedExactlyWhenChanged(t.r, row, t.blobs, t.now, t.horizon);
  }

  /** An upsert where the table has the row. */
  lemma UpsertFound(mid: seq<Row>, rows: seq<Row>, e: Row, row: Row, at: nat)
    requires DistinctRows(rows) && |mid| == |rows| && (forall i | 0 <= i < |rows| :: mid[i].key == rows[i].key)
    requires at < |rows| && rows[at] == row && e.key == row.key
    ensures UpsertRow(mid, rows, e) == mid[at := Preserved(e, row)]
  {
    FindsItself(rows, row);
    RowAtFinds(mid, e.key);
    assert mid[at].key == e.key;
    forall i | 0 <= i < |mid| ensures mid[i].key == e.key <==> i == at {}
  }

  lemma ReplaceOne(t: Task, rows: seq<Row>, before: seq<Row>, last: Row)
    requires DistinctRows(rows) && last in rows && last !in before && Selected(t, last) && RowOk(last, t.blobs)
    ensures UpsertRow(Replaced(t, rows, before), rows, Built(t, last)) == Replaced(t, rows, before + [last])
  {
    ReplacedKeepsKeys(t, rows, before);
    BuiltIsNext(t, last);
    var at: nat :| at < |rows| && rows[at] == last;
    UpsertFound(Replaced(t, rows, before), rows, Built(t, last), last, at);
    ReplacedOneMore(t, rows, before, last, at);
  }

  lemma ReplacedOneMore(t: Task, rows: seq<Row>, before: seq<Row>, last: Row, at: nat)
    requires DistinctRows(rows) && at < |rows| && rows[at] == last
    ensures Replaced(t, rows, before + [last]) == Replaced(t, rows, before)[at := After(t, last)]
  {
    forall i | 0 <= i < |rows| && i != at
      ensures rows[i] in before + [last] <==> rows[i] in before
    {
      assert rows[i].key != last.key;
    }
  }

  lemma AllBuiltSnoc(t: Task, before: seq<Row>, last: Row)
    ensures AllBuilt(t, before + [last]) == AllBuilt(t, before) + [Built(t, last)]
  {
  }

  lemma UpsertSnoc(rows: seq<Row>, entities: seq<Row>, e: Row)
    ensures UpsertRows(rows, entities + [e]) == UpsertRow(UpsertRows(rows, entities), rows, e)
  {
    assert (entities + [e])[..|entities|] == entities;
  }

  /** Upserting the targets' entities replaces exactly those rows. */
  lemma {:induction false} UpsertReplaces(t: Task, rows: seq<Row>, targets: seq<Row>)
    requires DistinctRows(rows) && DistinctRows(targets)
    requires forall row | row in targets :: row in rows && Selected(t, row) && RowOk(row, t.blobs)
    ensures UpsertRows(rows, AllBuilt(t, targets)) == Replaced(t, rows, targets)
  {
    if targets == [] {
      assert Replaced(t, rows, []) == rows;
    } else {
      var before, last := targets[..|targets| - 1], targets[|targets| - 1];
      assert last in targets && targets == before + [last];
      UpsertReplaces(t, rows, before);
      forall i | 0 <= i < |before| ensures before[i] != last { assert before[i] == targets[i]; }
      AllBuiltSnoc(t, before, last);
      UpsertSnoc(rows, AllBuilt(t, before), Built(t, last));
      ReplaceOne(t, rows, before, last);
    }
  }

  lemma KeyStays(t: Task, row: Row)
    ensures After(t, row).key == row.key
  {
  }

  lemma ReplacedFront(t: Task, first: Row, rest: seq<Row>, targets: seq<Row>)
    requires first !in rest && first !in targets
    ensures [After(t, first)] + Replaced(t, rest, targets) == Replaced(t, [first] + rest, [first] + targets)
    ensures [first] + Replaced(t, rest, targets) == Replaced(t, [first] + rest, targets)
  {
    var rows := [first] + rest;
    forall i | 0 < i < |rows| ensures rows[i] in [first] + targets <==> rows[i] in targets {
      assert rows[i] == rest[i - 1] && rest[i - 1] in rest;
    }
  }

  lemma {:induction false} SweptReplaces(t: Task, rows: seq<Row>, maxUnits: nat)
    requires DistinctRows(rows)
    ensures Swept(t, rows, maxUnits) == Replaced(t, rows, Targets(t, rows, maxUnits))
  {
    if rows != [] && maxUnits > 0 {
      var first, rest := rows[0], rows[1..];
      var less := if Selected(t, first) then maxUnits - 1 else maxUnits;
      assert rows == [first] + rest;
      forall i | 0 <= i < |rest| ensures rest[i] != first { assert rest[i] == rows[i + 1]; }
      SweptReplaces(t, rest, less);
      TargetsAreRows(t, rest, less);
      SweepFront(t, first, rest, maxUnits);
      ReplacedFront(t, first, rest, Targets(t, rest, less));
    }
  }

  lemma UpdatesSweep(t: Task, rows: seq<Row>, maxUnits: nat)
    requires TableOk(rows, t.blobs)
    ensures var updates := Updates(t, Targets(t, rows, maxUnits));
      && UpsertRows(rows, Entities(updates, t.now)) == Swept(t, rows, maxUnits)
      && UploadAll(t.blobs, updates) == t.blobs
      && |Entities(updates, t.now)| == |Targets(t, rows, maxUnits)|
      && (updates == [] ==> Targets(t, rows, maxUnits) == [])
  {
    var targets := Targets(t, rows, maxUnits);
    TargetsAreRows(t, rows, maxUnits);
    TargetsAreDistinct(t, rows, maxUnits);
    EntitiesOfUpdates(t, targets);
    UpsertReplaces(t, rows, targets);
    SweptReplaces(t, rows, maxUnits);
  }
}
