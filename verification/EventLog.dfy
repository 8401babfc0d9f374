/** The hash-chained event log: framing, loading, tail repair and the durable state that
    the last event carries. */
module EventLog {
  import opened Wrappers
  import opened Json
  import opened Dictionaries

  /** `_sha256` hashes the encoding of a value. Nothing is assumed of the digest unless a
      lemma says so. */
  type Digest = string -> string

  ghost predicate CollisionFree(digest: Digest) {
    && (forall s, t :: digest(s) == digest(t) ==> s == t)
    && (forall s :: digest(s) != "")
  }

  datatype LoadError =
    | InvalidJson
    | UnsupportedEvent
    | EventIdentity
    | BrokenChain
    | MissingState
    | StateIdentity
    | CandidateSet

  /** The parts of a prepared spec that the durable log depends on. */
  datatype Identity = Identity(runId: string, specHash: string, candidateIds: set<string>)

  /** The state between two evaluations. The run identity is the spec's own. */
  datatype State = State(
    lastTimestamp: int,
    firstTimestamp: int,
    snapshotCount: int,
    candidates: Dict,
    lastHash: string)

  // ----- Reading members

  /** `str(members.get(key) or "")` for a member written by the worker itself. */
  function TextOf(members: Dict, key: string): string {
    match Get(members, key)
    case Some(Str(s)) => s
    case _ => ""
  }

  /** `int(members.get(key) or 0)` for a member written by the worker itself. */
  function IntOf(members: Dict, key: string): int {
    match Get(members, key)
    case Some(Int(n)) => n
    case _ => 0
  }

  function FieldsOf(v: Option<Value>): Dict {
    match v
    case Some(Obj(members)) => members
    case _ => NoMembers
  }

  // ----- Events

  /** The hash of an event covers everything but the hash itself. */
  function EventHash(digest: Digest, event: Dict): string {
    digest(Encode(Obj(Remove(event, "event_sha256"))))
  }

  function Signed(digest: Digest, event: Dict): Dict {
    Put(event, "event_sha256", Str(EventHash(digest, event)))
  }

  function Durable(id: Identity, state: State): Dict {
    hide Put;
    Put(Put(Put(Put(Put(Put(NoMembers,
      "spec_hash", Str(id.specHash)),
      "snapshot_count", Int(state.snapshotCount)),
      "run_id", Str(id.runId)),
      "last_timestamp", Int(state.lastTimestamp)),
      "first_timestamp", Int(state.firstTimestamp)),
      "candidates", Obj(state.candidates))
  }

  /** An evaluation event before signing. `body` holds what the chain does not look at. */
  datatype EventBody = EventBody(
    candidates: Value,
    evaluatedAt: Value,
    snapshot: Value,
    snapshotId: string,
    snapshotHash: string)

  function Unsigned(id: Identity, body: EventBody, prev: string, state: State): Dict {
    hide Put;
    Put(Put(Put(Put(Put(EventTail(id, body, state),
      "prev_event_sha256", Str(prev)),
      "market_snapshot", body.snapshot),
      "event", Str("closed_candle_evaluated")),
      "evaluated_at", body.evaluatedAt),
      "candidates", body.candidates)
  }

  function EventTail(id: Identity, body: EventBody, state: State): Dict {
    hide Put;
    Put(Put(Put(Put(Put(Put(NoMembers,
      "state", Obj(Durable(id, state))),
      "spec_hash", Str(id.specHash)),
      "snapshot_sha256", Str(body.snapshotHash)),
      "snapshot_id", Str(body.snapshotId)),
      "schema_version", Int(1)),
      "run_id", Str(id.runId))
  }

  // ----- Files

  function Line(event: Dict): string { Encode(Obj(event)) + "\n" }

  function Frame(events: seq<Dict>): string {
    if events == [] then "" else Line(events[0]) + Frame(events[1..])
  }

  predicate IsBreak(c: char) { c == '\n' || c == '\r' }

  function LineSpan(data: string): (n: nat)
    ensures n <= |data|
    ensures forall i :: 0 <= i < n ==> !IsBreak(data[i])
    ensures n < |data| ==> IsBreak(data[n])
  {
    if data != "" && !IsBreak(data[0]) then 1 + LineSpan(data[1..]) else 0
  }

  /** `bytes.splitlines`: lines end at `\n`, `\r` or `\r\n`, and a last line needs no end. */
  function SplitLines(data: string): seq<string>
    decreases |data|
  {
    var n := LineSpan(data);
    if data == "" then []
    else if n == |data| then [data]
    else
      var skip := if data[n] == '\r' && n + 1 < |data| && data[n + 1] == '\n' then 2 else 1;
      [data[..n]] + SplitLines(data[n + skip..])
  }

  predicate EndsWithNewline(data: string) { data != "" && data[|data| - 1] == '\n' }

  /** `_repair_partial_tail`: cut back to just after the last `\n`. */
  function Repair(data: string): string
    decreases |data|
  {
    if data == "" || EndsWithNewline(data) then data else Repair(data[..|data| - 1])
  }

  // ----- Loading

  /** What `_load_state` carries from line to line: the last durable state (none before
      the first event) and the hash the next event must link to. */
  datatype Cursor = Cursor(state: Option<Dict>, previous: string)

  const FRESH := Cursor(None, "")

  function CheckEvent(digest: Digest, id: Identity, cursor: Cursor, v: Value): Result<Cursor, LoadError> {
    if !v.Obj? || Get(v.members, "schema_version") != Some(Int(1)) then Failure(UnsupportedEvent)
    else if Get(v.members, "run_id") != Some(Str(id.runId)) || Get(v.members, "spec_hash") != Some(Str(id.specHash))
    then Failure(EventIdentity)
    else
      var hash := TextOf(v.members, "event_sha256");
      if Get(v.members, "prev_event_sha256") != Some(Str(cursor.previous)) || EventHash(digest, v.members) != hash
      then Failure(BrokenChain)
      else match Get(v.members, "state")
        case Some(Obj(state)) => Success(Cursor(Some(state), hash))
        case _ => Failure(MissingState)
  }

  /** How the scan judges one decoded line. */
  type Check = (Cursor, Value) -> Result<Cursor, LoadError>

  function Checker(digest: Digest, id: Identity): Check {
    (cursor: Cursor, v: Value) => CheckEvent(digest, id, cursor, v)
  }

  /** The scan over the lines: a line that does not parse is forgiven only at the very
      end of a file whose last line is unterminated. */
  function LoadLines(check: Check, cursor: Cursor, lines: seq<string>, completeTail: bool): Result<Cursor, LoadError>
    decreases |lines|
  {
    if lines == [] then Success(cursor)
    else match Loads(lines[0])
      case None => if |lines| == 1 && !completeTail then Success(cursor) else Failure(InvalidJson)
      case Some(v) =>
        var next :- check(cursor, v);
        LoadLines(check, next, lines[1..], completeTail)
  }

  function Scan(check: Check, data: string): Result<Cursor, LoadError> {
    LoadLines(check, FRESH, SplitLines(data), EndsWithNewline(data))
  }

  /** The checks after the scan. `initial` is the state of a run without events. */
  function Finish(id: Identity, initial: State, cursor: Cursor): Result<State, LoadError> {
    match cursor.state
    case None => Success(initial)
    case Some(d) =>
      if Get(d, "run_id") != Some(Str(id.runId)) || Get(d, "spec_hash") != Some(Str(id.specHash))
        then Failure(StateIdentity)
      else match Get(d, "candidates")
        case Some(Obj(candidates)) =>
          if Keys(candidates) != id.candidateIds then Failure(CandidateSet)
          else Success(State(IntOf(d, "last_timestamp"), IntOf(d, "first_timestamp"), IntOf(d, "snapshot_count"),
                             candidates, cursor.previous))
        case _ => Failure(CandidateSet)
  }

  function Load(digest: Digest, id: Identity, initial: State, data: string): Result<State, LoadError> {
    var cursor :- Scan(Checker(digest, id), data);
    Finish(id, initial, cursor)
  }

  // ----- The same checks on a list of events

  function ReplayFrom(check: Check, cursor: Cursor, events: seq<Dict>): Result<Cursor, LoadError>
    decreases |events|
  {
    if events == [] then Success(cursor)
    else
      var next :- check(cursor, Obj(events[0]));
      ReplayFrom(check, next, events[1..])
  }

  function Replay(check: Check, events: seq<Dict>): Result<Cursor, LoadError> {
    ReplayFrom(check, FRESH, events)
  }
}
