/** Framing, torn tails and the commitment of the hash chain. */
module EventLogProofs {
  import opened Wrappers
  import opened Lexicographic
  import opened Json
  import opened Dictionaries
  import opened JsonProofs
  import opened EventLog

  // ----- Dictionary updates

  lemma {:induction false} PutKeys(members: Dict, key: string, value: Value)
    ensures Keys(Put(members, key, value)) == Keys(members) + {key}
  {
    match members {
      case NoMembers =>
      case Members(k, v, rest) => PutKeys(rest, key, value);
    }
  }

  lemma {:induction false} RemovePut(members: Dict, key: string, value: Value)
    ensures Remove(Put(members, key, value), key) == Remove(members, key)
    decreases members
  {
    match members {
      case NoMembers =>
      case Members(k, v, rest) =>
        if k != key && Before(key, k) {
          KeysFollow(members, key);
          RemoveAbsent(members, key);
        } else if k != key {
          RemovePut(rest, key, value);
        }
    }
  }

  lemma {:induction false} RemoveAbsent(members: Dict, key: string)
    requires key !in Keys(members)
    ensures Remove(members, key) == members
  {
    match members {
      case NoMembers =>
      case Members(k, v, rest) => RemoveAbsent(rest, key);
    }
  }

  /** Signing an event adds its hash and leaves every other member alone. */
  lemma SignedFields(digest: Digest, event: Dict, key: string)
    ensures EventHash(digest, Signed(digest, event)) == EventHash(digest, event)
    ensures TextOf(Signed(digest, event), "event_sha256") == EventHash(digest, event)
    ensures key != "event_sha256" ==> Get(Signed(digest, event), key) == Get(event, key)
  {
    RemovePut(event, "event_sha256", Str(EventHash(digest, event)));
    PutGet(event, "event_sha256", Str(EventHash(digest, event)), "event_sha256");
    PutGet(event, "event_sha256", Str(EventHash(digest, event)), key);
  }

  /** A value is read back from its own encoding. */
  lemma LoadsEncode(v: Value)
    ensures Loads(Encode(v)) == Some(v)
  {
    hide Encode, Decode, Canon;
    DecodeEncode(v);
    CanonId(v);
  }

  // ----- Framing

  function Encodings(events: seq<Dict>): seq<string> {
    if events == [] then [] else [Encode(Obj(events[0]))] + Encodings(events[1..])
  }

  lemma {:induction false} LineSpanOf(line: string, rest: string)
    requires Printable(line)
    requires rest == "" || IsBreak(rest[0])
    ensures LineSpan(line + rest) == |line|
  {
    if line == "" {
      assert line + rest == rest;
    } else {
      assert (line + rest)[1..] == line[1..] + rest;
      LineSpanOf(line[1..], rest);
    }
  }

  lemma SplitOneLine(line: string, rest: string)
    requires Printable(line)
    ensures SplitLines(line + "\n" + rest) == [line] + SplitLines(rest)
  {
    var data := line + ("\n" + rest);
    assert data == line + "\n" + rest;
    LineSpanOf(line, "\n" + rest);
    assert data[|line|] == '\n' && data[..|line|] == line && data[|line| + 1..] == rest;
  }

  lemma {:induction false} SplitFrame(events: seq<Dict>, tail: string)
    requires Printable(tail)
    ensures SplitLines(Frame(events) + tail) == Encodings(events) + if tail == "" then [] else [tail]
  {
    if events == [] {
      LineSpanOf(tail, "");
      assert Frame(events) + tail == tail && tail + "" == tail;
    } else {
      var line, rest := Encode(Obj(events[0])), Frame(events[1..]) + tail;
      assert Frame(events) + tail == line + "\n" + rest;
      EncodePrintable(Obj(events[0]));
      SplitOneLine(line, rest);
      SplitFrame(events[1..], tail);
    }
  }

  lemma {:induction false} FrameAppend(events: seq<Dict>, event: Dict)
    ensures Frame(events + [event]) == Frame(events) + Line(event)
  {
    hide Line, SortedMembers;
    if events == [] {
      assert Frame([event]) == Line(event) + Frame([]);
    } else {
      assert (events + [event])[1..] == events[1..] + [event];
      FrameAppend(events[1..], event);
    }
  }

  lemma {:induction false} FrameEnds(events: seq<Dict>)
    ensures Frame(events) == "" <==> events == []
    ensures events != [] ==> EndsWithNewline(Frame(events))
  {
    if events != [] {
      FrameEnds(events[1..]);
      if |events| == 1 {
        assert Frame(events) == Line(events[0]);
      }
    }
  }

  /** Splitting and decoding a framed log gives its events back. */
  lemma {:induction false} FrameRoundTrip(events: seq<Dict>)
    ensures var lines := SplitLines(Frame(events));
            |lines| == |events| && forall i :: 0 <= i < |events| ==> Loads(lines[i]) == Some(Obj(events[i]))
  {
    hide Loads, Encode, SplitLines;
    SplitFrame(events, "");
    assert Frame(events) + "" == Frame(events);
    if events != [] {
      LoadsEncode(Obj(events[0]));
      FrameRoundTrip(events[1..]);
      SplitFrame(events[1..], "");
      assert Frame(events[1..]) + "" == Frame(events[1..]);
    }
  }

  /** Repair removes exactly the unterminated last line. */
  lemma {:induction false} RepairFrame(events: seq<Dict>, tail: string)
    requires Printable(tail)
    ensures Repair(Frame(events) + tail) == Frame(events)
    decreases |tail|
  {
    var data := Frame(events) + tail;
    FrameEnds(events);
    if tail == "" {
      assert data == Frame(events);
    } else {
      assert data[|data| - 1] == tail[|tail| - 1];
      assert data[..|data| - 1] == Frame(events) + tail[..|tail| - 1];
      RepairFrame(events, tail[..|tail| - 1]);
    }
  }

  // ----- Loading a framed log with a tail

  lemma {:induction false} ReplayAppend(check: Check, cursor: Cursor, events: seq<Dict>, event: Dict)
    ensures ReplayFrom(check, cursor, events + [event])
         == (match ReplayFrom(check, cursor, events)
             case Success(c) => check(c, Obj(event))
             case Failure(e) => Failure(e))
    decreases |events|
  {
    if events == [] {
      var one := events + [event];
      assert one[0] == event && one[1..] == [];
      assert check(cursor, Obj(event)).Success? ==>
        ReplayFrom(check, check(cursor, Obj(event)).value, one[1..]) == check(cursor, Obj(event));
    } else {
      assert (events + [event])[1..] == events[1..] + [event];
      match check(cursor, Obj(events[0])) {
        case Success(c) => ReplayAppend(check, c, events[1..], event);
        case Failure(_) =>
      }
    }
  }

  lemma {:induction false} LoadEncodings(check: Check, cursor: Cursor, events: seq<Dict>, extra: seq<string>,
                                         complete: bool)
    ensures LoadLines(check, cursor, Encodings(events) + extra, complete)
         == (match ReplayFrom(check, cursor, events)
             case Success(c) => LoadLines(check, c, extra, complete)
             case Failure(e) => Failure(e))
    decreases |events|
  {
    var lines := Encodings(events) + extra;
    if events == [] {
      assert lines == extra;
    } else {
      LoadsEncode(Obj(events[0]));
      assert lines[0] == Encode(Obj(events[0]));
      assert lines[1..] == Encodings(events[1..]) + extra;
      match check(cursor, Obj(events[0])) {
        case Success(c) => LoadEncodings(check, c, events[1..], extra, complete);
        case Failure(_) =>
      }
    }
  }

  /** A tail that does not parse leaves what the complete lines gave. */
  lemma ScanTorn(check: Check, events: seq<Dict>, tail: string)
    requires Printable(tail)
    requires tail == "" || Loads(tail) == None
    ensures Scan(check, Frame(events) + tail) == Replay(check, events)
  {
    var data := Frame(events) + tail;
    SplitFrame(events, tail);
    if tail == "" {
      assert Encodings(events) + [] == Encodings(events);
      LoadEncodings(check, FRESH, events, [], EndsWithNewline(data));
    } else {
      assert data[|data| - 1] == tail[|tail| - 1];
      LoadEncodings(check, FRESH, events, [tail], false);
    }
  }

  /** A log that is refused before its tail is refused with any tail. */
  lemma ScanBroken(check: Check, events: seq<Dict>, tail: string)
    requires Printable(tail) && Replay(check, events).Failure?
    ensures Scan(check, Frame(events) + tail) == Replay(check, events)
  {
    var data := Frame(events) + tail;
    SplitFrame(events, tail);
    if tail == "" {
      assert Encodings(events) + [] == Encodings(events);
      LoadEncodings(check, FRESH, events, [], EndsWithNewline(data));
    } else {
      LoadEncodings(check, FRESH, events, [tail], EndsWithNewline(data));
    }
  }

  lemma LoadOne(check: Check, cursor: Cursor, event: Dict)
    ensures LoadLines(check, cursor, [Encode(Obj(event))], false) == check(cursor, Obj(event))
  {
    var lines := [Encode(Obj(event))];
    LoadsEncode(Obj(event));
    assert lines[1..] == [];
    match check(cursor, Obj(event)) {
      case Success(c) => assert LoadLines(check, c, lines[1..], false) == Success(c);
      case Failure(_) =>
    }
  }

  /** An unterminated last line that parses is loaded like any other event. */
  lemma ScanUnterminated(check: Check, events: seq<Dict>, event: Dict)
    ensures Scan(check, Frame(events) + Encode(Obj(event))) == Replay(check, events + [event])
  {
    var tail := Encode(Obj(event));
    var data := Frame(events) + tail;
    EncodePrintable(Obj(event));
    EncodeHead(Obj(event));
    SplitFrame(events, tail);
    assert data[|data| - 1] == tail[|tail| - 1];
    LoadEncodings(check, FRESH, events, [tail], false);
    ReplayAppend(check, FRESH, events, event);
    match Replay(check, events) {
      case Success(c) => LoadOne(check, c, event);
      case Failure(_) =>
    }
  }

  /** Scanning after an append that was cut off after `cut` bytes: what there was before
      the append, unless all but the line end (or everything) reached the disk. Repair
      disagrees with that reading in one place: it drops an event that lacks only its
      line end. */
  lemma ScanAfterCut(check: Check, events: seq<Dict>, event: Dict, cut: nat)
    requires cut <= |Line(event)|
    ensures Scan(check, Frame(events) + Line(event)[..cut])
         == Replay(check, if cut < |Line(event)| - 1 then events else events + [event])
    ensures Repair(Frame(events) + Line(event)[..cut]) ==
            Frame(if cut < |Line(event)| then events else events + [event])
  {
    var text := Encode(Obj(event));
    EncodePrintable(Obj(event));
    if cut < |text| {
      assert Line(event)[..cut] == text[..cut];
      StrictPrefixDoesNotDecode(Obj(event), cut);
      ScanTorn(check, events, text[..cut]);
      RepairFrame(events, text[..cut]);
    } else if cut == |text| {
      assert Line(event)[..cut] == text;
      ScanUnterminated(check, events, event);
      RepairFrame(events, text);
    } else {
      assert Line(event)[..cut] == Line(event);
      FrameAppend(events, event);
      assert Frame(events + [event]) + "" == Frame(events) + Line(event);
      ScanTorn(check, events + [event], "");
      RepairFrame(events + [event], "");
    }
  }

  // ----- Commitment

  /** Two events that agree on everything the hash covers, and on the hash. */
  predicate SameEvent(a: Dict, b: Dict) {
    Remove(a, "event_sha256") == Remove(b, "event_sha256") && TextOf(a, "event_sha256") == TextOf(b, "event_sha256")
  }

  predicate SameLog(a: seq<Dict>, b: seq<Dict>) {
    |a| == |b| && forall i :: 0 <= i < |a| ==> SameEvent(a[i], b[i])
  }

  lemma SameLogExtends(a: seq<Dict>, b: seq<Dict>)
    requires a != [] && b != []
    requires SameLog(a[..|a| - 1], b[..|b| - 1]) && SameEvent(a[|a| - 1], b[|b| - 1])
    ensures SameLog(a, b)
  {
    hide SameEvent, SortedMembers, Sorted;
    var n := |a| - 1;
    forall i | 0 <= i < |a| ensures SameEvent(a[i], b[i]) {
      if i < n {
        assert SameEvent(a[..n][i], b[..n][i]);
      }
    }
  }

  lemma LastStep(check: Check, events: seq<Dict>)
    requires events != [] && Replay(check, events).Success?
    ensures var n := |events| - 1;
            var before := Replay(check, events[..n]);
            before.Success? && check(before.value, Obj(events[n])) == Replay(check, events)
  {
    var n := |events| - 1;
    assert events == events[..n] + [events[n]];
    ReplayAppend(check, FRESH, events[..n], events[n]);
  }

  lemma CheckedLink(digest: Digest, id: Identity, cursor: Cursor, event: Dict)
    requires Checker(digest, id)(cursor, Obj(event)).Success?
    ensures var next := Checker(digest, id)(cursor, Obj(event)).value;
            && next.previous == EventHash(digest, event) == TextOf(event, "event_sha256")
            && Get(event, "prev_event_sha256") == Some(Str(cursor.previous))
  {
    hide Get, TextOf, EventHash, SortedMembers;
  }

  /** The event carries the hash that the cursor `after` holds, and links to `before`. */
  predicate Links(digest: Digest, before: Cursor, event: Dict, after: Cursor) {
    && after.previous == EventHash(digest, event) == TextOf(event, "event_sha256")
    && Get(event, "prev_event_sha256") == Some(Str(before.previous))
  }

  /** The last accepted event carries the cursor's hash and links to the one before. */
  lemma LastLink(digest: Digest, id: Identity, check: Check, events: seq<Dict>)
    requires check == Checker(digest, id)
    requires events != [] && Replay(check, events).Success?
    ensures var n := |events| - 1;
            && Replay(check, events[..n]).Success?
            && Links(digest, Replay(check, events[..n]).value, events[n], Replay(check, events).value)
  {
    LastStep(check, events);
    var n := |events| - 1;
    CheckedLink(digest, id, Replay(check, events[..n]).value, events[n]);
  }

  /** Collision-free digests exist, so the theorems that ask for one are not empty. */
  lemma CollisionFreeExists()
    ensures CollisionFree((s: string) => "#" + s)
  {
    var digest: Digest := (s: string) => "#" + s;
    forall s, t | digest(s) == digest(t) ensures s == t {
      assert s == digest(s)[1..] && t == digest(t)[1..];
    }
  }

  /** The last hash commits to the whole log: under a collision-free digest two accepted
      logs with the same last hash are the same sequence of events. */
  lemma LastHashCommits(digest: Digest, id: Identity, a: seq<Dict>, b: seq<Dict>)
    requires CollisionFree(digest)
    requires Replay(Checker(digest, id), a).Success? && Replay(Checker(digest, id), b).Success?
    requires Replay(Checker(digest, id), a).value.previous == Replay(Checker(digest, id), b).value.previous
    ensures SameLog(a, b)
  {
    HashCommitsBack(digest, id, Checker(digest, id), a, b);
  }

  /** The event a line holds. */
  function EventOf(line: string): Dict { FieldsOf(Loads(line)) }

  function EventsOf(lines: seq<string>): (events: seq<Dict>)
    ensures |events| == |lines|
    decreases |lines|
  {
    if lines == [] then [] else [EventOf(lines[0])] + EventsOf(lines[1..])
  }

  lemma {:induction false} EventsAt(lines: seq<string>, i: nat)
    requires i < |lines|
    ensures EventsOf(lines)[i] == EventOf(lines[i])
    decreases i
  {
    if i > 0 {
      EventsAt(lines[1..], i - 1);
    }
  }

  /** Every line of an accepted complete file holds an event, and the scan replays them. */
  lemma {:induction false} AcceptedLines(digest: Digest, id: Identity, cursor: Cursor, lines: seq<string>)
    requires LoadLines(Checker(digest, id), cursor, lines, true).Success?
    ensures forall i :: 0 <= i < |lines| ==> Loads(lines[i]) == Some(Obj(EventOf(lines[i])))
    ensures ReplayFrom(Checker(digest, id), cursor, EventsOf(lines)) ==
            LoadLines(Checker(digest, id), cursor, lines, true)
    decreases |lines|
  {
    hide CheckEvent, Loads;
    if lines != [] {
      var v, event := Loads(lines[0]).value, EventOf(lines[0]);
      OnlyObjects(digest, id, cursor, v);
      var next := CheckEvent(digest, id, cursor, v).value;
      AcceptedLines(digest, id, next, lines[1..]);
      var events := EventsOf(lines);
      assert events[0] == event && events[1..] == EventsOf(lines[1..]);
      forall i | 0 <= i < |lines| ensures Loads(lines[i]) == Some(Obj(EventOf(lines[i]))) {
        assert i > 0 ==> lines[i] == lines[1..][i - 1];
      }
    }
  }

  lemma OnlyObjects(digest: Digest, id: Identity, cursor: Cursor, v: Value)
    ensures CheckEvent(digest, id, cursor, v).Success? ==> v.Obj?
  {
    hide EventHash;
  }

  /** A log file of complete lines. */
  predicate Complete(data: string) { data == "" || EndsWithNewline(data) }

  lemma CompleteScan(digest: Digest, id: Identity, data: string)
    requires Complete(data) && Scan(Checker(digest, id), data).Success?
    ensures LoadLines(Checker(digest, id), FRESH, SplitLines(data), true) == Scan(Checker(digest, id), data)
  {
    if data == "" {
      assert SplitLines(data) == [];
    }
  }

  /** The same for files: under a collision-free digest two accepted newline-terminated
      texts with the same last hash hold the same events, line by line. */
  lemma FileHashCommits(digest: Digest, id: Identity, a: string, b: string)
    requires CollisionFree(digest) && Complete(a) && Complete(b)
    requires Scan(Checker(digest, id), a).Success? && Scan(Checker(digest, id), b).Success?
    requires Scan(Checker(digest, id), a).value.previous == Scan(Checker(digest, id), b).value.previous
    ensures var c, d := SplitLines(a), SplitLines(b);
            && |c| == |d|
            && forall i :: 0 <= i < |c| ==>
                 && Loads(c[i]) == Some(Obj(EventOf(c[i]))) && Loads(d[i]) == Some(Obj(EventOf(d[i])))
                 && SameEvent(EventOf(c[i]), EventOf(d[i]))
  {
    hide CollisionFree, Scan, LoadLines, SplitLines, Complete, EventsOf, EventOf, SameEvent, Loads, ReplayFrom;
    var c, d := SplitLines(a), SplitLines(b);
    CompleteScan(digest, id, a);
    CompleteScan(digest, id, b);
    AcceptedLines(digest, id, FRESH, c);
    AcceptedLines(digest, id, FRESH, d);
    LastHashCommits(digest, id, EventsOf(c), EventsOf(d));
    forall i | 0 <= i < |c| ensures SameEvent(EventOf(c[i]), EventOf(d[i])) {
      EventsAt(c, i);
      EventsAt(d, i);
    }
  }

  lemma {:induction false} HashCommitsBack(digest: Digest, id: Identity, check: Check, a: seq<Dict>, b: seq<Dict>)
    requires CollisionFree(digest) && check == Checker(digest, id)
    requires Replay(check, a).Success? && Replay(check, b).Success?
    requires Replay(check, a).value.previous == Replay(check, b).value.previous
    ensures SameLog(a, b)
    decreases |a|
  {
    hide SameEvent, Checker, CollisionFree;
    if a != [] { HashIsNotEmpty(digest, id, check, a); }
    if b != [] { HashIsNotEmpty(digest, id, check, b); }
    if a != [] && b != [] {
      var n, m := |a| - 1, |b| - 1;
      StepBack(digest, id, check, a, b);
      HashCommitsBack(digest, id, check, a[..n], b[..m]);
      SameLogExtends(a, b);
    }
  }

  lemma HashIsNotEmpty(digest: Digest, id: Identity, check: Check, events: seq<Dict>)
    requires CollisionFree(digest) && check == Checker(digest, id)
    requires events != [] && Replay(check, events).Success?
    ensures Replay(check, events).value.previous != FRESH.previous
  {
    LastLink(digest, id, check, events);
  }

  lemma StepBack(digest: Digest, id: Identity, check: Check, a: seq<Dict>, b: seq<Dict>)
    requires CollisionFree(digest) && check == Checker(digest, id)
    requires a != [] && Replay(check, a).Success?
    requires b != [] && Replay(check, b).Success?
    requires Replay(check, a).value.previous == Replay(check, b).value.previous
    ensures var before, before' := Replay(check, a[..|a| - 1]), Replay(check, b[..|b| - 1]);
            before.Success? && before'.Success? && before.value.previous == before'.value.previous
    ensures SameEvent(a[|a| - 1], b[|b| - 1])
  {
    LastLink(digest, id, check, a);
    LastLink(digest, id, check, b);
    SameHashSameLink(digest, a[|a| - 1], b[|b| - 1]);
  }

  lemma SameHashSameLink(digest: Digest, a: Dict, b: Dict)
    requires CollisionFree(digest)
    requires EventHash(digest, a) == EventHash(digest, b)
    ensures Remove(a, "event_sha256") == Remove(b, "event_sha256")
    ensures Get(a, "prev_event_sha256") == Get(b, "prev_event_sha256")
  {
    EncodeInjective(Obj(Remove(a, "event_sha256")), Obj(Remove(b, "event_sha256")));
    RemoveGet(a, "event_sha256", "prev_event_sha256");
    RemoveGet(b, "event_sha256", "prev_event_sha256");
  }

  lemma EncodeInjective(v: Value, w: Value)
    ensures Encode(v) == Encode(w) ==> v == w
  {
    DecodeEncode(v);
    DecodeEncode(w);
  }

  // ----- Events the worker writes

  /** Looking a key up in a durable state. */
  lemma DurableGet(id: Identity, state: State, key: string)
    ensures Get(Durable(id, state), key) ==
            if key == "candidates" then Some(Obj(state.candidates))
            else if key == "first_timestamp" then Some(Int(state.firstTimestamp))
            else if key == "last_timestamp" then Some(Int(state.lastTimestamp))
            else if key == "run_id" then Some(Str(id.runId))
            else if key == "snapshot_count" then Some(Int(state.snapshotCount))
            else if key == "spec_hash" then Some(Str(id.specHash))
            else None
  {
    hide Put, Get;
    var d0 := Put(NoMembers, "spec_hash", Str(id.specHash));
    var d1 := Put(d0, "snapshot_count", Int(state.snapshotCount));
    var d2 := Put(d1, "run_id", Str(id.runId));
    var d3 := Put(d2, "last_timestamp", Int(state.lastTimestamp));
    var d4 := Put(d3, "first_timestamp", Int(state.firstTimestamp));
    PutGet(NoMembers, "spec_hash", Str(id.specHash), key);
    PutGet(d0, "snapshot_count", Int(state.snapshotCount), key);
    PutGet(d1, "run_id", Str(id.runId), key);
    PutGet(d2, "last_timestamp", Int(state.lastTimestamp), key);
    PutGet(d3, "first_timestamp", Int(state.firstTimestamp), key);
    PutGet(d4, "candidates", Obj(state.candidates), key);
    GetNothing(key);
  }

  lemma StateKeyShapes()
    ensures |"candidates"| == 10 && |"first_timestamp"| == 15 && |"last_timestamp"| == 14 && |"run_id"| == 6
    ensures |"snapshot_count"| == 14 && |"spec_hash"| == 9 && "last_timestamp"[0] == 'l' && "snapshot_count"[0] == 's'
  {
  }

  lemma DurableFields(id: Identity, state: State)
    ensures var d := Durable(id, state);
            && Get(d, "run_id") == Some(Str(id.runId)) && Get(d, "spec_hash") == Some(Str(id.specHash))
            && Get(d, "candidates") == Some(Obj(state.candidates))
            && IntOf(d, "last_timestamp") == state.lastTimestamp
            && IntOf(d, "first_timestamp") == state.firstTimestamp
            && IntOf(d, "snapshot_count") == state.snapshotCount
  {
    hide Durable, Get;
    StateKeyShapes();
    DurableGet(id, state, "run_id");
    DurableGet(id, state, "spec_hash");
    DurableGet(id, state, "candidates");
    DurableGet(id, state, "last_timestamp");
    DurableGet(id, state, "first_timestamp");
    DurableGet(id, state, "snapshot_count");
  }

  lemma TailGet(id: Identity, body: EventBody, state: State, key: string)
    ensures Get(EventTail(id, body, state), key) ==
            if key == "run_id" then Some(Str(id.runId))
            else if key == "schema_version" then Some(Int(1))
            else if key == "snapshot_id" then Some(Str(body.snapshotId))
            else if key == "snapshot_sha256" then Some(Str(body.snapshotHash))
            else if key == "spec_hash" then Some(Str(id.specHash))
            else if key == "state" then Some(Obj(Durable(id, state)))
            else None
  {
    hide Put, Durable, Get;
    var e0 := Put(NoMembers, "state", Obj(Durable(id, state)));
    var e1 := Put(e0, "spec_hash", Str(id.specHash));
    var e2 := Put(e1, "snapshot_sha256", Str(body.snapshotHash));
    var e3 := Put(e2, "snapshot_id", Str(body.snapshotId));
    var e4 := Put(e3, "schema_version", Int(1));
    PutGet(NoMembers, "state", Obj(Durable(id, state)), key);
    PutGet(e0, "spec_hash", Str(id.specHash), key);
    PutGet(e1, "snapshot_sha256", Str(body.snapshotHash), key);
    PutGet(e2, "snapshot_id", Str(body.snapshotId), key);
    PutGet(e3, "schema_version", Int(1), key);
    PutGet(e4, "run_id", Str(id.runId), key);
    GetNothing(key);
  }

  /** Looking a key up in an event of the worker. */
  lemma UnsignedGet(id: Identity, body: EventBody, prev: string, state: State, key: string)
    ensures Get(Unsigned(id, body, prev, state), key) ==
            if key == "candidates" then Some(body.candidates)
            else if key == "evaluated_at" then Some(body.evaluatedAt)
            else if key == "event" then Some(Str("closed_candle_evaluated"))
            else if key == "market_snapshot" then Some(body.snapshot)
            else if key == "prev_event_sha256" then Some(Str(prev))
            else Get(EventTail(id, body, state), key)
  {
    hide Put, EventTail, Get, SortedMembers;
    var e0 := EventTail(id, body, state);
    var e1 := Put(e0, "prev_event_sha256", Str(prev));
    var e2 := Put(e1, "market_snapshot", body.snapshot);
    var e3 := Put(e2, "event", Str("closed_candle_evaluated"));
    var e4 := Put(e3, "evaluated_at", body.evaluatedAt);
    PutGet(e0, "prev_event_sha256", Str(prev), key);
    PutGet(e1, "market_snapshot", body.snapshot, key);
    PutGet(e2, "event", Str("closed_candle_evaluated"), key);
    PutGet(e3, "evaluated_at", body.evaluatedAt, key);
    PutGet(e4, "candidates", body.candidates, key);
  }

  lemma GetNothing(key: string)
    ensures Get(NoMembers, key) == None
  {
  }

  /** The lengths of the keys, and their first letters where the lengths agree. */
  lemma EventKeyShapes()
    ensures |"candidates"| == 10 && |"evaluated_at"| == 12 && |"event"| == 5 && |"market_snapshot"| == 15
    ensures |"prev_event_sha256"| == 17 && |"run_id"| == 6 && |"schema_version"| == 14 && |"snapshot_id"| == 11
    ensures |"snapshot_sha256"| == 15 && |"spec_hash"| == 9 && |"state"| == 5
    ensures "event"[0] == 'e' && "state"[0] == 's' && "market_snapshot"[0] == 'm' && "snapshot_sha256"[0] == 's'
  {
  }

  lemma UnsignedFields(id: Identity, body: EventBody, prev: string, state: State)
    ensures var e := Unsigned(id, body, prev, state);
            && Get(e, "schema_version") == Some(Int(1))
            && Get(e, "run_id") == Some(Str(id.runId)) && Get(e, "spec_hash") == Some(Str(id.specHash))
            && Get(e, "prev_event_sha256") == Some(Str(prev))
            && Get(e, "state") == Some(Obj(Durable(id, state)))
            && Get(e, "market_snapshot") == Some(body.snapshot)
  {
    hide *;
    EventKeyShapes();
    UnsignedGet(id, body, prev, state, "schema_version");
    UnsignedGet(id, body, prev, state, "run_id");
    UnsignedGet(id, body, prev, state, "spec_hash");
    UnsignedGet(id, body, prev, state, "prev_event_sha256");
    UnsignedGet(id, body, prev, state, "state");
    UnsignedGet(id, body, prev, state, "market_snapshot");
    TailGet(id, body, state, "schema_version");
    TailGet(id, body, state, "run_id");
    TailGet(id, body, state, "spec_hash");
    TailGet(id, body, state, "state");
  }

  /** An event the worker writes is accepted exactly behind the event it links to, and
      carries its state through the log. */
  lemma WrittenEvent(digest: Digest, id: Identity, initial: State, body: EventBody, cursor: Cursor, prev: string,
                     state: State, event: Dict)
    requires Keys(state.candidates) == id.candidateIds && event == Unsigned(id, body, prev, state)
    ensures var hash := EventHash(digest, event);
            var checked := CheckEvent(digest, id, cursor, Obj(Signed(digest, event)));
            && (prev != cursor.previous ==> checked == Failure(BrokenChain))
            && (prev == cursor.previous ==>
                  checked.Success? && checked.value.previous == hash
                    && Finish(id, initial, checked.value) == Success(state.(lastHash := hash)))
  {
    hide *;
    UnsignedFields(id, body, prev, state);
    SignedKeys(digest, event);
    DurableFields(id, state);
    CheckFields(digest, id, cursor, Signed(digest, event), prev, EventHash(digest, event), Durable(id, state));
    FinishFields(id, initial, Durable(id, state), state, EventHash(digest, event));
  }

  lemma SignedKeys(digest: Digest, e: Dict)
    ensures var event := Signed(digest, e);
            && Get(event, "schema_version") == Get(e, "schema_version")
            && Get(event, "run_id") == Get(e, "run_id") && Get(event, "spec_hash") == Get(e, "spec_hash")
            && Get(event, "prev_event_sha256") == Get(e, "prev_event_sha256") && Get(event, "state") == Get(e, "state")
            && TextOf(event, "event_sha256") == EventHash(digest, e) == EventHash(digest, event)
  {
    hide Signed, EventHash, Get, TextOf;
    SignedFields(digest, e, "schema_version");
    SignedFields(digest, e, "run_id");
    SignedFields(digest, e, "spec_hash");
    SignedFields(digest, e, "prev_event_sha256");
    SignedFields(digest, e, "state");
  }

  lemma CheckFields(digest: Digest, id: Identity, cursor: Cursor, event: Dict, prev: string, hash: string,
                    durable: Dict)
    requires Get(event, "schema_version") == Some(Int(1))
    requires Get(event, "run_id") == Some(Str(id.runId)) && Get(event, "spec_hash") == Some(Str(id.specHash))
    requires Get(event, "prev_event_sha256") == Some(Str(prev)) && Get(event, "state") == Some(Obj(durable))
    requires TextOf(event, "event_sha256") == hash == EventHash(digest, event)
    ensures CheckEvent(digest, id, cursor, Obj(event)) ==
            if prev != cursor.previous then Failure(BrokenChain) else Success(Cursor(Some(durable), hash))
  {
    hide EventHash, Get, TextOf;
  }

  lemma FinishKeys(id: Identity, initial: State, cursor: Cursor)
    requires Keys(initial.candidates) == id.candidateIds
    ensures Finish(id, initial, cursor).Success? ==>
            Keys(Finish(id, initial, cursor).value.candidates) == id.candidateIds
  {
    hide Get, Keys, IntOf;
  }

  lemma FinishFields(id: Identity, initial: State, d: Dict, state: State, hash: string)
    requires Get(d, "run_id") == Some(Str(id.runId)) && Get(d, "spec_hash") == Some(Str(id.specHash))
    requires Get(d, "candidates") == Some(Obj(state.candidates)) && Keys(state.candidates) == id.candidateIds
    requires IntOf(d, "last_timestamp") == state.lastTimestamp && IntOf(d, "first_timestamp") == state.firstTimestamp
    requires IntOf(d, "snapshot_count") == state.snapshotCount
    ensures Finish(id, initial, Cursor(Some(d), hash)) == Success(state.(lastHash := hash))
  {
    hide Get, Keys, IntOf;
  }
}
