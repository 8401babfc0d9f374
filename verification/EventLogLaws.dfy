/** Which files are accepted as logs, told line by line, and where lines and tails end. */
module EventLogLaws {
  import opened Wrappers
  import opened Json
  import opened Dictionaries
  import opened EventLog
  import opened EventLogProofs

  // ----- Accepted logs

  /** The hash that a line's event carries. */
  function HashOf(line: string): string {
    match Get(EventOf(line), "event_sha256")
    case Some(Str(hash)) => hash
    case _ => ""
  }

  /** A whole number in a dictionary, or zero. */
  function NumberAt(d: Dict, key: string): int {
    match Get(d, key)
    case Some(Int(n)) => n
    case _ => 0
  }

  /** The line holds an object of version 1 with the identity of the run, linked to `previous`,
      whose own hash is that of the rest of it, and which has a durable state. */
  predicate GoodLine(digest: Digest, id: Identity, previous: string, line: string) {
    var e := EventOf(line);
    && Loads(line) == Some(Obj(e))
    && Get(e, "schema_version") == Some(Int(1))
    && Get(e, "run_id") == Some(Str(id.runId)) && Get(e, "spec_hash") == Some(Str(id.specHash))
    && Get(e, "prev_event_sha256") == Some(Str(previous))
    && HashOf(line) == digest(Encode(Obj(Remove(e, "event_sha256"))))
    && Get(e, "state") == Some(Obj(StateOf(line)))
  }

  function StateOf(line: string): Dict { FieldsOf(Get(EventOf(line), "state")) }

  /** The hash that line `i` has to link to. */
  function LinkOf(previous: string, lines: seq<string>, i: nat): string
    requires i <= |lines|
  {
    if i == 0 then previous else HashOf(lines[i - 1])
  }

  /** Every line is good behind the one before it. */
  ghost predicate Chained(digest: Digest, id: Identity, previous: string, lines: seq<string>) {
    forall i :: 0 <= i < |lines| ==> GoodLine(digest, id, LinkOf(previous, lines, i), lines[i])
  }

  lemma ChainedStep(digest: Digest, id: Identity, previous: string, lines: seq<string>)
    requires lines != []
    ensures Chained(digest, id, previous, lines) <==>
            GoodLine(digest, id, previous, lines[0]) && Chained(digest, id, HashOf(lines[0]), lines[1..])
  {
    hide GoodLine, HashOf;
    var rest := lines[1..];
    forall i | 0 <= i < |rest|
      ensures rest[i] == lines[i + 1] && LinkOf(HashOf(lines[0]), rest, i) == LinkOf(previous, lines, i + 1) {
    }
    if GoodLine(digest, id, previous, lines[0]) && Chained(digest, id, HashOf(lines[0]), rest) {
      forall i | 0 <= i < |lines| ensures GoodLine(digest, id, LinkOf(previous, lines, i), lines[i]) {
        if i > 0 {
          assert GoodLine(digest, id, LinkOf(HashOf(lines[0]), rest, i - 1), rest[i - 1]);
        }
      }
    }
    if Chained(digest, id, previous, lines) {
      assert GoodLine(digest, id, LinkOf(previous, lines, 0), lines[0]);
      forall i | 0 <= i < |rest| ensures GoodLine(digest, id, LinkOf(HashOf(lines[0]), rest, i), rest[i]) {
        assert GoodLine(digest, id, LinkOf(previous, lines, i + 1), lines[i + 1]);
      }
    }
  }

  lemma CheckIsGood(digest: Digest, id: Identity, cursor: Cursor, line: string)
    requires Loads(line).Some?
    ensures var checked := Checker(digest, id)(cursor, Loads(line).value);
            && (checked.Success? <==> GoodLine(digest, id, cursor.previous, line))
            && (checked.Success? ==> checked.value == Cursor(Some(StateOf(line)), HashOf(line)))
  {
    hide Get, Loads, Remove, Encode, SortedMembers, Sorted;
  }

  /** The cursor behind good lines. */
  function Behind(cursor: Cursor, lines: seq<string>): Cursor {
    if lines == [] then cursor else Cursor(Some(StateOf(lines[|lines| - 1])), HashOf(lines[|lines| - 1]))
  }

  lemma {:induction false} LinesIff(digest: Digest, id: Identity, cursor: Cursor, lines: seq<string>)
    ensures LoadLines(Checker(digest, id), cursor, lines, true).Success? <==>
            Chained(digest, id, cursor.previous, lines)
    ensures Chained(digest, id, cursor.previous, lines) ==>
            LoadLines(Checker(digest, id), cursor, lines, true) == Success(Behind(cursor, lines))
    decreases |lines|
  {
    hide Checker, Chained, GoodLine, HashOf, StateOf, Loads;
    if lines == [] {
      NothingChained(digest, id, cursor.previous);
    } else {
      ChainedStep(digest, id, cursor.previous, lines);
      if Loads(lines[0]).Some? {
        CheckIsGood(digest, id, cursor, lines[0]);
        var checked := Checker(digest, id)(cursor, Loads(lines[0]).value);
        if checked.Success? {
          LinesIff(digest, id, checked.value, lines[1..]);
        }
      } else {
        GoodLoads(digest, id, cursor.previous, lines[0]);
      }
    }
  }

  lemma NothingChained(digest: Digest, id: Identity, previous: string)
    ensures Chained(digest, id, previous, [])
  {
  }

  lemma GoodLoads(digest: Digest, id: Identity, previous: string, line: string)
    ensures GoodLine(digest, id, previous, line) ==> Loads(line).Some?
  {
  }

  /** The lines a load looks at: all but an unterminated last one that does not parse. */
  function Counted(data: string): seq<string> {
    var lines := SplitLines(data);
    if lines != [] && data[|data| - 1] != '\n' && Loads(lines[|lines| - 1]) == None then lines[..|lines| - 1] else lines
  }

  lemma {:induction false} DropLast(check: Check, cursor: Cursor, lines: seq<string>)
    requires lines != [] && Loads(lines[|lines| - 1]) == None
    ensures LoadLines(check, cursor, lines, false) == LoadLines(check, cursor, lines[..|lines| - 1], true)
    decreases |lines|
  {
    hide Loads;
    if |lines| > 1 {
      var front := lines[..|lines| - 1];
      assert front[0] == lines[0] && front[1..] == lines[1..][..|lines[1..]| - 1];
      if Loads(lines[0]).Some? {
        match check(cursor, Loads(lines[0]).value) {
          case Success(next) => DropLast(check, next, lines[1..]);
          case Failure(_) =>
        }
      }
    }
  }

  lemma {:induction false} TailCounts(check: Check, cursor: Cursor, lines: seq<string>)
    requires lines != [] ==> Loads(lines[|lines| - 1]).Some?
    ensures LoadLines(check, cursor, lines, false) == LoadLines(check, cursor, lines, true)
    decreases |lines|
  {
    hide Loads, SortedMembers, Sorted;
    if lines != [] && Loads(lines[0]).Some? {
      match check(cursor, Loads(lines[0]).value) {
        case Success(next) => TailCounts(check, next, lines[1..]);
        case Failure(_) =>
      }
    }
  }

  /** A file is accepted exactly when every line that counts is good behind the one before it,
      the first one behind the empty hash; and the scan ends with the last one's state and
      hash. */
  lemma ScanMeans(digest: Digest, id: Identity, data: string)
    ensures Scan(Checker(digest, id), data).Success? <==> Chained(digest, id, "", Counted(data))
    ensures Chained(digest, id, "", Counted(data)) ==>
            Scan(Checker(digest, id), data) == Success(Behind(Cursor(None, ""), Counted(data)))
  {
    hide Loads, LoadLines, Chained, Behind, Checker, SplitLines;
    var lines, check := SplitLines(data), Checker(digest, id);
    NoLines(data);
    LinesIff(digest, id, FRESH, Counted(data));
    if !EndsWithNewline(data) {
      if lines != [] && Loads(lines[|lines| - 1]) == None {
        DropLast(check, FRESH, lines);
      } else {
        TailCounts(check, FRESH, lines);
      }
    }
  }

  lemma NoLines(data: string)
    ensures SplitLines(data) == [] <==> data == ""
  {
  }

  lemma FinishNothing(id: Identity, initial: State)
    ensures Finish(id, initial, Cursor(None, "")) == Success(initial)
  {
  }

  lemma FinishMeans(id: Identity, initial: State, d: Dict, hash: string)
    ensures var loaded := Finish(id, initial, Cursor(Some(d), hash));
            && (loaded.Success? <==>
                  && Get(d, "run_id") == Some(Str(id.runId)) && Get(d, "spec_hash") == Some(Str(id.specHash))
                  && exists candidates :: Get(d, "candidates") == Some(Obj(candidates))
                                          && Keys(candidates) == id.candidateIds)
            && (loaded.Success? ==>
                  && Get(d, "candidates") == Some(Obj(loaded.value.candidates))
                  && loaded.value.lastTimestamp == NumberAt(d, "last_timestamp")
                  && loaded.value.firstTimestamp == NumberAt(d, "first_timestamp")
                  && loaded.value.snapshotCount == NumberAt(d, "snapshot_count")
                  && loaded.value.lastHash == hash)
  {
    hide Get, Keys;
  }

  /** A load succeeds exactly when the file is accepted and the last durable state, if there is
      any, belongs to the run and has its candidates; it gives that state and the last hash,
      and the initial state without events. */
  lemma LoadMeans(digest: Digest, id: Identity, initial: State, data: string)
    ensures var lines, loaded := Counted(data), Load(digest, id, initial, data);
            if lines == [] then loaded == Success(initial)
            else
              var last := lines[|lines| - 1];
              var d := StateOf(last);
              && (loaded.Success? <==>
                    && Chained(digest, id, "", lines)
                    && Get(d, "run_id") == Some(Str(id.runId)) && Get(d, "spec_hash") == Some(Str(id.specHash))
                    && exists candidates :: Get(d, "candidates") == Some(Obj(candidates))
                                            && Keys(candidates) == id.candidateIds)
              && (loaded.Success? ==>
                    && Get(d, "candidates") == Some(Obj(loaded.value.candidates))
                    && loaded.value.lastTimestamp == NumberAt(d, "last_timestamp")
                    && loaded.value.firstTimestamp == NumberAt(d, "first_timestamp")
                    && loaded.value.snapshotCount == NumberAt(d, "snapshot_count")
                    && loaded.value.lastHash == HashOf(last))
  {
    hide *;
    LoadIs(digest, id, initial, data);
    var lines := Counted(data);
    if lines == [] {
      NothingChained(digest, id, "");
      FinishNothing(id, initial);
    } else {
      FinishMeans(id, initial, StateOf(lines[|lines| - 1]), HashOf(lines[|lines| - 1]));
    }
  }

  lemma LoadIs(digest: Digest, id: Identity, initial: State, data: string)
    ensures var lines, loaded := Counted(data), Load(digest, id, initial, data);
            if !Chained(digest, id, "", lines) then loaded.Failure?
            else if lines == [] then loaded == Finish(id, initial, Cursor(None, ""))
            else loaded == Finish(id, initial, Cursor(Some(StateOf(lines[|lines| - 1])), HashOf(lines[|lines| - 1])))
  {
    hide Scan, Chained, StateOf, HashOf, Counted, Checker, Finish, Behind;
    ScanMeans(digest, id, data);
    BehindIs(Cursor(None, ""), Counted(data));
    match Scan(Checker(digest, id), data) {
      case Success(cursor) => assert Load(digest, id, initial, data) == Finish(id, initial, cursor);
      case Failure(_) =>
    }
  }

  lemma BehindIs(cursor: Cursor, lines: seq<string>)
    ensures Behind(cursor, lines) ==
            if lines == [] then cursor else Cursor(Some(StateOf(lines[|lines| - 1])), HashOf(lines[|lines| - 1]))
  {
    hide StateOf, HashOf;
  }

  // ----- Lines and tails

  /** A line feed, a carriage return or the two together end a line. */
  lemma LineEnds(line: string, rest: string)
    requires forall c :: c in line ==> c != '\n' && c != '\r'
    ensures SplitLines(line) == if line == "" then [] else [line]
    ensures SplitLines(line + "\n" + rest) == [line] + SplitLines(rest)
    ensures SplitLines(line + "\r\n" + rest) == [line] + SplitLines(rest)
    ensures rest == "" || rest[0] != '\n' ==> SplitLines(line + "\r" + rest) == [line] + SplitLines(rest)
  {
    hide LineSpan;
    SpanStops(line, "");
    SpanStops(line, "\n" + rest);
    SpanStops(line, "\r\n" + rest);
    SpanStops(line, "\r" + rest);
    var feed, both, back := line + "\n" + rest, line + "\r\n" + rest, line + "\r" + rest;
    assert line + "" == line;
    assert feed == line + ("\n" + rest) && both == line + ("\r\n" + rest) && back == line + ("\r" + rest);
    assert feed[|line|] == '\n' && both[|line|] == '\r' && both[|line| + 1] == '\n' && back[|line|] == '\r';
    assert feed[|line| + 1..] == rest && both[|line| + 2..] == rest && back[|line| + 1..] == rest;
    assert feed[..|line|] == both[..|line|] == back[..|line|] == line;
    assert rest != "" ==> back[|line| + 1] == rest[0];
  }

  lemma {:induction false} SpanStops(line: string, tail: string)
    requires forall c :: c in line ==> c != '\n' && c != '\r'
    requires tail == "" || tail[0] == '\n' || tail[0] == '\r'
    ensures LineSpan(line + tail) == |line|
  {
    var whole := line + tail;
    forall i | 0 <= i < |line| ensures !IsBreak(whole[i]) {
      assert whole[i] == line[i] && line[i] in line;
    }
    assert tail != "" ==> whole[|line|] == tail[0];
    var n := LineSpan(whole);
    assert n >= |line| && n <= |line|;
  }

  /** Repair keeps the file up to its last line feed. */
  lemma {:induction false} RepairMeans(data: string)
    ensures Repair(data) <= data
    ensures Repair(data) == "" || Repair(data)[|Repair(data)| - 1] == '\n'
    ensures forall i :: |Repair(data)| <= i < |data| ==> data[i] != '\n'
    decreases |data|
  {
    if data != "" && !EndsWithNewline(data) {
      var front := data[..|data| - 1];
      RepairMeans(front);
      forall i | |Repair(data)| <= i < |data| ensures data[i] != '\n' {
        assert i < |front| ==> front[i] == data[i];
      }
    }
  }
}
