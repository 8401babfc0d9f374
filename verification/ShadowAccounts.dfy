/** The account of one shadow candidate along the log: each evaluation starts from the ledger
    and the figures that the one before it left. */
module ShadowAccounts {
  import opened Wrappers
  import opened Json
  import opened Dictionaries
  import opened CandleStore
  import opened EventLog
  import opened EventLogProofs
  import opened ShadowEvaluator
  import opened ShadowTheorems
  import opened ShadowRuns
  import opened ShadowCounts

  datatype Account = Account(ledger: Value, stats: Dict)

  /** What the candidate's strategy and ledger make of the candle `n` of the log. */
  function Turnout(rt: Runtime, spec: Spec, id: string, times: seq<int>, moments: seq<Moment>, n: nat): Outcome
    requires n < |times| == |moments|
    decreases n, 1
  {
    var account := AccountAfter(rt, spec, id, times, moments, n);
    rt.evaluate(id, Observe(spec, moments[n].source, times[n]), account.ledger, account.stats)
  }

  /** The account after the first `n` candles. */
  function AccountAfter(rt: Runtime, spec: Spec, id: string, times: seq<int>, moments: seq<Moment>, n: nat): Account
    requires n <= |times| == |moments|
    decreases n, 0
  {
    if n == 0 then Account(rt.initialLedger(id), InitialStats(rt))
    else
      var o := Turnout(rt, spec, id, times, moments, n - 1);
      Account(o.ledger, NextStats(rt, AccountAfter(rt, spec, id, times, moments, n - 1).stats, o))
  }

  /** The entry of a candidate in a durable state is this account. */
  predicate Stores(candidates: Dict, id: string, account: Account) {
    match Get(candidates, id)
    case Some(Obj(entry)) =>
      Get(entry, "ledger") == Some(account.ledger) && Get(entry, "stats") == Some(Obj(account.stats))
    case _ => false
  }

  lemma StoredParts(rt: Runtime, candidates: Dict, id: string, account: Account)
    requires Stores(candidates, id, account) && account.stats != NoMembers
    ensures var entry := FieldsOf(Get(candidates, id));
            LedgerOf(entry) == account.ledger && StatsOf(rt, entry) == account.stats
  {
    hide InitialStats;
  }

  lemma AccountHasStats(rt: Runtime, spec: Spec, id: string, times: seq<int>, moments: seq<Moment>, n: nat)
    requires n <= |times| == |moments|
    ensures AccountAfter(rt, spec, id, times, moments, n).stats != NoMembers
  {
    hide NextStats, InitialStats, Observe;
    if n == 0 {
      InitialNotEmpty(rt);
    } else {
      NextStatsCounts(rt, AccountAfter(rt, spec, id, times, moments, n - 1).stats,
                      Turnout(rt, spec, id, times, moments, n - 1));
    }
  }

  lemma InitialNotEmpty(rt: Runtime)
    ensures InitialStats(rt) != NoMembers
  {
    hide InitialStats;
    InitialStored(rt, Trades);
  }

  lemma {:induction false} InitialStores(rt: Runtime, ids: seq<string>, id: string)
    requires id in ids
    ensures Stores(InitialCandidates(rt, ids), id, Account(rt.initialLedger(id), InitialStats(rt)))
    decreases |ids|
  {
    hide Put, Get, InitialStats, InitialEntry;
    PutGet(InitialCandidates(rt, ids[1..]), ids[0], Obj(InitialEntry(rt, ids[0])), id);
    EntryStores(rt, ids[0]);
    if id != ids[0] {
      InitialStores(rt, ids[1..], id);
    }
  }

  lemma EntryStores(rt: Runtime, id: string)
    ensures Get(InitialEntry(rt, id), "ledger") == Some(rt.initialLedger(id))
    ensures Get(InitialEntry(rt, id), "stats") == Some(Obj(InitialStats(rt)))
  {
    hide Put, Get, InitialStats;
    var none: Dict := NoMembers;
    var entry := Put(none, "stats", Obj(InitialStats(rt)));
    assert |"stats"| == 5 && |"ledger"| == 6;
    PutGet(none, "stats", Obj(InitialStats(rt)), "stats");
    PutGet(entry, "ledger", rt.initialLedger(id), "stats");
    PutGet(entry, "ledger", rt.initialLedger(id), "ledger");
  }

  /** What one candle makes of a stored account. */
  lemma NextStores(rt: Runtime, id: string, s: Snapshot, candidates: Dict, account: Account)
    requires Stores(candidates, id, account) && account.stats != NoMembers
    ensures var o := rt.evaluate(id, s, account.ledger, account.stats);
            var next := NextCandidate(rt, id, s, candidates);
            && OutcomeOf(rt, id, s, candidates) == o
            && Get(next, "ledger") == Some(o.ledger) && Get(next, "stats") == Some(Obj(NextStats(rt, account.stats, o)))
            && Get(next, "last_signal") == Some(o.signal)
  {
    hide Put, NextStats, InitialStats, StatsOf, LedgerOf, Stores, Get;
    StoredParts(rt, candidates, id, account);
    var current := FieldsOf(Get(candidates, id));
    var o := OutcomeOf(rt, id, s, candidates);
    var stats := NextStats(rt, StatsOf(rt, current), o);
    var withLedger := Put(current, "ledger", o.ledger);
    var withStats := Put(withLedger, "stats", Obj(stats));
    assert |"stats"| == 5 && |"ledger"| == 6 && |"last_signal"| == 11;
    PutGet(current, "ledger", o.ledger, "ledger");
    PutGet(withLedger, "stats", Obj(stats), "ledger");
    PutGet(withLedger, "stats", Obj(stats), "stats");
    PutGet(withStats, "last_signal", o.signal, "ledger");
    PutGet(withStats, "last_signal", o.signal, "stats");
    PutGet(withStats, "last_signal", o.signal, "last_signal");
  }

  lemma AdvanceStores(rt: Runtime, ids: seq<string>, s: Snapshot, done: Dict, id: string, account: Account)
    requires |ids| == 2 && ids[0] != ids[1] && id in ids
    requires Stores(done, id, account) && account.stats != NoMembers
    ensures var o := rt.evaluate(id, s, account.ledger, account.stats);
            && OutcomeOf(rt, id, s, done) == o
            && Stores(Advance(rt, ids, s, done), id, Account(o.ledger, NextStats(rt, account.stats, o)))
  {
    hide NextCandidate, NextStats, Put, OutcomeOf, Get;
    var a, b := ids[0], ids[1];
    var one := Put(done, a, Obj(NextCandidate(rt, a, s, done)));
    var two := Put(one, b, Obj(NextCandidate(rt, b, s, one)));
    assert ids[1..][0] == b && ids[1..][1..] == [];
    assert Advance(rt, ids, s, done) == Advance(rt, ids[1..], s, one) == Advance(rt, ids[1..][1..], s, two) == two;
    PutGet(done, a, Obj(NextCandidate(rt, a, s, done)), id);
    PutGet(one, b, Obj(NextCandidate(rt, b, s, one)), id);
    NextStores(rt, id, s, done, account);
    if id == b {
      NextStores(rt, id, s, one, account);
    }
  }

  /** The account depends on the candles before `n` only. */
  lemma {:induction false} AccountOfPrefix(rt: Runtime, spec: Spec, id: string, times: seq<int>, moments: seq<Moment>,
                                           m: nat, n: nat)
    requires n <= m <= |times| == |moments|
    ensures AccountAfter(rt, spec, id, times[..m], moments[..m], n) == AccountAfter(rt, spec, id, times, moments, n)
    decreases n
  {
    hide *;
    if n > 0 {
      AccountOfPrefix(rt, spec, id, times, moments, m, n - 1);
      NextAccount(rt, spec, id, times, moments, n);
      NextAccount(rt, spec, id, times[..m], moments[..m], n);
    } else {
      FirstAccount(rt, spec, id, times, moments);
      FirstAccount(rt, spec, id, times[..m], moments[..m]);
    }
  }

  lemma FirstAccount(rt: Runtime, spec: Spec, id: string, times: seq<int>, moments: seq<Moment>)
    requires |times| == |moments|
    ensures AccountAfter(rt, spec, id, times, moments, 0) == Account(rt.initialLedger(id), InitialStats(rt))
  {
    hide InitialStats;
  }

  /** Along every log each candidate is evaluated with the ledger and the figures its last
      evaluation left, from its initial ledger on, and the durable state stores just those. */
  lemma {:induction false} LogStores(rt: Runtime, spec: Spec, times: seq<int>, moments: seq<Moment>, id: string)
    requires spec.Valid() && id in spec.candidates && |times| == |moments|
    ensures Stores(Reference(rt, spec, times, moments).state.candidates, id,
                   AccountAfter(rt, spec, id, times, moments, |times|))
    decreases |times|
  {
    hide *;
    var n := |times|;
    ReferenceIs(rt, spec, times, moments);
    if n == 0 {
      NothingLogged(rt, spec, times, moments);
      FirstAccount(rt, spec, id, times, moments);
      InitialStores(rt, spec.candidates, id);
    } else {
      LogStores(rt, spec, times[..n - 1], moments[..n - 1], id);
      AccountOfPrefix(rt, spec, id, times, moments, n - 1, n - 1);
      AccountHasStats(rt, spec, id, times, moments, n - 1);
      var before := Reference(rt, spec, times[..n - 1], moments[..n - 1]).state;
      var s := Observe(spec, moments[n - 1].source, times[n - 1]);
      TwoCandidates(spec);
      AdvanceStores(rt, spec.candidates, s, before.candidates, id, AccountAfter(rt, spec, id, times, moments, n - 1));
      LastCandidates(rt, spec, times, moments);
      NextAccount(rt, spec, id, times, moments, n);
    }
  }

  lemma NothingLogged(rt: Runtime, spec: Spec, times: seq<int>, moments: seq<Moment>)
    requires |times| == |moments| == 0
    ensures Reference(rt, spec, times, moments).state.candidates == InitialCandidates(rt, spec.candidates)
  {
    hide InitialCandidates, StepOf;
  }

  lemma TwoCandidates(spec: Spec)
    requires spec.Valid()
    ensures |spec.candidates| == 2 && spec.candidates[0] != spec.candidates[1]
  {
  }

  lemma LastCandidates(rt: Runtime, spec: Spec, times: seq<int>, moments: seq<Moment>)
    requires |times| == |moments| > 0
    ensures var n := |times| - 1;
            Reference(rt, spec, times, moments).state.candidates ==
            Advance(rt, spec.candidates, Observe(spec, moments[n].source, times[n]),
                    Reference(rt, spec, times[..n], moments[..n]).state.candidates)
  {
    hide Advance, Observe, BodyOf, Unsigned, EventHash, Signed, NewState;
  }

  lemma NextAccount(rt: Runtime, spec: Spec, id: string, times: seq<int>, moments: seq<Moment>, n: nat)
    requires 0 < n <= |times| == |moments|
    ensures var account := AccountAfter(rt, spec, id, times, moments, n - 1);
            var o := rt.evaluate(id, Observe(spec, moments[n - 1].source, times[n - 1]), account.ledger, account.stats);
            AccountAfter(rt, spec, id, times, moments, n) == Account(o.ledger, NextStats(rt, account.stats, o))
  {
    hide NextStats, Observe;
  }

  /** So the evaluation of a candle is the strategy's own on that account. */
  lemma OutcomeIs(rt: Runtime, spec: Spec, times: seq<int>, moments: seq<Moment>, id: string, n: nat)
    requires spec.Valid() && id in spec.candidates && n < |times| == |moments|
    ensures var before := Reference(rt, spec, times[..n], moments[..n]).state;
            OutcomeOf(rt, id, Observe(spec, moments[n].source, times[n]), before.candidates) ==
            Turnout(rt, spec, id, times, moments, n)
  {
    hide *;
    LogStores(rt, spec, times[..n], moments[..n], id);
    AccountOfPrefix(rt, spec, id, times, moments, n, n);
    AccountHasStats(rt, spec, id, times, moments, n);
    var before := Reference(rt, spec, times[..n], moments[..n]).state;
    var s := Observe(spec, moments[n].source, times[n]);
    NextStores(rt, id, s, before.candidates, AccountAfter(rt, spec, id, times, moments, n));
    TurnoutIs(rt, spec, id, times, moments, n);
  }

  lemma TurnoutIs(rt: Runtime, spec: Spec, id: string, times: seq<int>, moments: seq<Moment>, n: nat)
    requires n < |times| == |moments|
    ensures var account := AccountAfter(rt, spec, id, times, moments, n);
            Turnout(rt, spec, id, times, moments, n) ==
            rt.evaluate(id, Observe(spec, moments[n].source, times[n]), account.ledger, account.stats)
  {
    hide Observe, AccountAfter;
  }

  // ----- What an event says

  lemma LastEvent(rt: Runtime, spec: Spec, times: seq<int>, moments: seq<Moment>)
    requires |times| == |moments| > 0
    ensures var m := |times| - 1;
            var before := Reference(rt, spec, times[..m], moments[..m]);
            && |before.events| == m
            && Reference(rt, spec, times, moments).events ==
               before.events + [StepOf(rt, spec)(before.state, times[m], moments[m]).event]
  {
    hide StepOf, NewState;
  }

  /** Event `n` of a log. */
  lemma {:induction false} EventAt(rt: Runtime, spec: Spec, times: seq<int>, moments: seq<Moment>, n: nat)
    requires n < |times| == |moments|
    ensures |Reference(rt, spec, times, moments).events| == |times|
    ensures Reference(rt, spec, times, moments).events[n] ==
            StepOf(rt, spec)(Reference(rt, spec, times[..n], moments[..n]).state, times[n], moments[n]).event
    decreases |times|
  {
    hide *;
    var m := |times| - 1;
    LastEvent(rt, spec, times, moments);
    if n < m {
      EventAt(rt, spec, times[..m], moments[..m], n);
      assert times[..m][..n] == times[..n] && moments[..m][..n] == moments[..n];
    }
  }

  /** The parts of an event that the state does not hold: for each candidate the record of its
      evaluation with its new figures, the rows it was judged on, and where it belongs. */
  lemma EventFields(rt: Runtime, spec: Spec, s: Snapshot, state: State, clock: FloatText)
    ensures var e := Evaluate(rt, spec, s, state, clock).event;
            && Get(e, "candidates") == Some(Obj(Records(rt, spec.candidates, s, state)))
            && Get(e, "market_snapshot") == Some(SnapshotJson(spec, s))
            && Get(e, "snapshot_id") == Some(Str(spec.symbol + ":" + spec.timeframe + ":" + IntText(s.timestamp)))
            && Get(e, "snapshot_sha256") == Some(Str(rt.digest(Encode(SnapshotJson(spec, s)))))
            && Get(e, "evaluated_at") == Some(Float(clock))
            && Get(e, "event") == Some(Str("closed_candle_evaluated"))
  {
    hide Unsigned, Signed, EventHash, Records, SnapshotJson, EventTail, Get, Encode, NextState;
    var next := NextState(rt, spec, s, state);
    var body := BodyOf(rt, spec, s, state, clock);
    var unsigned := Unsigned(spec.identity, body, state.lastHash, next);
    EventLengths();
    SignedFields(rt.digest, unsigned, "candidates");
    SignedFields(rt.digest, unsigned, "market_snapshot");
    SignedFields(rt.digest, unsigned, "snapshot_id");
    SignedFields(rt.digest, unsigned, "snapshot_sha256");
    SignedFields(rt.digest, unsigned, "evaluated_at");
    SignedFields(rt.digest, unsigned, "event");
    UnsignedGet(spec.identity, body, state.lastHash, next, "candidates");
    UnsignedGet(spec.identity, body, state.lastHash, next, "market_snapshot");
    UnsignedGet(spec.identity, body, state.lastHash, next, "snapshot_id");
    UnsignedGet(spec.identity, body, state.lastHash, next, "snapshot_sha256");
    UnsignedGet(spec.identity, body, state.lastHash, next, "evaluated_at");
    UnsignedGet(spec.identity, body, state.lastHash, next, "event");
    TailGet(spec.identity, body, next, "snapshot_id");
    TailGet(spec.identity, body, next, "snapshot_sha256");
  }

  lemma EventLengths()
    ensures |"candidates"| == 10 && |"market_snapshot"| == 15 && |"snapshot_id"| == 11 && |"snapshot_sha256"| == 15
    ensures |"evaluated_at"| == 12 && |"event"| == 5 && |"event_sha256"| == 12 && |"prev_event_sha256"| == 17
    ensures "market_snapshot"[0] == 'm' && "snapshot_sha256"[0] == 's' && "evaluated_at"[3] == 'l'
    ensures "event_sha256"[3] == 'n' && |"run_id"| == 6 && |"schema_version"| == 14
    ensures |"spec_hash"| == 9 && |"state"| == 5
    ensures "event"[0] == 'e' && "state"[0] == 's'
  {
  }

  lemma {:induction false} RecordsGet(rt: Runtime, ids: seq<string>, s: Snapshot, state: State, id: string)
    requires id in ids
    ensures Get(Records(rt, ids, s, state), id) == Some(RecordOf(rt, id, s, state))
    decreases |ids|
  {
    hide RecordOf, Put, Get;
    PutGet(Records(rt, ids[1..], s, state), ids[0], RecordOf(rt, ids[0], s, state), id);
    if id != ids[0] {
      RecordsGet(rt, ids[1..], s, state, id);
    }
  }

  /** What an event says of a candidate: its own evaluation on its own account, with the figures
      after it, the first candle of the log and this one. */
  lemma EventTells(rt: Runtime, spec: Spec, times: seq<int>, moments: seq<Moment>, id: string, n: nat)
    requires spec.Valid() && id in spec.candidates && n < |times| == |moments|
    requires forall i :: 0 <= i < |times| ==> times[i] != 0
    ensures |Reference(rt, spec, times, moments).events| == |times|
    ensures var e := Reference(rt, spec, times, moments).events[n];
            var s := Observe(spec, moments[n].source, times[n]);
            && Get(FieldsOf(Get(e, "candidates")), id) ==
               Some(rt.record(Turnout(rt, spec, id, times, moments, n),
                              AccountAfter(rt, spec, id, times, moments, n + 1).stats, times[0], times[n]))
            && Get(e, "market_snapshot") == Some(SnapshotJson(spec, s))
            && Get(e, "snapshot_id") == Some(Str(spec.symbol + ":" + spec.timeframe + ":" + IntText(times[n])))
            && Get(e, "snapshot_sha256") == Some(Str(rt.digest(Encode(SnapshotJson(spec, s)))))
            && Get(e, "evaluated_at") == Some(Float(moments[n].clock))
            && Get(e, "event") == Some(Str("closed_candle_evaluated"))
  {
    hide *;
    EventAt(rt, spec, times, moments, n);
    var before := Reference(rt, spec, times[..n], moments[..n]).state;
    var s := Observe(spec, moments[n].source, times[n]);
    StepEvaluates(rt, spec, before, times[n], moments[n]);
    EventFields(rt, spec, s, before, moments[n].clock);
    RecordsGet(rt, spec.candidates, s, before, id);
    OutcomeIs(rt, spec, times, moments, id, n);
    FiguresBefore(rt, spec, times, moments, id, n);
    NextAccount(rt, spec, id, times, moments, n + 1);
    TurnoutIs(rt, spec, id, times, moments, n);
    ReferenceFirst(rt, spec, times[..n], moments[..n]);
    RecordIs(rt, id, s, before);
    TheFields(Records(rt, spec.candidates, s, before));
  }

  lemma TheFields(members: Dict)
    ensures FieldsOf(Some(Obj(members))) == members
  {
  }

  lemma StepEvaluates(rt: Runtime, spec: Spec, state: State, t: int, moment: Moment)
    ensures var s := Observe(spec, moment.source, t);
            s.timestamp == t && StepOf(rt, spec)(state, t, moment) == Evaluate(rt, spec, s, state, moment.clock)
  {
    hide Evaluate, History, RegimeHistory;
  }

  lemma FiguresBefore(rt: Runtime, spec: Spec, times: seq<int>, moments: seq<Moment>, id: string, n: nat)
    requires spec.Valid() && id in spec.candidates && n < |times| == |moments|
    ensures StatsOf(rt, FieldsOf(Get(Reference(rt, spec, times[..n], moments[..n]).state.candidates, id))) ==
            AccountAfter(rt, spec, id, times, moments, n).stats
  {
    hide *;
    LogStores(rt, spec, times[..n], moments[..n], id);
    AccountOfPrefix(rt, spec, id, times, moments, n, n);
    AccountHasStats(rt, spec, id, times, moments, n);
    StoredParts(rt, Reference(rt, spec, times[..n], moments[..n]).state.candidates, id,
                AccountAfter(rt, spec, id, times, moments, n));
  }

  lemma RecordIs(rt: Runtime, id: string, s: Snapshot, state: State)
    ensures var o := OutcomeOf(rt, id, s, state.candidates);
            RecordOf(rt, id, s, state) ==
            rt.record(o, NextStats(rt, StatsOf(rt, FieldsOf(Get(state.candidates, id))), o),
                      if state.firstTimestamp == 0 then s.timestamp else state.firstTimestamp, s.timestamp)
  {
    hide OutcomeOf, NextStats, StatsOf;
  }
}
