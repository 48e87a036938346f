/** The browser OAuth transaction (src-web/src/oauth.rs): two lock-protected maps, a
    time to live, one-time acceptance and status polling. */
module OAuthFlow {
  import opened Basics
  import opened Sequences

  const PENDING_TTL := 300
  const OUTCOME_RETENTION := 600

  /** A state token, as bytes. */
  type Key = seq<bv8>

  datatype Pending = Pending(secret: Key, createdAt: int)

  datatype Status = Processing(at: int) | Outcome(result: string, at: int)

  // ---------------------------------------------------------------- comparing tokens

  function FoldDifference(left: Key, right: Key, difference: bv8): (r: bv8)
    requires |left| == |right|
    ensures r == 0 <==> difference == 0 && left == right
    decreases |left|
  {
    if left == [] then difference
    else
      assert left == [left[0]] + left[1..] && right == [right[0]] + right[1..];
      OrXorZero(difference, left[0], right[0]);
      FoldDifference(left[1..], right[1..], difference | (left[0] ^ right[0]))
  }

  lemma OrXorZero(d: bv8, a: bv8, b: bv8)
    ensures d | (a ^ b) == 0 <==> d == 0 && a == b
  {
  }

  /** The comparison that does not stop at the first difference is equality. */
  function ConstantTimeEq(left: Key, right: Key): (r: bool)
    ensures r <==> left == right
  {
    |left| == |right| && FoldDifference(left, right, 0) == 0
  }

  // ---------------------------------------------------------------- lock sections

  type PendingMap = map<Key, Pending>
  type StatusMap = map<Key, Status>

  predicate Fresh(p: Pending, now: int) { p.createdAt + PENDING_TTL > now }

  predicate Retained(s: Status, now: int) { s.Processing? || s.at + OUTCOME_RETENTION > now }

  function PrunePending(pending: PendingMap, now: int): PendingMap {
    map k | k in pending && Fresh(pending[k], now) :: pending[k]
  }

  function PruneStatuses(statuses: StatusMap, now: int): StatusMap {
    map k | k in statuses && Retained(statuses[k], now) :: statuses[k]
  }

  datatype Reply = IsPending | IsProcessing | HasOutcome(result: string) | IsExpired

  /** A poll under the pending lock: an answer, or nothing yet. */
  function PollPendingSection(pending: PendingMap, key: Key, cancel: bool, now: int): (PendingMap, Option<Reply>) {
    if key !in pending then (pending, None)
    else if Fresh(pending[key], now) then
      if cancel then (pending - {key}, Some(IsExpired)) else (pending, Some(IsPending))
    else (pending - {key}, None)
  }

  function StatusReply(s: Status): Reply {
    if s.Processing? then IsProcessing else HasOutcome(s.result)
  }

  /** A poll under the status lock. */
  function PollStatusSection(statuses: StatusMap, key: Key, now: int): (StatusMap, Reply) {
    var kept := PruneStatuses(statuses, now);
    (kept, if key in kept then StatusReply(kept[key]) else IsExpired)
  }

  datatype Taken = UnknownState | ExpiredState | AcceptedState

  /** A callback under the pending lock: the entry is removed before it is judged. */
  function TakeSection(pending: PendingMap, key: Key, now: int): (PendingMap, Taken) {
    if key !in pending then (pending, UnknownState)
    else if pending[key].createdAt + PENDING_TTL <= now || !ConstantTimeEq(key, pending[key].secret)
    then (pending - {key}, ExpiredState)
    else (pending - {key}, AcceptedState)
  }

  function InsertSection(pending: PendingMap, key: Key, now: int): PendingMap {
    PrunePending(pending, now)[key := Pending(key, now)]
  }

  /** The server's two maps, changed by the handlers' lock sections. */
  class OAuthState {
    var oauthPending: PendingMap
    var oauthFlowStatus: StatusMap

    constructor ()
      ensures oauthPending == map[] && oauthFlowStatus == map[]
    {
      oauthPending, oauthFlowStatus := map[], map[];
    }

    method SetFlowStatus(key: Key, status: Status)
      modifies this`oauthFlowStatus
      ensures oauthFlowStatus == old(oauthFlowStatus)[key := status]
    {
      oauthFlowStatus := oauthFlowStatus[key := status];
    }

    /** Start a flow under a fresh token; nothing else happens in between. */
    method StartFlow(key: Key, now: int)
      modifies this
      ensures oauthFlowStatus == PruneStatuses(old(oauthFlowStatus), now)
      ensures oauthPending == InsertSection(old(oauthPending), key, now)
    {
      oauthFlowStatus := PruneStatuses(oauthFlowStatus, now);
      oauthPending := PrunePending(oauthPending, now);
      oauthPending := oauthPending[key := Pending(key, now)];
    }

    /** The part of a callback under the pending lock; an accepted flow is marked
        processing before the lock is released. */
    method TakeCallback(key: Key, now: int, markedAt: int) returns (taken: Taken)
      modifies this
      ensures (oauthPending, taken) == TakeSection(old(oauthPending), key, now)
      ensures oauthFlowStatus == if taken.AcceptedState? then old(oauthFlowStatus)[key := Processing(markedAt)]
                                 else old(oauthFlowStatus)
    {
      if key !in oauthPending {
        return UnknownState;
      }
      var pending := oauthPending[key];
      oauthPending := oauthPending - {key};
      if pending.createdAt + PENDING_TTL <= now || !ConstantTimeEq(key, pending.secret) {
        return ExpiredState;
      }
      SetFlowStatus(key, Processing(markedAt));
      return AcceptedState;
    }

    /** A poll nothing interrupts. */
    method CallbackStatus(key: Key, cancel: bool, now: int) returns (reply: Reply)
      modifies this
      ensures var section := PollPendingSection(old(oauthPending), key, cancel, now);
              && oauthPending == section.0
              && if section.1.Some? then reply == section.1.value && oauthFlowStatus == old(oauthFlowStatus)
                 else (oauthFlowStatus, reply) == PollStatusSection(old(oauthFlowStatus), key, now)
    {
      if key in oauthPending {
        if Fresh(oauthPending[key], now) {
          if cancel {
            oauthPending := oauthPending - {key};
            return IsExpired;
          }
          return IsPending;
        }
        oauthPending := oauthPending - {key};
      }
      oauthFlowStatus := PruneStatuses(oauthFlowStatus, now);
      if key in oauthFlowStatus {
        return StatusReply(oauthFlowStatus[key]);
      }
      return IsExpired;
    }
  }

  // ---------------------------------------------------------------- interleaved handlers

  datatype Poll =
    | Begun(key: Key, cancel: bool, now: int)
    | PastPending(key: Key, now: int, known: bool)

  /** A start between reading the clock and inserting its flow. */
  datatype Starting = Starting(key: Key, now: int)

  /** What has happened so far. `known` says that the flow had been started when the poll
      looked under the pending lock. */
  datatype LogEntry =
    | Accepted(key: Key, createdAt: int, at: int)
    | Answered(key: Key, known: bool, reply: Reply, at: int)

  datatype State = State(
    clock: int,
    pending: PendingMap,
    statuses: StatusMap,
    marking: Option<Key>,              // the callback that holds the pending lock
    running: set<Key>,                 // accepted flows without an outcome yet
    starting: map<nat, Starting>,
    polls: map<nat, Poll>,
    started: map<Key, int>,
    outcomes: map<Key, (string, int)>,
    log: seq<LogEntry>)

  datatype Event =
    | Tick(seconds: nat)
    | StartBegins(id: nat, key: Key)
    | StartPrunes(id: nat)
    | StartInserts(id: nat)
    | CallbackTakes(key: Key)
    | CallbackMarks
    | CallbackRecords(key: Key, result: string, at: int)
    | PollBegins(id: nat, key: Key, cancel: bool)
    | PollLooksPending(id: nat)
    | PollLooksStatus(id: nat)

  function Initial(clock: int): State {
    State(clock, map[], map[], None, {}, map[], map[], map[], map[], [])
  }

  /** A new random token has never been used. */
  predicate FreshKey(s: State, key: Key) {
    key !in s.started && forall i :: i in s.starting ==> s.starting[i].key != key
  }

  /** Events that cannot happen in a state (a lock is held, no such handler) change nothing. */
  function Step(s: State, e: Event): State {
    match e
    case Tick(seconds) => s.(clock := s.clock + seconds)
    case StartBegins(i, key) =>
      if i in s.starting || !FreshKey(s, key) then s
      else s.(starting := s.starting[i := Starting(key, s.clock)])
    case StartPrunes(i) =>
      if i in s.starting then s.(statuses := PruneStatuses(s.statuses, s.starting[i].now)) else s
    case StartInserts(i) =>
      if i in s.starting && s.marking.None? then
        var key, now := s.starting[i].key, s.starting[i].now;
        s.(pending := InsertSection(s.pending, key, now), started := s.started[key := now],
           starting := s.starting - {i})
      else s
    case CallbackTakes(key) =>
      if s.marking.Some? then s
      else
        var (pending, taken) := TakeSection(s.pending, key, s.clock);
        if taken.AcceptedState? then
          s.(pending := pending, marking := Some(key),
             log := s.log + [Accepted(key, s.pending[key].createdAt, s.clock)])
        else s.(pending := pending)
    case CallbackMarks =>
      if s.marking.Some? then
        s.(statuses := s.statuses[s.marking.value := Processing(s.clock)],
           running := s.running + {s.marking.value}, marking := None)
      else s
    case CallbackRecords(key, result, at) =>
      if key in s.running && at <= s.clock then
        s.(statuses := s.statuses[key := Outcome(result, at)], running := s.running - {key},
           outcomes := s.outcomes[key := (result, at)])
      else s
    case PollBegins(i, key, cancel) =>
      if i in s.polls then s
      else s.(polls := s.polls[i := Begun(key, cancel, s.clock)])
    case PollLooksPending(i) =>
      if i in s.polls && s.polls[i].Begun? && s.marking.None? then
        var p := s.polls[i];
        var (pending, answer) := PollPendingSection(s.pending, p.key, p.cancel, p.now);
        if answer.Some? then
          s.(pending := pending, polls := s.polls - {i},
             log := s.log + [Answered(p.key, p.key in s.started, answer.value, s.clock)])
        else s.(pending := pending, polls := s.polls[i := PastPending(p.key, p.now, p.key in s.started)])
      else s
    case PollLooksStatus(i) =>
      if i in s.polls && s.polls[i].PastPending? then
        var p := s.polls[i];
        var (statuses, reply) := PollStatusSection(s.statuses, p.key, p.now);
        s.(statuses := statuses, polls := s.polls - {i},
           log := s.log + [Answered(p.key, p.known, reply, s.clock)])
      else s
  }

  function Run(s: State, events: seq<Event>): State {
    if events == [] then s else Step(Run(s, events[..|events| - 1]), events[|events| - 1])
  }

  // ---------------------------------------------------------------- what holds of one key

  /** How far a started flow has come: 1 pending, 2 processing, 3 outcome, 4 gone. */
  ghost function Rank(s: State, key: Key): nat {
    if key in s.pending then 1
    else if s.marking == Some(key) then 2
    else if key in s.statuses then (if s.statuses[key].Processing? then 2 else 3)
    else 4
  }

  ghost function ReplyRank(r: Reply): nat {
    match r case IsPending => 1 case IsProcessing => 2 case HasOutcome(_) => 3 case IsExpired => 4
  }

  ghost function EntryRank(e: LogEntry): nat {
    match e case Accepted(_, _, _) => 2 case Answered(_, _, reply, _) => ReplyRank(reply)
  }

  ghost predicate Counts(e: LogEntry) { e.Accepted? || e.known }

  /** The consistency of everything the state says about one key. */
  ghost predicate KeyOk(s: State, key: Key) {
    && (key in s.pending ==>
          && key in s.started && s.pending[key] == Pending(key, s.started[key])
          && key !in s.statuses && s.marking != Some(key) && key !in s.running && key !in s.outcomes)
    && (s.marking == Some(key) ==>
          key in s.started && key !in s.statuses && key !in s.running && key !in s.outcomes)
    && (key in s.running ==> key in s.started && key !in s.outcomes
                             && key in s.statuses && s.statuses[key].Processing?)
    && (key in s.outcomes ==>
          && key in s.started
          && (key in s.statuses ==> s.statuses[key] == Outcome(s.outcomes[key].0, s.outcomes[key].1))
          && (s.clock < s.outcomes[key].1 + OUTCOME_RETENTION ==> key in s.statuses))
    && (key in s.statuses ==> key in s.running || key in s.outcomes)
  }

  ghost predicate StartOk(s: State, i: nat) {
    i in s.starting ==>
      && s.starting[i].now <= s.clock && s.starting[i].key !in s.started
      && forall j :: j in s.starting && s.starting[j].key == s.starting[i].key ==> j == i
  }

  ghost predicate PollOk(s: State, i: nat) {
    i in s.polls ==>
      && s.polls[i].now <= s.clock
      && (s.polls[i].PastPending? && s.polls[i].known ==>
            s.polls[i].key in s.started && s.polls[i].key !in s.pending && s.marking != Some(s.polls[i].key))
  }

  /** The callback of the key has been accepted. */
  ghost predicate WasAccepted(s: State, key: Key) {
    s.marking == Some(key) || key in s.running || key in s.outcomes
  }

  ghost predicate EntryOk(s: State, e: LogEntry) {
    Counts(e) ==>
      && e.key in s.started && EntryRank(e) <= Rank(s, e.key) && e.at <= s.clock
      && (e.Accepted? ==> WasAccepted(s, e.key) && e.createdAt == s.started[e.key] && e.at < e.createdAt + PENDING_TTL)
      && (e.Answered? && e.reply.HasOutcome? ==> e.key in s.outcomes && s.outcomes[e.key].0 == e.reply.result)
      && (e.Answered? && e.reply.IsExpired? && WasAccepted(s, e.key) ==>
            e.key in s.outcomes && s.outcomes[e.key].1 + OUTCOME_RETENTION <= e.at)
  }

  /** Two events of one flow, in this order. */
  ghost predicate Ordered(a: LogEntry, b: LogEntry) {
    Counts(a) && Counts(b) && a.key == b.key ==>
      && EntryRank(a) <= EntryRank(b)
      && (b.Accepted? ==> EntryRank(a) <= 1)
      && (a.Answered? && b.Answered? && a.reply.HasOutcome? && b.reply.HasOutcome? ==> a.reply == b.reply)
  }

  ghost predicate LogOk(s: State) {
    && (forall i :: 0 <= i < |s.log| ==> EntryOk(s, s.log[i]))
    && (forall i, j :: 0 <= i < j < |s.log| ==> Ordered(s.log[i], s.log[j]))
  }

  ghost predicate Inv(s: State) {
    && (forall key :: KeyOk(s, key))
    && (forall i :: StartOk(s, i))
    && (forall i :: PollOk(s, i))
    && LogOk(s)
  }

  // ---------------------------------------------------------------- every step keeps it

  /** What the handler behind an event may rely on. */
  ghost predicate HandlerOk(s: State, e: Event) {
    match e
    case StartPrunes(i) => StartOk(s, i)
    case StartInserts(i) => StartOk(s, i)
    case PollLooksPending(i) => PollOk(s, i)
    case PollLooksStatus(i) => PollOk(s, i)
    case _ => true
  }

  /** A step only moves a flow forward. */
  ghost predicate Forward(s: State, r: State, key: Key) {
    && s.clock <= r.clock
    && (key in s.started ==> key in r.started && r.started[key] == s.started[key] && Rank(s, key) <= Rank(r, key))
    && (key in s.outcomes ==> key in r.outcomes && r.outcomes[key] == s.outcomes[key])
    && (WasAccepted(s, key) ==> WasAccepted(r, key))
    && (key in s.started && WasAccepted(r, key) && !WasAccepted(s, key) ==> Rank(s, key) == 1)
  }

  lemma PollKeepsKey(s: State, e: Event, key: Key)
    requires KeyOk(s, key) && HandlerOk(s, e) && (e.PollLooksPending? || e.PollLooksStatus?)
    ensures KeyOk(Step(s, e), key) && Forward(s, Step(s, e), key)
  {
  }

  lemma CallbackKeepsKey(s: State, e: Event, key: Key)
    requires KeyOk(s, key) && (e.CallbackMarks? || e.CallbackRecords?)
    ensures KeyOk(Step(s, e), key) && Forward(s, Step(s, e), key)
  {
  }

  lemma TakeKeepsKey(s: State, taken: Key, key: Key)
    requires KeyOk(s, key)
    ensures KeyOk(Step(s, CallbackTakes(taken)), key) && Forward(s, Step(s, CallbackTakes(taken)), key)
  {
  }

  lemma StartKeepsKey(s: State, e: Event, key: Key)
    requires KeyOk(s, key) && HandlerOk(s, e) && (e.StartBegins? || e.StartPrunes? || e.StartInserts?)
    ensures KeyOk(Step(s, e), key) && Forward(s, Step(s, e), key)
  {
  }

  lemma StepKeepsKey(s: State, e: Event, key: Key)
    requires KeyOk(s, key) && HandlerOk(s, e)
    ensures KeyOk(Step(s, e), key) && Forward(s, Step(s, e), key)
  {
    match e {
      case PollLooksPending(_) => PollKeepsKey(s, e, key);
      case PollLooksStatus(_) => PollKeepsKey(s, e, key);
      case CallbackTakes(taken) => TakeKeepsKey(s, taken, key);
      case CallbackMarks => CallbackKeepsKey(s, e, key);
      case CallbackRecords(_, _, _) => CallbackKeepsKey(s, e, key);
      case StartBegins(_, _) => StartKeepsKey(s, e, key);
      case StartPrunes(_) => StartKeepsKey(s, e, key);
      case StartInserts(_) => StartKeepsKey(s, e, key);
      case Tick(_) =>
      case PollBegins(_, _, _) =>
    }
  }

  lemma InsertKeepsStart(s: State, j: nat, i: nat)
    requires StartOk(s, i) && StartOk(s, j)
    ensures StartOk(Step(s, StartInserts(j)), i)
  {
  }

  lemma StepKeepsStart(s: State, e: Event, i: nat)
    requires forall j :: StartOk(s, j)
    ensures StartOk(Step(s, e), i)
  {
    assert StartOk(s, i);
    match e {
      case StartInserts(j) => InsertKeepsStart(s, j, i);
      case _ =>
    }
  }

  lemma StepKeepsPoll(s: State, e: Event, i: nat)
    requires PollOk(s, i) && HandlerOk(s, e)
    requires i in s.polls ==> KeyOk(s, s.polls[i].key)
    ensures PollOk(Step(s, e), i)
  {
  }

  lemma StepKeepsEntry(s: State, r: State, entry: LogEntry)
    requires EntryOk(s, entry) && Forward(s, r, entry.key)
    ensures EntryOk(r, entry)
  {
  }

  /** What one step adds to the log. */
  ghost predicate Adds(s: State, r: State) {
    r.log == s.log
    || (|r.log| == |s.log| + 1 && r.log[..|s.log|] == s.log && NewEntryOk(s, r, r.log[|s.log|]))
  }

  ghost predicate NewEntryOk(s: State, r: State, entry: LogEntry) {
    EntryOk(r, entry) && (Counts(entry) ==> Rank(s, entry.key) <= EntryRank(entry))
    && (entry.Accepted? ==> Rank(s, entry.key) == 1)
  }

  lemma TakeAdds(s: State, key: Key)
    requires KeyOk(s, key)
    ensures Adds(s, Step(s, CallbackTakes(key)))
  {
  }

  lemma PollPendingAdds(s: State, i: nat)
    requires PollOk(s, i) && (i in s.polls ==> KeyOk(s, s.polls[i].key))
    ensures Adds(s, Step(s, PollLooksPending(i)))
  {
  }

  lemma PollStatusAdds(s: State, i: nat)
    requires PollOk(s, i) && (i in s.polls ==> KeyOk(s, s.polls[i].key))
    ensures Adds(s, Step(s, PollLooksStatus(i)))
  {
  }

  lemma StepAdds(s: State, e: Event)
    requires Inv(s)
    ensures Adds(s, Step(s, e))
  {
    match e {
      case CallbackTakes(key) => TakeAdds(s, key);
      case PollLooksPending(i) => PollPendingAdds(s, i);
      case PollLooksStatus(i) => PollStatusAdds(s, i);
      case _ =>
    }
  }

  lemma NewEntryOrdered(s: State, r: State, earlier: LogEntry, entry: LogEntry)
    requires EntryOk(s, earlier) && Forward(s, r, earlier.key) && NewEntryOk(s, r, entry)
    ensures Ordered(earlier, entry)
  {
  }

  lemma StepKeepsLog(s: State, r: State)
    requires LogOk(s) && Adds(s, r)
    requires forall key :: Forward(s, r, key)
    ensures LogOk(r)
  {
    forall i | 0 <= i < |r.log| ensures EntryOk(r, r.log[i]) {
      if i < |s.log| {
        assert r.log[i] == s.log[i];
        StepKeepsEntry(s, r, s.log[i]);
      }
    }
    forall i, j | 0 <= i < j < |r.log| ensures Ordered(r.log[i], r.log[j]) {
      assert r.log[i] == s.log[i];
      if j < |s.log| {
        assert r.log[j] == s.log[j];
      } else {
        NewEntryOrdered(s, r, s.log[i], r.log[j]);
      }
    }
  }

  lemma StepKeepsInv(s: State, e: Event)
    requires Inv(s)
    ensures Inv(Step(s, e))
  {
    var r := Step(s, e);
    assert HandlerOk(s, e);
    forall key ensures KeyOk(r, key) && Forward(s, r, key) {
      assert KeyOk(s, key);
      StepKeepsKey(s, e, key);
    }
    forall i ensures StartOk(r, i) && PollOk(r, i) {
      StepKeepsStart(s, e, i);
      assert PollOk(s, i);
      StepKeepsPoll(s, e, i);
    }
    StepAdds(s, e);
    StepKeepsLog(s, r);
  }

  lemma {:induction false} InvInEveryRun(clock: int, events: seq<Event>)
    ensures Inv(Run(Initial(clock), events))
  {
    if events == [] {
    } else {
      InvInEveryRun(clock, events[..|events| - 1]);
      StepKeepsInv(Run(Initial(clock), events[..|events| - 1]), events[|events| - 1]);
    }
  }

  // ---------------------------------------------------------------- main results

  /** The log of a run. */
  function History(clock: int, events: seq<Event>): seq<LogEntry> {
    Run(Initial(clock), events).log
  }

  /** Poll answers for one flow only move forward: pending, then processing, then one
      outcome, then expired. */
  lemma StatusOnlyMovesForward(clock: int, events: seq<Event>, i: nat, j: nat)
    requires i < j < |History(clock, events)|
    requires History(clock, events)[i].Answered? && History(clock, events)[i].known
    requires History(clock, events)[j].Answered? && History(clock, events)[j].known
    requires History(clock, events)[i].key == History(clock, events)[j].key
    ensures var before, after := History(clock, events)[i].reply, History(clock, events)[j].reply;
            match before
            case IsPending => true
            case IsProcessing => !after.IsPending?
            case HasOutcome(_) => after == before || after.IsExpired?
            case IsExpired => after.IsExpired?
  {
    InvInEveryRun(clock, events);
    assert Ordered(History(clock, events)[i], History(clock, events)[j]);
  }

  /** A callback is accepted at most once, within the time to live, and only while every
      earlier answer about the flow was pending. */
  lemma AcceptedOnceInTime(clock: int, events: seq<Event>, j: nat)
    requires j < |History(clock, events)| && History(clock, events)[j].Accepted?
    ensures var log := History(clock, events);
            && log[j].at < log[j].createdAt + PENDING_TTL
            && log[j].key in Run(Initial(clock), events).started
            && log[j].createdAt == Run(Initial(clock), events).started[log[j].key]
            && forall i :: 0 <= i < j && log[i].key == log[j].key ==>
                 log[i].Answered? && (log[i].known ==> log[i].reply.IsPending?)
  {
    InvInEveryRun(clock, events);
    var log := History(clock, events);
    assert EntryOk(Run(Initial(clock), events), log[j]);
    forall i | 0 <= i < j && log[i].key == log[j].key
      ensures log[i].Answered? && (log[i].known ==> log[i].reply.IsPending?)
    {
      assert Ordered(log[i], log[j]);
    }
  }

  /** After an acceptance a poll answers processing or the recorded outcome; expired only
      when the outcome has been recorded at least the retention time ago. */
  lemma AnswersAfterAcceptance(clock: int, events: seq<Event>, i: nat, j: nat)
    requires i < j < |History(clock, events)|
    requires History(clock, events)[i].Accepted?
    requires History(clock, events)[j].Answered? && History(clock, events)[j].known
    requires History(clock, events)[i].key == History(clock, events)[j].key
    ensures var s, answer := Run(Initial(clock), events), History(clock, events)[j];
            match answer.reply
            case IsPending => false
            case IsProcessing => true
            case HasOutcome(result) => answer.key in s.outcomes && s.outcomes[answer.key].0 == result
            case IsExpired => answer.key in s.outcomes && s.outcomes[answer.key].1 + OUTCOME_RETENTION <= answer.at
  {
    InvInEveryRun(clock, events);
    var s := Run(Initial(clock), events);
    assert Ordered(s.log[i], s.log[j]) && EntryOk(s, s.log[i]) && EntryOk(s, s.log[j]);
  }

  // ---------------------------------------------------------------- what is accepted and answered

  /** The flow was started less than its time to live before `now`. */
  ghost predicate InTime(s: State, key: Key, now: int) {
    key in s.started && now < s.started[key] + PENDING_TTL
  }

  /** In every run: a callback that gets the pending lock is accepted if and only if its flow
      is pending and its time to live has not passed. The flow is gone from the pending ones
      either way, and no other flow is touched. */
  lemma AcceptedIff(clock: int, events: seq<Event>, key: Key)
    requires Run(Initial(clock), events).marking.None?
    ensures var s := Run(Initial(clock), events);
            var r := Step(s, CallbackTakes(key));
            && r.pending == s.pending - {key}
            && if key in s.pending && InTime(s, key, s.clock)
               then r.log == s.log + [Accepted(key, s.started[key], s.clock)] && r.marking == Some(key)
               else r.log == s.log && r.marking == None
  {
    InvInEveryRun(clock, events);
    assert KeyOk(Run(Initial(clock), events), key);
  }

  /** A callback for the key, or a cancelling poll of it, gets the pending lock. */
  ghost predicate Takes(s: State, e: Event, key: Key) {
    s.marking.None? &&
    match e
    case CallbackTakes(k) => k == key
    case PollLooksPending(i) => i in s.polls && s.polls[i].Begun? && s.polls[i].key == key && s.polls[i].cancel
    case _ => false
  }

  ghost predicate Untaken(s: State, events: seq<Event>, key: Key) {
    events != [] ==>
      && Untaken(s, events[..|events| - 1], key)
      && !Takes(Run(s, events[..|events| - 1]), events[|events| - 1], key)
  }

  lemma InsertKeepsPending(s: State, i: nat, key: Key)
    requires KeyOk(s, key) && StartOk(s, i) && InTime(s, key, s.clock)
    ensures key in Step(s, StartInserts(i)).pending <==> key in s.pending
  {
  }

  lemma PollKeepsPending(s: State, i: nat, key: Key)
    requires KeyOk(s, key) && PollOk(s, i) && InTime(s, key, s.clock)
    ensures key in Step(s, PollLooksPending(i)).pending
            <==> key in s.pending && !Takes(s, PollLooksPending(i), key)
  {
  }

  lemma StepKeepsPending(s: State, e: Event, key: Key)
    requires KeyOk(s, key) && HandlerOk(s, e) && InTime(s, key, Step(s, e).clock)
    ensures key in Step(s, e).pending <==> key in s.pending && !Takes(s, e, key)
  {
    match e {
      case StartInserts(i) => InsertKeepsPending(s, i, key);
      case PollLooksPending(i) => PollKeepsPending(s, i, key);
      case CallbackTakes(taken) => TakeKeepsPending(s, taken, key);
      case _ =>
    }
  }

  lemma TakeKeepsPending(s: State, taken: Key, key: Key)
    ensures key in Step(s, CallbackTakes(taken)).pending
            <==> key in s.pending && !Takes(s, CallbackTakes(taken), key)
  {
  }

  /** Over any run, until its time to live has passed: a pending flow stays pending, whatever
      other flows are started, polled or called back, if and only if neither a callback nor a
      cancelling poll takes it. */
  lemma {:induction false} StaysPendingIff(s: State, events: seq<Event>, key: Key)
    requires Inv(s) && key in s.pending && InTime(s, key, Run(s, events).clock)
    ensures Inv(Run(s, events))
    ensures key in Run(s, events).started && Run(s, events).started[key] == s.started[key]
    ensures key in Run(s, events).pending <==> Untaken(s, events, key)
  {
    if events == [] {
      assert KeyOk(s, key);
    } else {
      var before, e := Run(s, events[..|events| - 1]), events[|events| - 1];
      ClockGrows(before, e);
      StaysPendingIff(s, events[..|events| - 1], key);
      StepKeepsInv(before, e);
      assert KeyOk(before, key) && HandlerOk(before, e);
      StepKeepsKey(before, e, key);
      StepKeepsPending(before, e, key);
    }
  }

  lemma ClockGrows(s: State, e: Event)
    ensures s.clock <= Step(s, e).clock
  {
  }

  lemma StartedIsPending(s: State, i: nat)
    requires Inv(s) && i in s.starting && s.marking.None?
    ensures var key, r := s.starting[i].key, Step(s, StartInserts(i));
            key in r.pending && key in r.started && r.started[key] == s.starting[i].now
  {
  }

  /** Main result on acceptance: in every run, a flow that is called back before its time to
      live has passed is accepted if and only if nothing took it since it was started. */
  lemma StartedFlowAcceptedIff(clock: int, events: seq<Event>, i: nat, later: seq<Event>)
    requires var s := Run(Initial(clock), events);
             && i in s.starting && s.marking.None?
             && Run(Step(s, StartInserts(i)), later).marking.None?
             && Run(Step(s, StartInserts(i)), later).clock < s.starting[i].now + PENDING_TTL
    ensures var s := Run(Initial(clock), events);
            var key, begun := s.starting[i].key, Step(s, StartInserts(i));
            var r := Run(begun, later);
            Step(r, CallbackTakes(key)).log == r.log + [Accepted(key, s.starting[i].now, r.clock)]
            <==> Untaken(begun, later, key)
  {
    var s := Run(Initial(clock), events);
    var key, begun := s.starting[i].key, Step(s, StartInserts(i));
    InvInEveryRun(clock, events);
    StartedIsPending(s, i);
    StepKeepsInv(s, StartInserts(i));
    StaysPendingIff(begun, later, key);
    assert KeyOk(Run(begun, later), key);
    TakenIff(Run(begun, later), key);
  }

  lemma TakenIff(s: State, key: Key)
    requires KeyOk(s, key) && s.marking.None? && InTime(s, key, s.clock)
    ensures Step(s, CallbackTakes(key)).log == s.log + [Accepted(key, s.started[key], s.clock)] <==> key in s.pending
  {
  }

  /** In every run: a poll is answered under the pending lock if and only if its flow is
      pending and was within its time to live when the poll began. A plain poll answers
      pending and leaves the flow; a cancelling one answers expired and removes it. */
  lemma PendingAnswerIff(clock: int, events: seq<Event>, i: nat)
    requires var s := Run(Initial(clock), events); i in s.polls && s.polls[i].Begun? && s.marking.None?
    ensures var s := Run(Initial(clock), events);
            var p, r := s.polls[i], Step(s, PollLooksPending(i));
            if p.key in s.pending && InTime(s, p.key, p.now) then
              && r.log == s.log + [Answered(p.key, true, if p.cancel then IsExpired else IsPending, s.clock)]
              && r.pending == if p.cancel then s.pending - {p.key} else s.pending
            else
              r.log == s.log && i in r.polls && r.polls[i].PastPending? && r.pending == s.pending - {p.key}
  {
    InvInEveryRun(clock, events);
    assert KeyOk(Run(Initial(clock), events), Run(Initial(clock), events).polls[i].key);
  }

  /** In every run: past the pending lock a poll answers processing exactly while the flow's
      callback is running, and the recorded outcome until it has been kept for its time. */
  lemma StatusAnswerIff(clock: int, events: seq<Event>, i: nat)
    requires var s := Run(Initial(clock), events); i in s.polls && s.polls[i].PastPending?
    ensures var s := Run(Initial(clock), events);
            var p, r := s.polls[i], Step(s, PollLooksStatus(i));
            |r.log| == |s.log| + 1 && r.log[..|s.log|] == s.log &&
            var reply := r.log[|s.log|].reply;
            && r.log[|s.log|] == Answered(p.key, p.known, reply, s.clock)
            && (reply.IsProcessing? <==> p.key in s.running)
            && (p.key in s.outcomes && s.clock < s.outcomes[p.key].1 + OUTCOME_RETENTION ==>
                  reply == HasOutcome(s.outcomes[p.key].0))
            && (reply.HasOutcome? ==> p.key in s.outcomes && reply.result == s.outcomes[p.key].0
                                      && p.now < s.outcomes[p.key].1 + OUTCOME_RETENTION)
            && !reply.IsPending?
  {
    InvInEveryRun(clock, events);
    var s := Run(Initial(clock), events);
    assert KeyOk(s, s.polls[i].key) && PollOk(s, i);
  }

  /** In every run: an accepted callback is processing as soon as it marks its flow, and its
      outcome is what it records. */
  lemma CallbackGoesOn(clock: int, events: seq<Event>, key: Key, result: string, at: int)
    ensures var s := Run(Initial(clock), events);
            var marked, recorded := Step(s, CallbackMarks), Step(s, CallbackRecords(key, result, at));
            && marked.marking == None
            && (s.marking == Some(key) ==> key in marked.running && marked.statuses[key] == Processing(s.clock))
            && (key in s.running && at <= s.clock ==>
                  && key !in recorded.running && recorded.outcomes == s.outcomes[key := (result, at)]
                  && recorded.statuses[key] == Outcome(result, at))
  {
  }

  /** A start removes the flows whose time to live has passed, and only those. */
  lemma StartPrunesStale(clock: int, events: seq<Event>, i: nat)
    requires var s := Run(Initial(clock), events); i in s.starting && s.marking.None?
    ensures var s := Run(Initial(clock), events);
            var r := Step(s, StartInserts(i));
            forall k :: k in r.pending <==>
              k == s.starting[i].key || (k in s.pending && InTime(s, k, s.starting[i].now))
  {
    InvInEveryRun(clock, events);
    var s := Run(Initial(clock), events);
    forall k ensures k in Step(s, StartInserts(i)).pending <==>
                       k == s.starting[i].key || (k in s.pending && InTime(s, k, s.starting[i].now))
    {
      assert KeyOk(s, k);
    }
  }

  // ---------------------------------------------------------------- a poll ahead of its flow

  lemma RunSnoc(s: State, events: seq<Event>, e: Event)
    ensures Run(s, events + [e]) == Step(Run(s, events), e)
  {
    assert (events + [e])[..|events|] == events;
  }

  function EarlyPoll(key: Key): seq<Event> {
    [StartBegins(0, key), PollBegins(1, key, false), PollLooksPending(1), StartInserts(0), PollLooksStatus(1)]
  }

  /** Why only answers to polls that knew the flow count: a poll that has passed the pending
      lock before its flow was inserted answers expired, and the flow is accepted after it. */
  lemma EarlyPollExpiresFirst(clock: int, key: Key)
    ensures History(clock, EarlyPoll(key) + [CallbackTakes(key)])
            == [Answered(key, false, IsExpired, clock), Accepted(key, clock, clock)]
  {
    EarlyPollAnswered(clock, key);
    RunSnoc(Initial(clock), EarlyPoll(key), CallbackTakes(key));
  }

  /** A world with one start and one poll. */
  function Early(clock: int, starting: map<nat, Starting>, polls: map<nat, Poll>): State {
    State(clock, map[], map[], None, {}, starting, polls, map[], map[], [])
  }

  lemma EarlyPollLooks(clock: int, key: Key)
    ensures var s := Early(clock, map[0 := Starting(key, clock)], map[1 := Begun(key, false, clock)]);
            && Step(Step(Initial(clock), StartBegins(0, key)), PollBegins(1, key, false)) == s
            && Step(s, PollLooksPending(1))
               == Early(clock, map[0 := Starting(key, clock)], map[1 := PastPending(key, clock, false)])
  {
  }

  lemma EarlyPollAnswers(clock: int, key: Key)
    ensures var s := Early(clock, map[0 := Starting(key, clock)], map[1 := PastPending(key, clock, false)]);
            var r := Step(Step(s, StartInserts(0)), PollLooksStatus(1));
            && r.clock == clock && r.pending == map[key := Pending(key, clock)] && r.marking == None
            && r.log == [Answered(key, false, IsExpired, clock)]
  {
    var s := Early(clock, map[0 := Starting(key, clock)], map[1 := PastPending(key, clock, false)]);
    var r := Step(s, StartInserts(0));
    assert PrunePending(map[], clock) == map[] && PruneStatuses(map[], clock) == map[];
    assert r.pending == map[key := Pending(key, clock)] && r.polls == s.polls && r.statuses == map[] && r.log == [];
  }

  lemma EarlyPollAnswered(clock: int, key: Key)
    ensures var s := Run(Initial(clock), EarlyPoll(key));
            && s.clock == clock && s.pending == map[key := Pending(key, clock)] && s.marking == None
            && s.log == [Answered(key, false, IsExpired, clock)]
  {
    var s, all := Initial(clock), EarlyPoll(key);
    EarlyPollLooks(clock, key);
    EarlyPollAnswers(clock, key);
    assert [] + [all[0]] == all[..1] && all[..1] + [all[1]] == all[..2] && all[..2] + [all[2]] == all[..3];
    assert all[..3] + [all[3]] == all[..4] && all[..4] + [all[4]] == all;
    RunSnoc(s, [], all[0]);
    RunSnoc(s, all[..1], all[1]);
    RunSnoc(s, all[..2], all[2]);
    RunSnoc(s, all[..3], all[3]);
    RunSnoc(s, all[..4], all[4]);
  }
}
