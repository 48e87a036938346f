/** The draft autosave workers of the compose window (src/hooks/useComposeDraft.ts).

    Each account has a queue of length one and at most one asynchronous save loop. The
    loop is cut at its awaits: an event is the code that runs from one await to the next.
    A queued draft is identified by its version, the position of its queueing. */
module DraftAutosave {
  import opened Basics
  import opened Sequences

  const MAX_AUTOSAVE_RETRIES := 3

  /** Where a save loop waits, with the draft it is working on and its failure counter. */
  datatype Stage =
    | Saving(version: nat, failures: nat)
    | Waiting(version: nat, failures: nat)
    | Waking(version: nat, failures: nat, shouldRetry: bool)

  datatype Worker = Worker(account: string, stage: Stage)

  datatype LogEntry =
    | Queued(account: string, version: nat)
    | Started(account: string, version: nat, existing: Option<string>)
    | Succeeded(account: string, version: nat, draftId: string)
    | Failed(account: string, version: nat)
    | WorkerEnded(account: string)
    | CancelCalled
    | CancelResolved(ids: map<string, string>)

  datatype State = State(
    queued: map<string, nat>,
    workerOf: map<string, nat>,        // the promise kept for each account
    cancelDelayOf: map<string, nat>,   // the retry delay that can be cut short
    workers: map<nat, Worker>,         // save loops that have not ended
    draftIds: map<string, string>,
    cancelled: bool,
    cancels: map<nat, set<nat>>,       // cancel calls and the promises they await
    nextVersion: nat,
    nextWorker: nat,
    log: seq<LogEntry>)

  datatype Event =
    | Queue(account: string)
    | SaveSucceeds(worker: nat, draftId: string)
    | SaveFails(worker: nat)
    | DelayElapses(worker: nat)
    | Wakes(worker: nat)
    | Cancel(call: nat)
    | CancelResolves(call: nat)

  function Initial(): State {
    State(map[], map[], map[], map[], map[], false, map[], 0, 0, [])
  }

  function Note(s: State, e: LogEntry): State { s.(log := s.log + [e]) }

  function Lookup<K, V>(m: map<K, V>, key: K): Option<V> {
    if key in m then Some(m[key]) else None
  }

  /** An empty id counts as no id. */
  function ExistingId(id: Option<string>): Option<string> {
    if id == Some("") then None else id
  }

  /** The head of the loop body: the draft leaves the queue and its save starts. */
  function BeginSave(s: State, w: nat, account: string, version: nat, failures: nat): State {
    Note(s.(queued := s.queued - {account},
            workers := s.workers[w := Worker(account, Saving(version, failures))]),
         Started(account, version, ExistingId(Lookup(s.draftIds, account))))
  }

  /** Called with nothing queued, the loop would end at once and its promise stay behind. */
  function StartWorker(s: State, account: string): State {
    if s.cancelled || account in s.workerOf then s
    else
      var w := s.nextWorker;
      var placed := s.(nextWorker := w + 1, workerOf := s.workerOf[account := w]);
      if account in s.queued then BeginSave(placed, w, account, s.queued[account], 0) else placed
  }

  /** The `finally` block. */
  function EndWorker(s: State, w: nat, account: string): State {
    var ended := Note(s.(workers := s.workers - {w}, workerOf := s.workerOf - {account}), WorkerEnded(account));
    if account in s.queued then StartWorker(ended, account) else ended
  }

  /** The loop condition. */
  function Continue(s: State, w: nat, account: string, next: Option<nat>, failures: nat): State {
    if next.Some? && !s.cancelled then BeginSave(s, w, account, next.value, failures)
    else EndWorker(s, w, account)
  }

  function AfterSuccess(s: State, w: nat, account: string, version: nat, draftId: string): State {
    var saved := Note(s.(draftIds := s.draftIds[account := draftId]), Succeeded(account, version, draftId));
    Continue(saved, w, account, Lookup(s.queued, account), 0)
  }

  function AfterFailure(s: State, w: nat, account: string, version: nat, failures: nat): State {
    var failed := Note(s, Failed(account, version));
    if account in s.queued then Continue(failed, w, account, Some(s.queued[account]), 0)
    else if s.cancelled || failures > MAX_AUTOSAVE_RETRIES then EndWorker(failed, w, account)
    else
      failed.(queued := s.queued[account := version],
              workers := s.workers[w := Worker(account, Waiting(version, failures))],
              cancelDelayOf := s.cancelDelayOf[account := w])
  }

  function AfterDelay(s: State, w: nat, account: string, version: nat, failures: nat, shouldRetry: bool): State {
    if !shouldRetry || s.cancelled then EndWorker(s, w, account)
    else
      var next := Lookup(s.queued, account);
      Continue(s, w, account, next, if next.Some? && next.value != version then 0 else failures)
  }

  /** The first call for a delay settles it; later ones do nothing. */
  function Settle(worker: Worker, shouldRetry: bool): Worker {
    if worker.stage.Waiting?
    then worker.(stage := Waking(worker.stage.version, worker.stage.failures, shouldRetry))
    else worker
  }

  /** Every delay that can be cut short is. */
  function CancelDelays(workers: map<nat, Worker>, cancelDelayOf: map<string, nat>): map<nat, Worker> {
    map w | w in workers ::
      if workers[w].account in cancelDelayOf && cancelDelayOf[workers[w].account] == w
      then Settle(workers[w], false) else workers[w]
  }

  /** Events that cannot happen in a state change nothing. */
  function Step(s: State, e: Event): State {
    match e
    case Queue(account) =>
      if s.cancelled then s
      else
        StartWorker(Note(s.(queued := s.queued[account := s.nextVersion], nextVersion := s.nextVersion + 1),
                         Queued(account, s.nextVersion)), account)
    case SaveSucceeds(w, draftId) =>
      if w in s.workers && s.workers[w].stage.Saving?
      then AfterSuccess(s, w, s.workers[w].account, s.workers[w].stage.version, draftId) else s
    case SaveFails(w) =>
      if w in s.workers && s.workers[w].stage.Saving?
      then AfterFailure(s, w, s.workers[w].account, s.workers[w].stage.version, s.workers[w].stage.failures + 1) else s
    case DelayElapses(w) =>
      if w in s.workers && s.workers[w].stage.Waiting?
      then s.(workers := s.workers[w := Settle(s.workers[w], true)],
              cancelDelayOf := s.cancelDelayOf - {s.workers[w].account}) else s
    case Wakes(w) =>
      if w in s.workers && s.workers[w].stage.Waking?
      then AfterDelay(s, w, s.workers[w].account, s.workers[w].stage.version, s.workers[w].stage.failures,
                      s.workers[w].stage.shouldRetry) else s
    case Cancel(c) =>
      if c in s.cancels then s
      else
        Note(s.(cancelled := true, queued := map[], workers := CancelDelays(s.workers, s.cancelDelayOf),
                cancelDelayOf := map[], cancels := s.cancels[c := s.workerOf.Values]),
             CancelCalled)
    case CancelResolves(c) =>
      if c in s.cancels && s.cancels[c] !! s.workers.Keys
      then Note(s.(draftIds := map[], cancels := s.cancels - {c}), CancelResolved(s.draftIds)) else s
  }

  function Run(s: State, events: seq<Event>): State {
    if events == [] then s else Step(Run(s, events[..|events| - 1]), events[|events| - 1])
  }

  // ---------------------------------------------------------------- reading the log

  /** What a log says about one account. */
  datatype Summary = Summary(
    inFlight: bool,
    lastQueued: Option<nat>,
    lastStarted: Option<nat>,
    tries: map<nat, nat>,
    failures: map<nat, nat>,
    saved: set<nat>,
    lastId: Option<string>)

  function Count(m: map<nat, nat>, version: nat): nat { if version in m then m[version] else 0 }

  function Observe(k: Summary, account: string, e: LogEntry): Summary {
    if e.CancelCalled? || e.CancelResolved? || e.account != account then k
    else
      match e
      case Queued(_, v) => k.(lastQueued := Some(v))
      case Started(_, v, _) =>
        k.(inFlight := true, lastStarted := Some(v), tries := k.tries[v := Count(k.tries, v) + 1])
      case Succeeded(_, v, draftId) => k.(inFlight := false, saved := k.saved + {v}, lastId := Some(draftId))
      case Failed(_, v) => k.(inFlight := false, failures := k.failures[v := Count(k.failures, v) + 1])
      case _ => k
  }

  function Summarize(log: seq<LogEntry>, account: string): Summary {
    if log == [] then Summary(false, None, None, map[], map[], {}, None)
    else Observe(Summarize(log[..|log| - 1], account), account, log[|log| - 1])
  }

  lemma SummarizeSnoc(log: seq<LogEntry>, e: LogEntry, account: string)
    ensures Summarize(log + [e], account) == Observe(Summarize(log, account), account, e)
  {
    assert (log + [e])[..|log|] == log;
  }

  /** The last queued draft was saved, or its save failed as often as it is tried. */
  ghost predicate Settled(k: Summary) {
    k.lastQueued.Some? ==>
      k.lastQueued.value in k.saved || Count(k.failures, k.lastQueued.value) == MAX_AUTOSAVE_RETRIES + 1
  }

  ghost predicate ResolvedBefore(log: seq<LogEntry>) {
    exists i :: 0 <= i < |log| && log[i].CancelResolved?
  }

  /** The ids are the last saved id of each account. */
  ghost predicate IdsAre(ids: map<string, string>, log: seq<LogEntry>) {
    forall a :: Lookup(ids, a) == Summarize(log, a).lastId
  }

  /** What an entry promises about the log before it. */
  ghost predicate EntryOk(before: seq<LogEntry>, e: LogEntry) {
    match e
    case Started(a, v, existing) =>
      var k := Summarize(before, a);
      && !k.inFlight && CancelCalled !in before
      && (k.lastStarted.Some? ==> k.lastStarted.value <= v)
      && v !in k.saved && Count(k.tries, v) == Count(k.failures, v) <= MAX_AUTOSAVE_RETRIES
      && existing == ExistingId(k.lastId)
    case Succeeded(a, v, _) => Summarize(before, a).inFlight && Summarize(before, a).lastStarted == Some(v)
    case Failed(a, v) => Summarize(before, a).inFlight && Summarize(before, a).lastStarted == Some(v)
    case WorkerEnded(a) =>
      !Summarize(before, a).inFlight && (CancelCalled !in before ==> Settled(Summarize(before, a)))
    case CancelResolved(ids) =>
      && CancelCalled in before
      && (forall a :: !Summarize(before, a).inFlight)
      && (!ResolvedBefore(before) ==> IdsAre(ids, before))
    case _ => true
  }

  ghost predicate LogOk(log: seq<LogEntry>) {
    forall i :: 0 <= i < |log| ==> EntryOk(log[..i], log[i])
  }

  lemma LogOkSnoc(log: seq<LogEntry>, e: LogEntry)
    requires LogOk(log) && EntryOk(log, e)
    ensures LogOk(log + [e])
  {
    var all := log + [e];
    forall i | 0 <= i < |all| ensures EntryOk(all[..i], all[i]) {
      if i < |log| {
        assert all[..i] == log[..i];
      } else {
        assert all[..i] == log;
      }
    }
  }

  // ---------------------------------------------------------------- the invariant

  /** Counters only speak of versions up to the last started one. */
  ghost predicate SummaryOk(k: Summary) {
    && (forall v: nat :: Count(k.tries, v) > 0 || Count(k.failures, v) > 0 || v in k.saved ==>
          k.lastStarted.Some? && v <= k.lastStarted.value)
    && (k.lastStarted.Some? ==> k.lastQueued.Some? && k.lastStarted.value <= k.lastQueued.value)
  }

  ghost predicate QueueOk(s: State, a: string) {
    var k := Summarize(s.log, a);
    && SummaryOk(k)
    && (k.lastQueued.Some? ==> k.lastQueued.value < s.nextVersion)
    && (a in s.queued ==> k.lastQueued == Some(s.queued[a]))
  }

  /** A save loop is the promise kept for its account. */
  ghost predicate WorkerOk(s: State, w: nat) {
    w in s.workers ==>
      && w < s.nextWorker
      && s.workers[w].account in s.workerOf && s.workerOf[s.workers[w].account] == w
      && (forall c :: c in s.cancels ==> w in s.cancels[c])
  }

  /** The current draft of a loop that is not saving: some tries of it failed, no other. */
  ghost predicate Retrying(k: Summary, version: nat, failures: nat) {
    && !k.inFlight && k.lastStarted == Some(version) && version !in k.saved
    && Count(k.failures, version) == Count(k.tries, version) == failures
    && 1 <= failures <= MAX_AUTOSAVE_RETRIES
  }

  ghost predicate StageOk(s: State, w: nat, a: string, stage: Stage) {
    var k := Summarize(s.log, a);
    match stage
    case Saving(v, f) =>
      && k.inFlight && k.lastStarted == Some(v) && v !in k.saved
      && Count(k.failures, v) == f && Count(k.tries, v) == f + 1 && f <= MAX_AUTOSAVE_RETRIES
      && (a in s.queued ==> v < s.queued[a])
      && (a !in s.queued && !s.cancelled ==> k.lastQueued == Some(v))
    case Waiting(v, f) =>
      && Retrying(k, v, f) && !s.cancelled && a in s.queued
      && a in s.cancelDelayOf && s.cancelDelayOf[a] == w
    case Waking(v, f, shouldRetry) =>
      Retrying(k, v, f) && (!s.cancelled ==> shouldRetry && a in s.queued)
  }

  ghost predicate AccountOk(s: State, a: string) {
    if a in s.workerOf then
      var w := s.workerOf[a];
      w in s.workers && s.workers[w].account == a && StageOk(s, w, a, s.workers[w].stage)
    else
      var k := Summarize(s.log, a);
      !k.inFlight && a !in s.queued && (!s.cancelled ==> Settled(k))
  }

  ghost predicate CancelOk(s: State) {
    && (s.cancelled <==> CancelCalled in s.log)
    && (s.cancelled ==> s.queued == map[])
    && (forall c :: c in s.cancels ==> s.cancelled)
  }

  ghost predicate IdsOk(s: State) {
    (ResolvedBefore(s.log) ==> s.cancelled) && (!ResolvedBefore(s.log) ==> IdsAre(s.draftIds, s.log))
  }

  /** Everything but what is said of one account's loop. */
  ghost predicate Base(s: State) {
    && CancelOk(s) && IdsOk(s) && LogOk(s.log)
    && (forall a :: QueueOk(s, a))
    && (forall w :: WorkerOk(s, w))
  }

  ghost predicate Inv(s: State) {
    Base(s) && forall a :: AccountOk(s, a)
  }

  /** The invariant while the loop of one account runs. */
  ghost predicate Mid(s: State, account: string, w: nat) {
    && Base(s) && (forall a :: a != account ==> AccountOk(s, a))
    && account in s.workerOf && s.workerOf[account] == w && w < s.nextWorker
    && (w in s.workers ==> s.workers[w].account == account)
    && (forall c :: c in s.cancels ==> w in s.cancels[c])
    && !Summarize(s.log, account).inFlight
  }

  // ---------------------------------------------------------------- pieces of a step

  lemma NoteKeepsIds(s: State, e: LogEntry)
    requires IdsOk(s) && !e.Succeeded? && !e.CancelResolved?
    ensures IdsOk(Note(s, e))
  {
    var log := s.log + [e];
    assert ResolvedBefore(log) ==> ResolvedBefore(s.log) by {
      assert forall i :: 0 <= i < |s.log| ==> log[i] == s.log[i];
    }
    assert ResolvedBefore(s.log) ==> ResolvedBefore(log) by {
      assert forall i :: 0 <= i < |s.log| ==> log[i] == s.log[i];
    }
    forall a ensures Summarize(log, a).lastId == Summarize(s.log, a).lastId { SummarizeSnoc(s.log, e, a); }
  }

  lemma ObserveKeepsSummary(k: Summary, a: string, e: LogEntry)
    requires SummaryOk(k)
    requires e.Started? ==> k.lastQueued.Some? && e.version <= k.lastQueued.value
                            && (k.lastStarted.Some? ==> k.lastStarted.value <= e.version)
    requires e.Succeeded? || e.Failed? ==> k.lastStarted == Some(e.version)
    requires e.Queued? && k.lastQueued.Some? ==> k.lastQueued.value <= e.version
    ensures SummaryOk(Observe(k, a, e))
  {
  }

  /** The two states say the same about an account and its loop. */
  ghost predicate Agree(s: State, r: State, a: string) {
    && (a in s.queued <==> a in r.queued) && (a in s.queued ==> r.queued[a] == s.queued[a])
    && (a in s.workerOf <==> a in r.workerOf)
    && (a in s.workerOf ==> r.workerOf[a] == s.workerOf[a]
                            && (s.workerOf[a] in s.workers <==> s.workerOf[a] in r.workers)
                            && (s.workerOf[a] in s.workers ==> r.workers[s.workerOf[a]] == s.workers[s.workerOf[a]]))
    && (a in s.cancelDelayOf ==> a in r.cancelDelayOf && r.cancelDelayOf[a] == s.cancelDelayOf[a])
    && r.cancelled == s.cancelled && r.nextVersion >= s.nextVersion
  }

  lemma AgreeKeeps(s: State, r: State, e: LogEntry, a: string)
    requires AccountOk(s, a) && QueueOk(s, a) && Agree(s, r, a) && r.log == s.log + [e]
    requires Observe(Summarize(s.log, a), a, e) == Summarize(s.log, a)
    ensures AccountOk(r, a) && QueueOk(r, a)
  {
    SummarizeSnoc(s.log, e, a);
  }

  lemma BeginSaveAccount(s: State, r: State, w: nat, account: string, version: nat, failures: nat)
    requires r == BeginSave(s, w, account, version, failures) && account in s.workerOf && s.workerOf[account] == w
    requires QueueOk(s, account) && !s.cancelled && account in s.queued && version == s.queued[account]
    requires var k := Summarize(s.log, account);
             version !in k.saved && Count(k.failures, version) == Count(k.tries, version) == failures
    requires failures <= MAX_AUTOSAVE_RETRIES
    ensures AccountOk(r, account) && QueueOk(r, account)
  {
    var e := Started(account, version, ExistingId(Lookup(s.draftIds, account)));
    SummarizeSnoc(s.log, e, account);
    ObserveKeepsSummary(Summarize(s.log, account), account, e);
    assert StageOk(r, w, account, Saving(version, failures));
  }

  lemma BeginSaveKeeps(s: State, w: nat, account: string, version: nat, failures: nat)
    requires Mid(s, account, w) && !s.cancelled && account in s.queued && version == s.queued[account]
    requires var k := Summarize(s.log, account);
             version !in k.saved && Count(k.failures, version) == Count(k.tries, version) == failures
    requires failures <= MAX_AUTOSAVE_RETRIES
    ensures Inv(BeginSave(s, w, account, version, failures))
  {
    var r := BeginSave(s, w, account, version, failures);
    var e := Started(account, version, ExistingId(Lookup(s.draftIds, account)));
    assert QueueOk(s, account);
    BeginSaveAccount(s, r, w, account, version, failures);
    assert EntryOk(s.log, e);
    LogOkSnoc(s.log, e);
    NoteKeepsIds(s, e);
    forall a ensures QueueOk(r, a) && AccountOk(r, a) {
      if a != account {
        assert QueueOk(s, a) && AccountOk(s, a);
        AgreeKeeps(s, r, e, a);
      }
    }
    forall x ensures WorkerOk(r, x) { assert WorkerOk(s, x); }
  }

  lemma EndWorkerKeeps(s: State, w: nat, account: string)
    requires Mid(s, account, w) && account !in s.queued
    requires !s.cancelled ==> Settled(Summarize(s.log, account))
    ensures Inv(EndWorker(s, w, account))
  {
    var e := WorkerEnded(account);
    var r := Note(s.(workers := s.workers - {w}, workerOf := s.workerOf - {account}), e);
    assert r == EndWorker(s, w, account);
    EndedKeeps(s, r, w, account);
  }

  lemma EndedKeeps(s: State, r: State, w: nat, account: string)
    requires Mid(s, account, w) && account !in s.queued
    requires !s.cancelled ==> Settled(Summarize(s.log, account))
    requires r == Note(s.(workers := s.workers - {w}, workerOf := s.workerOf - {account}), WorkerEnded(account))
    ensures Inv(r)
  {
    var e := WorkerEnded(account);
    LogOkSnoc(s.log, e);
    NoteKeepsIds(s, e);
    forall a ensures QueueOk(r, a) && AccountOk(r, a) { EndedAccount(s, r, w, account, a); }
    forall x ensures WorkerOk(r, x) { assert WorkerOk(s, x); }
  }

  lemma EndedAccount(s: State, r: State, w: nat, account: string, a: string)
    requires Mid(s, account, w) && account !in s.queued
    requires !s.cancelled ==> Settled(Summarize(s.log, account))
    requires r == Note(s.(workers := s.workers - {w}, workerOf := s.workerOf - {account}), WorkerEnded(account))
    ensures QueueOk(r, a) && AccountOk(r, a)
  {
    assert QueueOk(s, a);
    if a == account {
      SummarizeSnoc(s.log, WorkerEnded(account), a);
    } else {
      assert AccountOk(s, a);
      AgreeKeeps(s, r, WorkerEnded(account), a);
    }
  }

  lemma ContinueKeeps(s: State, w: nat, account: string, next: Option<nat>, failures: nat)
    requires Mid(s, account, w) && next == Lookup(s.queued, account)
    requires next.Some? ==>
               var k := Summarize(s.log, account);
               next.value !in k.saved && Count(k.failures, next.value) == Count(k.tries, next.value) == failures
    requires failures <= MAX_AUTOSAVE_RETRIES
    requires next.None? && !s.cancelled ==> Settled(Summarize(s.log, account))
    ensures Inv(Continue(s, w, account, next, failures))
  {
    if next.Some? && !s.cancelled {
      BeginSaveKeeps(s, w, account, next.value, failures);
    } else {
      EndWorkerKeeps(s, w, account);
    }
  }

  /** After an entry about one account, the others are as before. */
  lemma NoteKeepsOthers(s: State, r: State, e: LogEntry, account: string)
    requires (forall a :: QueueOk(s, a)) && forall a :: AccountOk(s, a)
    requires forall a :: a != account ==> Agree(s, r, a)
    requires r.log == s.log + [e] && !e.CancelCalled? && !e.CancelResolved? && e.account == account
    ensures forall a :: a != account ==> AccountOk(r, a) && QueueOk(r, a)
  {
    forall a | a != account ensures AccountOk(r, a) && QueueOk(r, a) {
      assert QueueOk(s, a) && AccountOk(s, a);
      AgreeKeeps(s, r, e, a);
    }
  }

  /** The state after a success is noted, with the loop still running. */
  lemma SuccessNoted(s: State, saved: State, w: nat, e: LogEntry)
    requires Inv(s) && w in s.workers && s.workers[w].stage.Saving?
    requires e.Succeeded? && e.account == s.workers[w].account && e.version == s.workers[w].stage.version
    requires saved == Note(s.(draftIds := s.draftIds[e.account := e.draftId]), e)
    ensures Mid(saved, e.account, w)
    ensures Summarize(saved.log, e.account) == Observe(Summarize(s.log, e.account), e.account, e)
  {
    assert WorkerOk(s, w) && AccountOk(s, e.account) && QueueOk(s, e.account);
    SummarizeSnoc(s.log, e, e.account);
    LogOkSnoc(s.log, e);
    SuccessKeepsIds(s, saved, e);
    NoteKeepsOthers(s, saved, e, e.account);
    ObserveKeepsSummary(Summarize(s.log, e.account), e.account, e);
    assert QueueOk(saved, e.account);
    forall x ensures WorkerOk(saved, x) { assert WorkerOk(s, x); }
  }

  lemma SuccessKeeps(s: State, w: nat, draftId: string)
    requires Inv(s) && w in s.workers && s.workers[w].stage.Saving?
    ensures Inv(Step(s, SaveSucceeds(w, draftId)))
  {
    var account, version := s.workers[w].account, s.workers[w].stage.version;
    assert WorkerOk(s, w) && AccountOk(s, account) && QueueOk(s, account);
    var e := Succeeded(account, version, draftId);
    var saved := Note(s.(draftIds := s.draftIds[account := draftId]), e);
    SuccessNoted(s, saved, w, e);
    ContinueKeeps(saved, w, account, Lookup(s.queued, account), 0);
  }

  lemma SuccessKeepsIds(s: State, r: State, e: LogEntry)
    requires IdsOk(s) && e.Succeeded? && r == Note(s.(draftIds := s.draftIds[e.account := e.draftId]), e)
    ensures IdsOk(r)
  {
    assert ResolvedBefore(r.log) <==> ResolvedBefore(s.log) by {
      assert forall i :: 0 <= i < |s.log| ==> r.log[i] == s.log[i];
    }
    forall a ensures !ResolvedBefore(r.log) ==> Lookup(r.draftIds, a) == Summarize(r.log, a).lastId {
      SummarizeSnoc(s.log, e, a);
    }
  }

  /** The state after a failure is noted, with the loop still running. */
  lemma FailureNoted(s: State, failed: State, w: nat)
    requires Inv(s) && w in s.workers && s.workers[w].stage.Saving?
    requires failed == Note(s, Failed(s.workers[w].account, s.workers[w].stage.version))
    ensures Mid(failed, s.workers[w].account, w)
    ensures Summarize(failed.log, s.workers[w].account)
            == Observe(Summarize(s.log, s.workers[w].account), s.workers[w].account,
                       Failed(s.workers[w].account, s.workers[w].stage.version))
  {
    var account, version := s.workers[w].account, s.workers[w].stage.version;
    assert WorkerOk(s, w) && AccountOk(s, account) && QueueOk(s, account);
    var e := Failed(account, version);
    SummarizeSnoc(s.log, e, account);
    LogOkSnoc(s.log, e);
    NoteKeepsIds(s, e);
    NoteKeepsOthers(s, failed, e, account);
    assert QueueOk(failed, account);
    forall x ensures WorkerOk(failed, x) { assert WorkerOk(s, x); }
  }

  lemma FailureKeeps(s: State, w: nat)
    requires Inv(s) && w in s.workers && s.workers[w].stage.Saving?
    ensures Inv(Step(s, SaveFails(w)))
  {
    var account, version, failures :=
      s.workers[w].account, s.workers[w].stage.version, s.workers[w].stage.failures + 1;
    var failed := Note(s, Failed(account, version));
    assert WorkerOk(s, w) && AccountOk(s, account) && QueueOk(s, account);
    FailureNoted(s, failed, w);
    if account in s.queued {
      ContinueKeeps(failed, w, account, Some(s.queued[account]), 0);
    } else if s.cancelled || failures > MAX_AUTOSAVE_RETRIES {
      EndWorkerKeeps(failed, w, account);
    } else {
      WaitingKeeps(failed, w, account, version, failures);
    }
  }

  lemma WaitingKeeps(s: State, w: nat, account: string, version: nat, failures: nat)
    requires Mid(s, account, w) && !s.cancelled && w in s.workers
    requires Retrying(Summarize(s.log, account), version, failures)
    requires Summarize(s.log, account).lastQueued == Some(version)
    ensures Inv(s.(queued := s.queued[account := version],
                   workers := s.workers[w := Worker(account, Waiting(version, failures))],
                   cancelDelayOf := s.cancelDelayOf[account := w]))
  {
    var r := s.(queued := s.queued[account := version],
                workers := s.workers[w := Worker(account, Waiting(version, failures))],
                cancelDelayOf := s.cancelDelayOf[account := w]);
    forall a ensures QueueOk(r, a) && AccountOk(r, a) {
      assert QueueOk(s, a);
      if a != account { assert AccountOk(s, a); }
    }
    forall x ensures WorkerOk(r, x) { assert WorkerOk(s, x); }
  }

  /** No save of the account is in flight and its queued draft is new. */
  ghost predicate Idle(s: State, account: string) {
    var k := Summarize(s.log, account);
    account in s.queued && !k.inFlight && (k.lastStarted.Some? ==> k.lastStarted.value < s.queued[account])
  }

  lemma QueueNoted(s: State, noted: State, account: string)
    requires Inv(s) && !s.cancelled
    requires noted == Note(s.(queued := s.queued[account := s.nextVersion], nextVersion := s.nextVersion + 1),
                           Queued(account, s.nextVersion))
    ensures Base(noted) && forall a :: a != account ==> AccountOk(noted, a)
    ensures account in s.workerOf ==> AccountOk(noted, account)
    ensures account !in s.workerOf ==> Idle(noted, account)
  {
    var e := Queued(account, s.nextVersion);
    assert AccountOk(s, account) && QueueOk(s, account);
    SummarizeSnoc(s.log, e, account);
    LogOkSnoc(s.log, e);
    NoteKeepsIds(s, e);
    NoteKeepsOthers(s, noted, e, account);
    assert QueueOk(noted, account);
    forall x ensures WorkerOk(noted, x) { assert WorkerOk(s, x); }
  }

  lemma QueueKeeps(s: State, account: string)
    requires Inv(s)
    ensures Inv(Step(s, Queue(account)))
  {
    if !s.cancelled {
      var noted := Note(s.(queued := s.queued[account := s.nextVersion], nextVersion := s.nextVersion + 1),
                        Queued(account, s.nextVersion));
      QueueNoted(s, noted, account);
      assert Step(s, Queue(account)) == StartWorker(noted, account);
      if account in s.workerOf {
        assert StartWorker(noted, account) == noted;
      } else {
        FirstSaveKeeps(noted, account);
      }
    }
  }

  /** A version beyond the last started one has not been tried. */
  lemma NewVersion(k: Summary, version: nat)
    requires SummaryOk(k) && (k.lastStarted.Some? ==> k.lastStarted.value < version)
    ensures version !in k.saved && Count(k.tries, version) == Count(k.failures, version) == 0
  {
  }

  lemma PlacedKeeps(s: State, placed: State, account: string)
    requires Base(s) && account !in s.workerOf && forall a :: a != account ==> AccountOk(s, a)
    requires placed == s.(nextWorker := s.nextWorker + 1, workerOf := s.workerOf[account := s.nextWorker])
    requires !s.cancelled && !Summarize(s.log, account).inFlight
    ensures Mid(placed, account, s.nextWorker)
  {
    assert WorkerOk(s, s.nextWorker);
    forall x ensures WorkerOk(placed, x) { assert WorkerOk(s, x); }
    forall a ensures QueueOk(placed, a) { assert QueueOk(s, a); }
    forall a | a != account ensures AccountOk(placed, a) { assert AccountOk(s, a); }
  }

  lemma FirstSaveKeeps(s: State, account: string)
    requires Base(s) && !s.cancelled && account !in s.workerOf && Idle(s, account)
    requires forall a :: a != account ==> AccountOk(s, a)
    ensures Inv(StartWorker(s, account))
  {
    var w := s.nextWorker;
    var placed := s.(nextWorker := w + 1, workerOf := s.workerOf[account := w]);
    PlacedKeeps(s, placed, account);
    assert QueueOk(s, account);
    NewVersion(Summarize(s.log, account), s.queued[account]);
    assert StartWorker(s, account) == BeginSave(placed, w, account, s.queued[account], 0);
    BeginSaveKeeps(placed, w, account, s.queued[account], 0);
  }

  lemma DelayKeeps(s: State, w: nat)
    requires Inv(s) && w in s.workers && s.workers[w].stage.Waiting?
    ensures Inv(Step(s, DelayElapses(w)))
  {
    var r := Step(s, DelayElapses(w));
    var account := s.workers[w].account;
    assert WorkerOk(s, w) && AccountOk(s, account);
    forall a ensures QueueOk(r, a) && AccountOk(r, a) { assert QueueOk(s, a) && AccountOk(s, a); }
    forall x ensures WorkerOk(r, x) { assert WorkerOk(s, x); }
  }

  lemma WakeKeeps(s: State, w: nat)
    requires Inv(s) && w in s.workers && s.workers[w].stage.Waking?
    ensures Inv(Step(s, Wakes(w)))
  {
    var account, version, failures := s.workers[w].account, s.workers[w].stage.version, s.workers[w].stage.failures;
    assert WorkerOk(s, w) && AccountOk(s, account) && QueueOk(s, account);
    if !s.workers[w].stage.shouldRetry || s.cancelled {
      EndWorkerKeeps(s, w, account);
    } else {
      var next := s.queued[account];
      ContinueKeeps(s, w, account, Some(next), if next != version then 0 else failures);
    }
  }

  lemma CancelKeepsAccount(s: State, c: nat, a: string)
    requires Inv(s) && c !in s.cancels
    ensures QueueOk(Step(s, Cancel(c)), a) && AccountOk(Step(s, Cancel(c)), a)
  {
    assert QueueOk(s, a) && AccountOk(s, a);
    SummarizeSnoc(s.log, CancelCalled, a);
    if a in s.workerOf {
      assert Step(s, Cancel(c)).workers[s.workerOf[a]].account == a;
    }
  }

  lemma CancelKeepsWorker(s: State, c: nat, w: nat)
    requires Inv(s) && c !in s.cancels
    ensures WorkerOk(Step(s, Cancel(c)), w)
  {
    assert WorkerOk(s, w);
    if w in s.workers {
      assert s.workers[w].account in s.workerOf.Keys;
      assert w in s.workerOf.Values;
    }
  }

  lemma CancelKeeps(s: State, c: nat)
    requires Inv(s) && c !in s.cancels
    ensures Inv(Step(s, Cancel(c)))
  {
    var r := Step(s, Cancel(c));
    LogOkSnoc(s.log, CancelCalled);
    NoteKeepsIds(s, CancelCalled);
    forall a ensures QueueOk(r, a) && AccountOk(r, a) { CancelKeepsAccount(s, c, a); }
    forall x ensures WorkerOk(r, x) { CancelKeepsWorker(s, c, x); }
    assert CancelOk(r) && IdsOk(r);
  }

  lemma ResolveKeeps(s: State, c: nat)
    requires Inv(s) && c in s.cancels && s.cancels[c] !! s.workers.Keys
    ensures Inv(Step(s, CancelResolves(c)))
  {
    var r := Step(s, CancelResolves(c));
    var e := CancelResolved(s.draftIds);
    forall w ensures w !in s.workers { assert WorkerOk(s, w); }
    forall a ensures !Summarize(s.log, a).inFlight { assert AccountOk(s, a); }
    LogOkSnoc(s.log, e);
    assert r.log[|s.log|].CancelResolved?;
    forall a ensures QueueOk(r, a) && AccountOk(r, a) {
      assert QueueOk(s, a) && AccountOk(s, a);
      SummarizeSnoc(s.log, e, a);
    }
    forall x ensures WorkerOk(r, x) { assert WorkerOk(s, x); }
  }

  lemma StepKeepsInv(s: State, e: Event)
    requires Inv(s)
    ensures Inv(Step(s, e))
  {
    match e {
      case Queue(account) => QueueKeeps(s, account);
      case SaveSucceeds(w, draftId) =>
        if w in s.workers && s.workers[w].stage.Saving? { SuccessKeeps(s, w, draftId); }
      case SaveFails(w) =>
        if w in s.workers && s.workers[w].stage.Saving? { FailureKeeps(s, w); }
      case DelayElapses(w) =>
        if w in s.workers && s.workers[w].stage.Waiting? { DelayKeeps(s, w); }
      case Wakes(w) =>
        if w in s.workers && s.workers[w].stage.Waking? { WakeKeeps(s, w); }
      case Cancel(c) =>
        if c !in s.cancels { CancelKeeps(s, c); }
      case CancelResolves(c) =>
        if c in s.cancels && s.cancels[c] !! s.workers.Keys { ResolveKeeps(s, c); }
    }
  }

  lemma {:induction false} InvInEveryRun(events: seq<Event>)
    ensures Inv(Run(Initial(), events))
  {
    if events == [] {
      assert forall a :: QueueOk(Initial(), a) && AccountOk(Initial(), a);
    } else {
      InvInEveryRun(events[..|events| - 1]);
      StepKeepsInv(Run(Initial(), events[..|events| - 1]), events[|events| - 1]);
    }
  }

  // ---------------------------------------------------------------- main results

  function History(events: seq<Event>): seq<LogEntry> { Run(Initial(), events).log }

  predicate StartOf(e: LogEntry, a: string) { e.Started? && e.account == a }

  predicate SuccessOf(e: LogEntry, a: string) { e.Succeeded? && e.account == a }

  predicate QueueingOf(e: LogEntry, a: string) { e.Queued? && e.account == a }

  predicate FinishOf(e: LogEntry, a: string) { (e.Succeeded? || e.Failed?) && e.account == a }

  function TriesOf(log: seq<LogEntry>, a: string, v: nat): nat {
    if log == [] then 0
    else TriesOf(log[..|log| - 1], a, v)
         + if StartOf(log[|log| - 1], a) && log[|log| - 1].version == v then 1 else 0
  }

  function FailuresOf(log: seq<LogEntry>, a: string, v: nat): nat {
    if log == [] then 0
    else FailuresOf(log[..|log| - 1], a, v)
         + if log[|log| - 1].Failed? && log[|log| - 1].account == a && log[|log| - 1].version == v then 1 else 0
  }

  lemma {:induction false} CountsAreCounts(log: seq<LogEntry>, a: string, v: nat)
    ensures Count(Summarize(log, a).tries, v) == TriesOf(log, a, v)
    ensures Count(Summarize(log, a).failures, v) == FailuresOf(log, a, v)
    ensures v in Summarize(log, a).saved <==> exists i :: 0 <= i < |log| && SuccessOf(log[i], a) && log[i].version == v
  {
    if log == [] {
    } else {
      var n := |log| - 1;
      CountsAreCounts(log[..n], a, v);
      assert forall i :: 0 <= i < n ==> log[..n][i] == log[i];
      assert (exists i :: 0 <= i < |log| && SuccessOf(log[i], a) && log[i].version == v)
             <==> (exists i :: 0 <= i < n && SuccessOf(log[..n][i], a) && log[..n][i].version == v)
                  || (SuccessOf(log[n], a) && log[n].version == v);
    }
  }

  lemma {:induction false} InFlightSince(log: seq<LogEntry>, a: string, i: nat, n: nat)
    requires i < n <= |log| && StartOf(log[i], a)
    requires forall k :: i < k < n ==> !FinishOf(log[k], a)
    ensures Summarize(log[..n], a).inFlight
  {
    assert log[..n] == log[..n - 1] + [log[n - 1]];
    SummarizeSnoc(log[..n - 1], log[n - 1], a);
    if i < n - 1 { InFlightSince(log, a, i, n - 1); }
  }

  ghost predicate StartedFrom(k: Summary, version: nat) {
    k.lastStarted.Some? && version <= k.lastStarted.value
  }

  lemma StaysStarted(before: seq<LogEntry>, e: LogEntry, a: string, version: nat)
    requires EntryOk(before, e) && StartedFrom(Summarize(before, a), version)
    ensures StartedFrom(Summarize(before + [e], a), version)
  {
    SummarizeSnoc(before, e, a);
  }

  lemma {:induction false} StartedSince(log: seq<LogEntry>, a: string, i: nat, n: nat)
    requires LogOk(log) && i < n <= |log| && StartOf(log[i], a)
    ensures StartedFrom(Summarize(log[..n], a), log[i].version)
  {
    assert log[..n] == log[..n - 1] + [log[n - 1]];
    if i == n - 1 {
      SummarizeSnoc(log[..i], log[i], a);
    } else {
      StartedSince(log, a, i, n - 1);
      StaysStarted(log[..n - 1], log[n - 1], a, log[i].version);
    }
  }

  lemma {:induction false} LastIdSince(log: seq<LogEntry>, a: string, i: nat, n: nat)
    requires i < n <= |log| && SuccessOf(log[i], a)
    requires forall k :: i < k < n ==> !SuccessOf(log[k], a)
    ensures Summarize(log[..n], a).lastId == Some(log[i].draftId)
  {
    assert log[..n] == log[..n - 1] + [log[n - 1]];
    SummarizeSnoc(log[..n - 1], log[n - 1], a);
    if i < n - 1 { LastIdSince(log, a, i, n - 1); }
  }

  lemma {:induction false} NoIdBefore(log: seq<LogEntry>, a: string, n: nat)
    requires n <= |log| && forall k :: 0 <= k < n ==> !SuccessOf(log[k], a)
    ensures Summarize(log[..n], a).lastId == None
  {
    if n == 0 {
    } else {
      assert log[..n] == log[..n - 1] + [log[n - 1]];
      SummarizeSnoc(log[..n - 1], log[n - 1], a);
      NoIdBefore(log, a, n - 1);
    }
  }

  lemma {:induction false} LastQueuedSince(log: seq<LogEntry>, a: string, i: nat, n: nat)
    requires i < n <= |log| && QueueingOf(log[i], a)
    requires forall k :: i < k < n ==> !QueueingOf(log[k], a)
    ensures Summarize(log[..n], a).lastQueued == Some(log[i].version)
  {
    assert log[..n] == log[..n - 1] + [log[n - 1]];
    SummarizeSnoc(log[..n - 1], log[n - 1], a);
    if i < n - 1 { LastQueuedSince(log, a, i, n - 1); }
  }

  /** Between two saves of an account the first has finished, and versions never go back. */
  lemma SavesNeverOverlap(events: seq<Event>, i: nat, j: nat, a: string)
    requires i < j < |History(events)| && StartOf(History(events)[i], a) && StartOf(History(events)[j], a)
    ensures exists k :: i < k < j && FinishOf(History(events)[k], a)
    ensures History(events)[i].version <= History(events)[j].version
  {
    InvInEveryRun(events);
    var log := History(events);
    assert EntryOk(log[..j], log[j]);
    StartedSince(log, a, i, j);
    if forall k :: i < k < j ==> !FinishOf(log[k], a) {
      InFlightSince(log, a, i, j);
    }
  }

  /** Two save loops that have not ended belong to different accounts. */
  lemma OneWorkerPerAccount(events: seq<Event>, w: nat, x: nat)
    requires w in Run(Initial(), events).workers && x in Run(Initial(), events).workers && w != x
    ensures Run(Initial(), events).workers[w].account != Run(Initial(), events).workers[x].account
  {
    InvInEveryRun(events);
    assert WorkerOk(Run(Initial(), events), w) && WorkerOk(Run(Initial(), events), x);
  }

  lemma {:induction false} TriesBound(log: seq<LogEntry>, a: string, v: nat)
    requires LogOk(log)
    ensures TriesOf(log, a, v) <= MAX_AUTOSAVE_RETRIES + 1
  {
    if log == [] {
    } else {
      var n := |log| - 1;
      assert forall i :: 0 <= i < n ==> log[..n][..i] == log[..i] && EntryOk(log[..i], log[i]);
      TriesBound(log[..n], a, v);
      if StartOf(log[n], a) {
        assert EntryOk(log[..n], log[n]);
        CountsAreCounts(log[..n], a, v);
      }
    }
  }

  /** Each queued draft is tried at most four times, never again once saved. */
  lemma AtMostFourTries(events: seq<Event>, a: string, v: nat)
    ensures TriesOf(History(events), a, v) <= MAX_AUTOSAVE_RETRIES + 1
    ensures forall i, j | 0 <= i < j < |History(events)| ::
              SuccessOf(History(events)[i], a) && StartOf(History(events)[j], a) ==>
              History(events)[i].version != History(events)[j].version
  {
    InvInEveryRun(events);
    var log := History(events);
    TriesBound(log, a, v);
    forall i, j | 0 <= i < j < |log| && SuccessOf(log[i], a) && StartOf(log[j], a)
      ensures log[i].version != log[j].version
    {
      assert EntryOk(log[..j], log[j]);
      CountsAreCounts(log[..j], a, log[i].version);
      assert SuccessOf(log[..j][i], a);
    }
  }

  /** A save carries the id of the account's last successful save, if there is one. */
  lemma SavesCarryLastId(events: seq<Event>, j: nat, a: string)
    requires j < |History(events)| && StartOf(History(events)[j], a)
    ensures var log := History(events);
            && (forall i :: 0 <= i < j && SuccessOf(log[i], a) && (forall k :: i < k < j ==> !SuccessOf(log[k], a)) ==>
                  log[j].existing == ExistingId(Some(log[i].draftId)))
            && ((forall k :: 0 <= k < j ==> !SuccessOf(log[k], a)) ==> log[j].existing == None)
  {
    InvInEveryRun(events);
    var log := History(events);
    assert EntryOk(log[..j], log[j]);
    forall i | 0 <= i < j && SuccessOf(log[i], a) && forall k :: i < k < j ==> !SuccessOf(log[k], a)
      ensures log[j].existing == ExistingId(Some(log[i].draftId))
    {
      LastIdSince(log, a, i, j);
    }
    if forall k :: 0 <= k < j ==> !SuccessOf(log[k], a) { NoIdBefore(log, a, j); }
  }

  /** A loop that ends before any cancellation has saved the last queued draft, or tried
      it four times in vain. */
  lemma UncancelledEnd(events: seq<Event>, i: nat, j: nat, a: string)
    requires i < j < |History(events)| && History(events)[j] == WorkerEnded(a)
    requires CancelCalled !in History(events)[..j]
    requires QueueingOf(History(events)[i], a)
    requires forall k :: i < k < j ==> !QueueingOf(History(events)[k], a)
    ensures var log, v := History(events), History(events)[i].version;
            || (exists k :: 0 <= k < j && SuccessOf(log[k], a) && log[k].version == v)
            || FailuresOf(log[..j], a, v) == MAX_AUTOSAVE_RETRIES + 1
  {
    InvInEveryRun(events);
    var log := History(events);
    assert EntryOk(log[..j], log[j]);
    LastQueuedSince(log, a, i, j);
    CountsAreCounts(log[..j], a, log[i].version);
    assert forall k :: 0 <= k < j ==> log[..j][k] == log[k];
  }

  /** After a cancellation no save starts. */
  lemma NoSaveAfterCancel(events: seq<Event>, i: nat, j: nat)
    requires i < j < |History(events)| && History(events)[i] == CancelCalled
    ensures !History(events)[j].Started?
  {
    InvInEveryRun(events);
    var log := History(events);
    assert EntryOk(log[..j], log[j]);
    assert log[..j][i] == CancelCalled;
  }

  /** When a cancellation resolves every save has finished; the first to resolve returns
      the last saved id of each account. */
  lemma CancelReturnsEverything(events: seq<Event>, j: nat, a: string)
    requires j < |History(events)| && History(events)[j].CancelResolved?
    ensures var log := History(events);
            && (forall i :: 0 <= i < j && StartOf(log[i], a) ==> exists k :: i < k < j && FinishOf(log[k], a))
            && ((forall k :: 0 <= k < j ==> !log[k].CancelResolved?) ==>
                  forall i :: 0 <= i < j && SuccessOf(log[i], a)
                              && (forall k :: i < k < j ==> !SuccessOf(log[k], a)) ==>
                    a in log[j].ids && log[j].ids[a] == log[i].draftId)
  {
    InvInEveryRun(events);
    var log := History(events);
    assert EntryOk(log[..j], log[j]);
    forall i | 0 <= i < j && StartOf(log[i], a) ensures exists k :: i < k < j && FinishOf(log[k], a) {
      if forall k :: i < k < j ==> !FinishOf(log[k], a) { InFlightSince(log, a, i, j); }
    }
    if forall k :: 0 <= k < j ==> !log[k].CancelResolved? {
      assert IdsAre(log[j].ids, log[..j]);
      forall i | 0 <= i < j && SuccessOf(log[i], a) && forall k :: i < k < j ==> !SuccessOf(log[k], a)
        ensures a in log[j].ids && log[j].ids[a] == log[i].draftId
      {
        LastIdSince(log, a, i, j);
        assert Lookup(log[j].ids, a) == Some(log[i].draftId);
      }
    }
  }

  /** The save started at `t` is the one that succeeded at `j`. */
  predicate Answers(log: seq<LogEntry>, a: string, t: nat, j: nat)
    requires t < j < |log|
  {
    StartOf(log[t], a) && SuccessOf(log[j], a) && forall k :: t < k < j ==> !FinishOf(log[k], a)
  }

  /** The backend answers a save that carries an id with that id, and never with an empty one. */
  ghost predicate KeepsIds(log: seq<LogEntry>, a: string) {
    && (forall j :: 0 <= j < |log| && SuccessOf(log[j], a) ==> log[j].draftId != "")
    && (forall t, j :: 0 <= t < j < |log| && Answers(log, a, t, j) && log[t].existing.Some? ==>
          log[j].draftId == log[t].existing.value)
  }

  lemma {:induction false} InFlightHasStart(log: seq<LogEntry>, a: string, n: nat) returns (t: nat)
    requires n <= |log| && Summarize(log[..n], a).inFlight
    ensures t < n && StartOf(log[t], a) && forall k :: t < k < n ==> !FinishOf(log[k], a)
  {
    assert n > 0;
    assert log[..n] == log[..n - 1] + [log[n - 1]];
    SummarizeSnoc(log[..n - 1], log[n - 1], a);
    if StartOf(log[n - 1], a) {
      t := n - 1;
    } else {
      t := InFlightHasStart(log, a, n - 1);
    }
  }

  lemma {:induction false} LastSuccessBefore(log: seq<LogEntry>, a: string, i: nat, j: nat) returns (k: nat)
    requires i < j <= |log| && SuccessOf(log[i], a)
    ensures i <= k < j && SuccessOf(log[k], a) && forall x :: k < x < j ==> !SuccessOf(log[x], a)
  {
    if i == j - 1 || SuccessOf(log[j - 1], a) {
      k := j - 1;
    } else {
      k := LastSuccessBefore(log, a, i, j - 1);
    }
  }

  /** With such a backend all successful saves of an account have one id, so the id a
      cancellation returns is every id the account ever got. */
  lemma {:induction false} OneIdPerAccount(events: seq<Event>, i: nat, j: nat, a: string)
    requires i < j < |History(events)| && KeepsIds(History(events), a)
    requires SuccessOf(History(events)[i], a) && SuccessOf(History(events)[j], a)
    ensures History(events)[i].draftId == History(events)[j].draftId
    decreases j
  {
    InvInEveryRun(events);
    var log := History(events);
    assert EntryOk(log[..j], log[j]);
    var t := InFlightHasStart(log, a, j);
    var k := LastSuccessBefore(log, a, i, j);
    assert FinishOf(log[k], a) && k != t;
    SavesCarryLastId(events, t, a);
    assert Answers(log, a, t, j);
    if i < k { OneIdPerAccount(events, i, k, a); }
  }

  // ---------------------------------------------------------------- every draft is queued and looked after

  function IsQueued(): LogEntry -> bool { (e: LogEntry) => e.Queued? }

  function Queueings(s: State): seq<LogEntry> { Keep(s.log, IsQueued()) }

  ghost predicate SameQueueings(s: State, r: State) {
    Queueings(r) == Queueings(s) && r.nextVersion == s.nextVersion && r.cancelled == s.cancelled
  }

  lemma NoteSameQueueings(s: State, r: State, e: LogEntry)
    requires r.log == s.log + [e] && !e.Queued? && r.nextVersion == s.nextVersion && r.cancelled == s.cancelled
    ensures SameQueueings(s, r)
  {
    KeepSnoc(s.log, e, IsQueued());
  }

  lemma BeginSaveSame(s: State, w: nat, account: string, version: nat, failures: nat)
    ensures SameQueueings(s, BeginSave(s, w, account, version, failures))
  {
    NoteSameQueueings(s, BeginSave(s, w, account, version, failures),
                      Started(account, version, ExistingId(Lookup(s.draftIds, account))));
  }

  lemma StartWorkerSame(s: State, account: string)
    ensures SameQueueings(s, StartWorker(s, account))
  {
    if !s.cancelled && account !in s.workerOf {
      var placed := s.(nextWorker := s.nextWorker + 1, workerOf := s.workerOf[account := s.nextWorker]);
      if account in s.queued { BeginSaveSame(placed, s.nextWorker, account, s.queued[account], 0); }
    }
  }

  lemma EndWorkerSame(s: State, w: nat, account: string)
    ensures SameQueueings(s, EndWorker(s, w, account))
  {
    var ended := Note(s.(workers := s.workers - {w}, workerOf := s.workerOf - {account}), WorkerEnded(account));
    NoteSameQueueings(s, ended, WorkerEnded(account));
    StartWorkerSame(ended, account);
  }

  lemma ContinueSame(s: State, w: nat, account: string, next: Option<nat>, failures: nat)
    ensures SameQueueings(s, Continue(s, w, account, next, failures))
  {
    EndWorkerSame(s, w, account);
    if next.Some? { BeginSaveSame(s, w, account, next.value, failures); }
  }

  lemma SuccessSame(s: State, w: nat, account: string, version: nat, draftId: string)
    ensures SameQueueings(s, AfterSuccess(s, w, account, version, draftId))
  {
    var saved := Note(s.(draftIds := s.draftIds[account := draftId]), Succeeded(account, version, draftId));
    NoteSameQueueings(s, saved, Succeeded(account, version, draftId));
    ContinueSame(saved, w, account, Lookup(s.queued, account), 0);
  }

  lemma FailureSame(s: State, w: nat, account: string, version: nat, failures: nat)
    ensures SameQueueings(s, AfterFailure(s, w, account, version, failures))
  {
    var failed := Note(s, Failed(account, version));
    NoteSameQueueings(s, failed, Failed(account, version));
    EndWorkerSame(failed, w, account);
    if account in s.queued { ContinueSame(failed, w, account, Some(s.queued[account]), 0); }
  }

  lemma DelaySame(s: State, w: nat, account: string, version: nat, failures: nat, shouldRetry: bool)
    ensures SameQueueings(s, AfterDelay(s, w, account, version, failures, shouldRetry))
  {
    EndWorkerSame(s, w, account);
    var next := Lookup(s.queued, account);
    ContinueSame(s, w, account, next, if next.Some? && next.value != version then 0 else failures);
  }

  /** What a step does to the queueings in the log. */
  lemma StepQueueings(s: State, e: Event)
    ensures var r := Step(s, e);
            && Queueings(r) == Queueings(s)
               + (if e.Queue? && !s.cancelled then [Queued(e.account, s.nextVersion)] else [])
            && r.nextVersion == s.nextVersion + (if e.Queue? && !s.cancelled then 1 else 0)
            && (r.cancelled <==> s.cancelled || (e.Cancel? && e.call !in s.cancels))
  {
    match e {
      case Queue(account) =>
        if !s.cancelled {
          var noted := Note(s.(queued := s.queued[account := s.nextVersion], nextVersion := s.nextVersion + 1),
                            Queued(account, s.nextVersion));
          KeepSnoc(s.log, Queued(account, s.nextVersion), IsQueued());
          StartWorkerSame(noted, account);
        }
      case SaveSucceeds(w, draftId) =>
        if w in s.workers && s.workers[w].stage.Saving? {
          SuccessSame(s, w, s.workers[w].account, s.workers[w].stage.version, draftId);
        }
      case SaveFails(w) =>
        if w in s.workers && s.workers[w].stage.Saving? {
          FailureSame(s, w, s.workers[w].account, s.workers[w].stage.version, s.workers[w].stage.failures + 1);
        }
      case DelayElapses(_) =>
      case Wakes(w) =>
        if w in s.workers && s.workers[w].stage.Waking? {
          DelaySame(s, w, s.workers[w].account, s.workers[w].stage.version, s.workers[w].stage.failures,
                    s.workers[w].stage.shouldRetry);
        }
      case Cancel(_) => KeepSnoc(s.log, CancelCalled, IsQueued());
      case CancelResolves(_) => KeepSnoc(s.log, CancelResolved(s.draftIds), IsQueued());
    }
  }

  predicate Cancels(events: seq<Event>) { exists i :: 0 <= i < |events| && events[i].Cancel? }

  /** The accounts of the drafts the user queues before the first cancellation. */
  function QueuedAccounts(events: seq<Event>): seq<string> {
    if events == [] then [] else
      var n := |events| - 1;
      QueuedAccounts(events[..n]) + if events[n].Queue? && !Cancels(events[..n]) then [events[n].account] else []
  }

  lemma CancelsSnoc(events: seq<Event>)
    requires events != []
    ensures Cancels(events) <==> Cancels(events[..|events| - 1]) || events[|events| - 1].Cancel?
  {
    assert forall i :: 0 <= i < |events| - 1 ==> events[..|events| - 1][i] == events[i];
  }

  lemma {:induction false} CancelledIff(events: seq<Event>)
    ensures Run(Initial(), events).cancelled <==> Cancels(events)
  {
    if events == [] {
    } else {
      var n := |events| - 1;
      CancelledIff(events[..n]);
      CancelsSnoc(events);
      StepQueueings(Run(Initial(), events[..n]), events[n]);
      InvInEveryRun(events[..n]);
    }
  }

  function Numbered(accounts: seq<string>): seq<LogEntry> {
    seq(|accounts|, v requires 0 <= v < |accounts| => Queued(accounts[v], v))
  }

  lemma NumberedSnoc(accounts: seq<string>, a: string)
    ensures Numbered(accounts + [a]) == Numbered(accounts) + [Queued(a, |accounts|)]
  {
  }

  /** In every run, whatever the save loops are doing: the queueings in the log are the drafts
      queued before the first cancellation, all of them, in order, each under a new version. */
  lemma {:induction false} EveryDraftIsQueued(events: seq<Event>)
    ensures Queueings(Run(Initial(), events)) == Numbered(QueuedAccounts(events))
    ensures Run(Initial(), events).nextVersion == |QueuedAccounts(events)|
  {
    if events == [] {
    } else {
      var n := |events| - 1;
      EveryDraftIsQueued(events[..n]);
      CancelledIff(events[..n]);
      QueueingsGrow(Run(Initial(), events[..n]), events[n], QueuedAccounts(events[..n]));
    }
  }

  lemma QueueingsGrow(s: State, e: Event, accounts: seq<string>)
    requires Queueings(s) == Numbered(accounts) && s.nextVersion == |accounts|
    ensures var all := accounts + (if e.Queue? && !s.cancelled then [e.account] else []);
            Queueings(Step(s, e)) == Numbered(all) && Step(s, e).nextVersion == |all|
  {
    StepQueueings(s, e);
    if e.Queue? && !s.cancelled {
      NumberedSnoc(accounts, e.account);
    } else {
      assert accounts + [] == accounts;
    }
  }

  /** A loop of the account is running and still has this draft: it is saving it, or the
      draft waits in the queue. */
  ghost predicate LookedAfter(s: State, a: string, v: nat) {
    exists w :: w in s.workers && s.workers[w].account == a
                && (s.workers[w].stage == Saving(v, Count(Summarize(s.log, a).failures, v))
                    || Lookup(s.queued, a) == Some(v))
  }

  /** In every run without a cancellation the last draft queued for an account is saved, has
      failed four times, or is looked after by a running loop. */
  lemma NoDraftIsForgotten(events: seq<Event>, i: nat, a: string)
    requires !Cancels(events) && i < |History(events)| && QueueingOf(History(events)[i], a)
    requires forall k :: i < k < |History(events)| ==> !QueueingOf(History(events)[k], a)
    ensures var log, v := History(events), History(events)[i].version;
            || (exists k :: 0 <= k < |log| && SuccessOf(log[k], a) && log[k].version == v)
            || FailuresOf(log, a, v) == MAX_AUTOSAVE_RETRIES + 1
            || LookedAfter(Run(Initial(), events), a, v)
  {
    InvInEveryRun(events);
    CancelledIff(events);
    var s, log := Run(Initial(), events), History(events);
    assert log[..|log|] == log;
    LastQueuedSince(log, a, i, |log|);
    CountsAreCounts(log, a, log[i].version);
    assert AccountOk(s, a) && QueueOk(s, a);
    if a in s.workerOf {
      assert s.workers[s.workerOf[a]].account == a;
      if a in s.queued { assert Lookup(s.queued, a) == Some(log[i].version); }
    }
  }

  // ---------------------------------------------------------------- how a loop goes on

  /** The loop has ended: no loop of the account runs. */
  ghost predicate Idles(s: State, a: string) {
    a !in s.workerOf && forall w :: w in s.workers ==> s.workers[w].account != a
  }

  lemma EndedIdles(s: State, w: nat, a: string)
    requires a !in s.queued && forall x :: x in s.workers && s.workers[x].account == a ==> x == w
    ensures Idles(EndWorker(s, w, a), a) && EndWorker(s, w, a).draftIds == s.draftIds
  {
  }

  lemma ContinueGoesOn(s: State, w: nat, a: string)
    requires !s.cancelled && forall x :: x in s.workers && s.workers[x].account == a ==> x == w
    ensures var r := Continue(s, w, a, Lookup(s.queued, a), 0);
            && r.draftIds == s.draftIds
            && if a in s.queued then Lookup(r.workers, w) == Some(Worker(a, Saving(s.queued[a], 0))) else Idles(r, a)
  {
    if a !in s.queued { EndedIdles(s, w, a); }
  }

  lemma OnlyLoop(events: seq<Event>, w: nat)
    requires w in Run(Initial(), events).workers
    ensures IsOnlyLoop(Run(Initial(), events), w)
  {
    InvInEveryRun(events);
    var s := Run(Initial(), events);
    assert WorkerOk(s, w);
    forall x | x in s.workers && s.workers[x].account == s.workers[w].account ensures x == w { assert WorkerOk(s, x); }
  }

  /** In every run, before a cancellation: after a save the loop goes on with the queued draft,
      or ends. */
  lemma SavedLoopGoesOn(events: seq<Event>, w: nat, draftId: string)
    requires var s := Run(Initial(), events); !s.cancelled && w in s.workers && s.workers[w].stage.Saving?
    ensures var s := Run(Initial(), events);
            var a, r := s.workers[w].account, Step(s, SaveSucceeds(w, draftId));
            && Lookup(r.draftIds, a) == Some(draftId)
            && if a in s.queued then Lookup(r.workers, w) == Some(Worker(a, Saving(s.queued[a], 0))) else Idles(r, a)
  {
    var s := Run(Initial(), events);
    var a, v := s.workers[w].account, s.workers[w].stage.version;
    OnlyLoop(events, w);
    ContinueGoesOn(Note(s.(draftIds := s.draftIds[a := draftId]), Succeeded(a, v, draftId)), w, a);
  }

  /** What a loop does after a failure, the `failures`-th of this draft in a row. */
  ghost predicate GoesOnAfterFailure(s: State, r: State, w: nat, a: string, version: nat, failures: nat) {
    if a in s.queued then Lookup(r.workers, w) == Some(Worker(a, Saving(s.queued[a], 0)))
    else if failures <= 3 then Lookup(r.workers, w) == Some(Worker(a, Waiting(version, failures)))
    else Idles(r, a)
  }

  lemma FailureGoesOn(s: State, w: nat, a: string, version: nat, failures: nat)
    requires !s.cancelled && forall x :: x in s.workers && s.workers[x].account == a ==> x == w
    ensures GoesOnAfterFailure(s, AfterFailure(s, w, a, version, failures), w, a, version, failures)
  {
    var failed := Note(s, Failed(a, version));
    if a in s.queued {
      ContinueGoesOn(failed, w, a);
    } else if failures > MAX_AUTOSAVE_RETRIES {
      EndedIdles(failed, w, a);
    }
  }

  /** No other loop of the account runs. */
  ghost predicate IsOnlyLoop(s: State, w: nat) {
    w in s.workers && forall x :: x in s.workers && s.workers[x].account == s.workers[w].account ==> x == w
  }

  lemma FailedLoop(s: State, w: nat, a: string, version: nat, failures: nat, r: State)
    requires !s.cancelled && IsOnlyLoop(s, w) && s.workers[w] == Worker(a, Saving(version, failures))
    requires r == Step(s, SaveFails(w))
    ensures GoesOnAfterFailure(s, r, w, a, version, failures + 1)
  {
    FailureGoesOn(s, w, a, version, failures + 1);
  }

  /** A failed save is tried again after a delay, up to three times, unless a newer draft is
      queued, which is saved at once. */
  lemma FailedLoopGoesOn(events: seq<Event>, w: nat, a: string, version: nat, failures: nat)
    requires var s := Run(Initial(), events);
             !s.cancelled && Lookup(s.workers, w) == Some(Worker(a, Saving(version, failures)))
    ensures var s := Run(Initial(), events);
            GoesOnAfterFailure(s, Step(s, SaveFails(w)), w, a, version, failures + 1)
  {
    var s := Run(Initial(), events);
    OnlyLoop(events, w);
    FailedLoop(s, w, a, version, failures, Step(s, SaveFails(w)));
  }

  /** Likewise when a retry delay is over: the loop saves the queued draft, counting the
      earlier failures if it is the same one. */
  lemma DelayGoesOn(events: seq<Event>, w: nat)
    requires var s := Run(Initial(), events); !s.cancelled && w in s.workers && s.workers[w].stage.Waiting?
    ensures var s := Run(Initial(), events);
            var a, v, f := s.workers[w].account, s.workers[w].stage.version, s.workers[w].stage.failures;
            var r := Step(Step(s, DelayElapses(w)), Wakes(w));
            a in s.queued &&
            Lookup(r.workers, w) == Some(Worker(a, Saving(s.queued[a], if s.queued[a] == v then f else 0)))
  {
    InvInEveryRun(events);
    assert AccountOk(Run(Initial(), events), Run(Initial(), events).workers[w].account);
    assert WorkerOk(Run(Initial(), events), w);
  }

  /** In every run: a cancellation waits for every loop that is running, and no loop waits for
      a retry delay any more. */
  lemma CancelAwaitsAll(events: seq<Event>, c: nat)
    requires c !in Run(Initial(), events).cancels
    ensures var s := Run(Initial(), events);
            var r := Step(s, Cancel(c));
            && c in r.cancels && r.cancels[c] == s.workers.Keys && r.workers.Keys == s.workers.Keys
            && forall w :: w in r.workers ==> !r.workers[w].stage.Waiting?
  {
    InvInEveryRun(events);
    var s := Run(Initial(), events);
    forall w ensures w in s.workerOf.Values <==> w in s.workers {
      if w in s.workers { assert WorkerOk(s, w); }
      if a :| a in s.workerOf && s.workerOf[a] == w { assert AccountOk(s, a); }
    }
    forall w | w in s.workers && s.workers[w].stage.Waiting?
      ensures Lookup(s.cancelDelayOf, s.workers[w].account) == Some(w)
    {
      assert WorkerOk(s, w) && AccountOk(s, s.workers[w].account);
    }
  }

  /** In every run: once cancelled a loop ends with its next event, and a cancellation whose
      loops have all ended resolves. */
  lemma CancelledLoopEnds(events: seq<Event>, w: nat, draftId: string, c: nat)
    requires Run(Initial(), events).cancelled
    ensures var s := Run(Initial(), events);
            && (w in s.workers ==>
                  if s.workers[w].stage.Saving?
                  then w !in Step(s, SaveSucceeds(w, draftId)).workers && w !in Step(s, SaveFails(w)).workers
                  else s.workers[w].stage.Waking? && w !in Step(s, Wakes(w)).workers)
            && (c in s.cancels && (forall x :: x in s.cancels[c] ==> x !in s.workers) ==>
                  Step(s, CancelResolves(c)).log == s.log + [CancelResolved(s.draftIds)])
  {
    InvInEveryRun(events);
    var s := Run(Initial(), events);
    if w in s.workers { assert WorkerOk(s, w) && AccountOk(s, s.workers[w].account); }
  }

  // ---------------------------------------------------------------- the hook's state

  class DraftPersistence {
    var queuedSave: map<string, nat>
    var saveWorker: map<string, nat>
    var cancelRetryDelay: map<string, nat>
    var workers: map<nat, Worker>
    var draftIds: map<string, string>
    var persistenceCancelled: bool
    var cancels: map<nat, set<nat>>
    var nextVersion: nat
    var nextWorker: nat
    ghost var log: seq<LogEntry>

    ghost function Abs(): State
      reads this
    {
      State(queuedSave, saveWorker, cancelRetryDelay, workers, draftIds, persistenceCancelled, cancels,
            nextVersion, nextWorker, log)
    }

    constructor ()
      ensures Abs() == Initial()
    {
      queuedSave, saveWorker, cancelRetryDelay, workers := map[], map[], map[], map[];
      draftIds, persistenceCancelled, cancels := map[], false, map[];
      nextVersion, nextWorker, log := 0, 0, [];
    }

    /** Up to the await of the save. */
    method LoopBody(w: nat, account: string, version: nat, failures: nat)
      modifies this
      ensures Abs() == BeginSave(old(Abs()), w, account, version, failures)
    {
      queuedSave := queuedSave - {account};
      log := log + [Started(account, version, ExistingId(Lookup(draftIds, account)))];
      workers := workers[w := Worker(account, Saving(version, failures))];
    }

    method StartSaveWorker(account: string)
      modifies this
      ensures Abs() == StartWorker(old(Abs()), account)
    {
      if persistenceCancelled {
        return;
      }
      if account in saveWorker {
        return;
      }
      var w := nextWorker;
      nextWorker := nextWorker + 1;
      saveWorker := saveWorker[account := w];
      if account in queuedSave {
        LoopBody(w, account, queuedSave[account], 0);
      }
    }

    method Finally(w: nat, account: string)
      modifies this
      ensures Abs() == EndWorker(old(Abs()), w, account)
    {
      saveWorker := saveWorker - {account};
      workers := workers - {w};
      log := log + [WorkerEnded(account)];
      if account in queuedSave {
        StartSaveWorker(account);
      }
    }

    method Loop(w: nat, account: string, queued: Option<nat>, failures: nat)
      modifies this
      ensures Abs() == Continue(old(Abs()), w, account, queued, failures)
    {
      if queued.Some? && !persistenceCancelled {
        LoopBody(w, account, queued.value, failures);
      } else {
        Finally(w, account);
      }
    }

    method QueueDraftSave(account: string)
      modifies this
      ensures Abs() == Step(old(Abs()), Queue(account))
    {
      if persistenceCancelled {
        return;
      }
      queuedSave := queuedSave[account := nextVersion];
      log := log + [Queued(account, nextVersion)];
      nextVersion := nextVersion + 1;
      StartSaveWorker(account);
    }

    method SaveReturned(w: nat, draftId: string)
      requires w in workers && workers[w].stage.Saving?
      modifies this
      ensures Abs() == Step(old(Abs()), SaveSucceeds(w, draftId))
    {
      var account := workers[w].account;
      draftIds := draftIds[account := draftId];
      log := log + [Succeeded(account, workers[w].stage.version, draftId)];
      Loop(w, account, Lookup(queuedSave, account), 0);
    }

    method SaveThrew(w: nat)
      requires w in workers && workers[w].stage.Saving?
      modifies this
      ensures Abs() == Step(old(Abs()), SaveFails(w))
    {
      var account, version, failures := workers[w].account, workers[w].stage.version, workers[w].stage.failures + 1;
      log := log + [Failed(account, version)];
      if account in queuedSave {
        Loop(w, account, Some(queuedSave[account]), 0);
        return;
      }
      if persistenceCancelled || failures > MAX_AUTOSAVE_RETRIES {
        Finally(w, account);
        return;
      }
      queuedSave := queuedSave[account := version];
      workers := workers[w := Worker(account, Waiting(version, failures))];
      cancelRetryDelay := cancelRetryDelay[account := w];
    }

    method DelayReturned(w: nat)
      requires w in workers && workers[w].stage.Waking?
      modifies this
      ensures Abs() == Step(old(Abs()), Wakes(w))
    {
      var account, stage := workers[w].account, workers[w].stage;
      if !stage.shouldRetry || persistenceCancelled {
        Finally(w, account);
        return;
      }
      var next, failures := Lookup(queuedSave, account), stage.failures;
      if next.Some? && next.value != stage.version {
        failures := 0;
      }
      Loop(w, account, next, failures);
    }

    /** Up to the await of the active save loops. */
    method CancelPendingDraftSaves(call: nat)
      requires call !in cancels
      modifies this
      ensures Abs() == Step(old(Abs()), Cancel(call))
    {
      persistenceCancelled := true;
      queuedSave := map[];
      workers := CancelDelays(workers, cancelRetryDelay);
      cancelRetryDelay := map[];
      cancels := cancels[call := saveWorker.Values];
      log := log + [CancelCalled];
    }

    method CancelSettled(call: nat) returns (savedDraftIds: map<string, string>)
      requires call in cancels && cancels[call] !! workers.Keys
      modifies this
      ensures Abs() == Step(old(Abs()), CancelResolves(call)) && savedDraftIds == old(draftIds)
    {
      savedDraftIds := draftIds;
      draftIds := map[];
      cancels := cancels - {call};
      log := log + [CancelResolved(savedDraftIds)];
    }
  }
}
