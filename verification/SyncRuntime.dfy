/** The per-account worker manager (src-web/src/sync_runtime.rs). Its methods hold one
    lock at a time, so a run is an interleaving of lock sections. */
module SyncRuntime {
  import opened Basics
  import opened Sequences

  // ---------------------------------------------------------------- state

  datatype Kind = Placeholder | Worker

  /** A worker leaves its loop, which closes its trigger channel, and then finishes.
      An abort takes effect at once. A placeholder waits for ever unless aborted. */
  datatype Stage = InLoop | Draining | Finished | Aborted

  /** A spawned task and the start that spawned it. */
  datatype Task = Task(kind: Kind, account: string, start: nat, interval: nat, stage: Stage)

  predicate Done(t: Task) { t.stage.Finished? || t.stage.Aborted? }

  /** A start between its two lock sections. */
  datatype Start =
    | Reserved(account: string, interval: Option<nat>)
    | Built(account: string, task: nat)
    | Failing(account: string)

  datatype State = State(
    handles: map<string, nat>,
    tasks: map<nat, Task>,
    starts: map<nat, Start>,
    preferred: nat,
    nextTask: nat)

  datatype Event =
    | Reserve(start: nat, account: string, interval: Option<nat>)
    | Build(start: nat)
    | Refuse(start: nat)
    | Commit(start: nat)
    | RemovePlaceholder(start: nat)
    | Trigger(account: string)
    | Stop(account: string)
    | SetPreference(preferred: nat)
    | LoopEnds(task: nat)
    | TaskEnds(task: nat)

  // ---------------------------------------------------------------- steps

  function AbortTask(tasks: map<nat, Task>, id: nat): map<nat, Task> {
    if id in tasks && !Done(tasks[id]) then tasks[id := tasks[id].(stage := Aborted)] else tasks
  }

  /** Drop the account's entry, whatever it is, and abort its task. */
  function DropHandle(s: State, account: string): State {
    if account in s.handles
    then s.(handles := s.handles - {account}, tasks := AbortTask(s.tasks, s.handles[account]))
    else s
  }

  predicate Occupied(s: State, account: string) {
    account in s.handles && s.handles[account] in s.tasks && !Done(s.tasks[s.handles[account]])
  }

  /** A trigger can be sent as long as its receiver lives. */
  predicate Listening(s: State, account: string) {
    account in s.handles && s.handles[account] in s.tasks && s.tasks[s.handles[account]].stage.InLoop?
  }

  function Spawn(s: State, kind: Kind, account: string, start: nat, interval: nat): State {
    s.(tasks := s.tasks[s.nextTask := Task(kind, account, start, interval, InLoop)], nextTask := s.nextTask + 1)
  }

  function Step(s: State, e: Event): State {
    match e
    case Reserve(i, account, interval) =>
      if i in s.starts || Occupied(s, account) then s
      else Spawn(s, Placeholder, account, i, 0).(
             handles := s.handles[account := s.nextTask],
             starts := s.starts[i := Reserved(account, interval)])
    case Build(i) =>
      if i in s.starts && s.starts[i].Reserved? then
        Spawn(s, Worker, s.starts[i].account, i, s.starts[i].interval.UnwrapOr(s.preferred)).(
          starts := s.starts[i := Built(s.starts[i].account, s.nextTask)])
      else s
    case Refuse(i) =>
      if i in s.starts && s.starts[i].Reserved? then
        s.(starts := s.starts[i := Failing(s.starts[i].account)])
      else s
    case Commit(i) =>
      if i in s.starts && s.starts[i].Built? then
        DropHandle(s, s.starts[i].account).(
          handles := s.handles[s.starts[i].account := s.starts[i].task],
          starts := s.starts - {i})
      else s
    case RemovePlaceholder(i) =>
      if i in s.starts && s.starts[i].Failing? then
        DropHandle(s, s.starts[i].account).(starts := s.starts - {i})
      else s
    case Trigger(account) =>
      if Listening(s, account) then s else s.(handles := s.handles - {account})
    case Stop(account) => DropHandle(s, account)
    case SetPreference(preferred) => s.(preferred := preferred)
    case LoopEnds(t) =>
      if t in s.tasks && s.tasks[t].kind.Worker? && s.tasks[t].stage.InLoop?
      then s.(tasks := s.tasks[t := s.tasks[t].(stage := Draining)]) else s
    case TaskEnds(t) =>
      if t in s.tasks && s.tasks[t].stage.Draining?
      then s.(tasks := s.tasks[t := s.tasks[t].(stage := Finished)]) else s
  }

  function Run(s: State, events: seq<Event>): State {
    if events == [] then s else Step(Run(s, events[..|events| - 1]), events[|events| - 1])
  }

  function Initial(preferred: nat): State { State(map[], map[], map[], preferred, 0) }

  // ---------------------------------------------------------------- ownership

  /** `t` is a worker still in its sync loop. */
  ghost predicate Working(s: State, t: nat) {
    t in s.tasks && s.tasks[t].kind.Worker? && s.tasks[t].stage.InLoop?
  }

  ghost predicate HeldByStart(s: State, t: nat) {
    t in s.tasks && s.tasks[t].start in s.starts && s.starts[s.tasks[t].start] == Built(s.tasks[t].account, t)
  }

  ghost predicate InMap(s: State, t: nat) {
    t in s.tasks && s.tasks[t].account in s.handles && s.handles[s.tasks[t].account] == t
  }

  /** The start with this id is still between its lock sections, for this account. */
  ghost predicate InFlight(s: State, i: nat, account: string) {
    i in s.starts && s.starts[i].account == account
  }

  ghost predicate Consistent(s: State) {
    && (forall t :: t in s.tasks ==> t < s.nextTask)
    && (forall a :: a in s.handles ==> s.handles[a] in s.tasks && s.tasks[s.handles[a]].account == a)
    && (forall i :: i in s.starts && s.starts[i].Built? ==>
          && s.starts[i].task in s.tasks
          && s.tasks[s.starts[i].task].kind.Worker?
          && s.tasks[s.starts[i].task].account == s.starts[i].account
          && s.tasks[s.starts[i].task].start == i)
  }

  /** Every working task is the map entry of its own account or held by a start that
      has not reached its second lock section. */
  ghost predicate WorkersOwned(s: State) {
    forall t :: Working(s, t) ==> InMap(s, t) || HeldByStart(s, t)
  }

  /** Every placeholder in the map belongs to a start still in flight. */
  ghost predicate PlaceholdersOwned(s: State) {
    forall a :: a in s.handles && s.handles[a] in s.tasks && s.tasks[s.handles[a]].kind.Placeholder? ==>
      InFlight(s, s.tasks[s.handles[a]].start, a)
  }

  ghost predicate Ownership(s: State) {
    Consistent(s) && WorkersOwned(s) && PlaceholdersOwned(s)
  }

  lemma StepKeepsConsistent(s: State, e: Event)
    requires Consistent(s)
    ensures Consistent(Step(s, e))
  {
  }

  ghost predicate Owned(s: State, t: nat) { Working(s, t) ==> InMap(s, t) || HeldByStart(s, t) }

  lemma StepKeepsOwned(s: State, e: Event, t: nat)
    requires Consistent(s) && Owned(s, t)
    ensures Owned(Step(s, e), t)
  {
  }

  lemma StepKeepsWorkersOwned(s: State, e: Event)
    requires Consistent(s) && WorkersOwned(s)
    ensures WorkersOwned(Step(s, e))
  {
    forall t | Working(Step(s, e), t) ensures InMap(Step(s, e), t) || HeldByStart(Step(s, e), t) {
      StepKeepsOwned(s, e, t);
    }
  }

  lemma StepKeepsPlaceholdersOwned(s: State, e: Event)
    requires Consistent(s) && PlaceholdersOwned(s)
    ensures PlaceholdersOwned(Step(s, e))
  {
  }

  lemma StepKeepsOwnership(s: State, e: Event)
    requires Ownership(s)
    ensures Ownership(Step(s, e))
  {
    StepKeepsConsistent(s, e);
    StepKeepsWorkersOwned(s, e);
    StepKeepsPlaceholdersOwned(s, e);
  }

  /** Main result: in every interleaving of starts, triggers, stops, preference changes
      and worker endings, ownership holds. */
  lemma {:induction false} OwnershipInEveryRun(preferred: nat, events: seq<Event>)
    ensures Ownership(Run(Initial(preferred), events))
  {
    if events == [] {
    } else {
      OwnershipInEveryRun(preferred, events[..|events| - 1]);
      StepKeepsOwnership(Run(Initial(preferred), events[..|events| - 1]), events[|events| - 1]);
    }
  }

  ghost predicate NoneInFlight(s: State, account: string) {
    forall i :: !InFlight(s, i, account)
  }

  /** With no start of an account in flight it has at most one worker, the map's, and
      its map entry is not a placeholder. */
  lemma QuiescentAccount(preferred: nat, events: seq<Event>, account: string)
    requires NoneInFlight(Run(Initial(preferred), events), account)
    ensures var s := Run(Initial(preferred), events);
            && (forall t :: Working(s, t) && s.tasks[t].account == account ==>
                  account in s.handles && s.handles[account] == t)
            && (account in s.handles ==>
                  s.handles[account] in s.tasks && s.tasks[s.handles[account]].kind.Worker?)
  {
    OwnershipInEveryRun(preferred, events);
    var s := Run(Initial(preferred), events);
    forall t | Working(s, t) && s.tasks[t].account == account
      ensures account in s.handles && s.handles[account] == t
    {
      assert !InFlight(s, s.tasks[t].start, account);
    }
    if account in s.handles {
      assert !InFlight(s, s.tasks[s.handles[account]].start, account);
    }
  }

  // ---------------------------------------------------------------- stopping

  ghost predicate AccountWorking(s: State, account: string) {
    exists t :: Working(s, t) && s.tasks[t].account == account
  }

  /** A start of the account holds a worker it has not put into the map yet. */
  ghost predicate WorkerInFlight(s: State, account: string) {
    exists i :: InFlight(s, i, account) && s.starts[i].Built? && Working(s, s.starts[i].task)
                && !(account in s.handles && s.handles[account] == s.starts[i].task)
  }

  /** After a stop the account still has a worker exactly when a start in flight holds one. */
  lemma StopLeavesWorkerIff(s: State, account: string)
    requires Ownership(s)
    ensures AccountWorking(Step(s, Stop(account)), account) <==> WorkerInFlight(s, account)
  {
    var r := Step(s, Stop(account));
    if AccountWorking(r, account) {
      var t :| Working(r, t) && r.tasks[t].account == account;
      assert Working(s, t);
      assert InMap(s, t) || HeldByStart(s, t);
      assert InFlight(s, s.tasks[t].start, account);
    }
    if WorkerInFlight(s, account) {
      var i :| InFlight(s, i, account) && s.starts[i].Built? && Working(s, s.starts[i].task)
               && !(account in s.handles && s.handles[account] == s.starts[i].task);
      assert Working(r, s.starts[i].task);
    }
  }

  /** A start in flight still has a worker to bring: it has not built one yet, or holds one
      that the map does not have. */
  ghost predicate CanRevive(s: State, i: nat, account: string) {
    && InFlight(s, i, account)
    && match s.starts[i]
       case Reserved(_, _) => true
       case Built(_, t) => Working(s, t) && !(account in s.handles && s.handles[account] == t)
       case Failing(_) => false
  }

  /** No worker of the account runs, and none of its starts will bring one. */
  ghost predicate Quenched(s: State, account: string) {
    && !AccountWorking(s, account)
    && forall i :: InFlight(s, i, account) ==>
         s.starts[i].Failing? || (s.starts[i].Built? && !Working(s, s.starts[i].task))
  }

  ghost predicate NoNewStart(events: seq<Event>, account: string) {
    forall e :: e in events ==> (e.Reserve? ==> e.account != account)
  }

  lemma StepKeepsQuenched(s: State, e: Event, account: string)
    requires Consistent(s) && Quenched(s, account)
    requires e.Reserve? ==> e.account != account
    ensures Quenched(Step(s, e), account)
  {
    var r := Step(s, e);
    forall t | Working(r, t) ensures r.tasks[t].account != account {
      assert Working(s, t) ==> s.tasks[t].account != account;
      if e.Build? { assert InFlight(s, e.start, account) ==> !s.starts[e.start].Reserved?; }
    }
    forall i | InFlight(r, i, account)
      ensures r.starts[i].Failing? || (r.starts[i].Built? && !Working(r, r.starts[i].task))
    {
      assert InFlight(s, i, account);
    }
  }

  lemma {:induction false} RunKeepsQuenched(s: State, account: string, events: seq<Event>)
    requires Consistent(s) && Quenched(s, account)
    requires NoNewStart(events, account)
    ensures Consistent(Run(s, events)) && Quenched(Run(s, events), account)
    ensures NoneInFlight(s, account) ==> NoneInFlight(Run(s, events), account)
  {
    if events == [] {
    } else {
      var n := |events| - 1;
      RunKeepsQuenched(s, account, events[..n]);
      StepKeepsConsistent(Run(s, events[..n]), events[n]);
      StepKeepsQuenched(Run(s, events[..n]), events[n], account);
      if NoneInFlight(s, account) { StepKeepsNoneInFlight(Run(s, events[..n]), events[n], account); }
    }
  }

  lemma StepKeepsNoneInFlight(s: State, e: Event, account: string)
    requires NoneInFlight(s, account) && (e.Reserve? ==> e.account != account)
    ensures NoneInFlight(Step(s, e), account)
  {
    forall i ensures !InFlight(Step(s, e), i, account) { assert !InFlight(s, i, account); }
  }

  /** After a stop the account has no worker, whatever happens short of a new start, as long
      as no start in flight can bring one. */
  lemma StopIsFinal(s: State, account: string, events: seq<Event>)
    requires Ownership(s) && (forall i :: !CanRevive(s, i, account)) && NoNewStart(events, account)
    ensures Quenched(Run(Step(s, Stop(account)), events), account)
    ensures NoneInFlight(s, account) ==> NoneInFlight(Run(Step(s, Stop(account)), events), account)
  {
    var stopped := Step(s, Stop(account));
    StepKeepsConsistent(s, Stop(account));
    StopLeavesWorkerIff(s, account);
    assert !WorkerInFlight(s, account) by {
      assert forall i :: InFlight(s, i, account) ==> !CanRevive(s, i, account);
    }
    forall i | InFlight(stopped, i, account)
      ensures stopped.starts[i].Failing? || (stopped.starts[i].Built? && !Working(stopped, stopped.starts[i].task))
    {
      assert !CanRevive(s, i, account);
    }
    if NoneInFlight(s, account) {
      forall i ensures !InFlight(stopped, i, account) { assert !InFlight(s, i, account); }
    }
    RunKeepsQuenched(stopped, account, events);
  }

  /** A start that can bring a worker does so after the stop: building it is enough. */
  lemma ReviverRevives(s: State, i: nat, account: string) returns (events: seq<Event>)
    requires Ownership(s) && CanRevive(s, i, account)
    ensures NoNewStart(events, account) && AccountWorking(Run(Step(s, Stop(account)), events), account)
  {
    var stopped := Step(s, Stop(account));
    if s.starts[i].Reserved? {
      events := [Build(i)];
      assert Run(stopped, events[..0]) == stopped && Run(stopped, events) == Step(stopped, Build(i));
      var r := Step(stopped, Build(i));
      assert Working(r, s.nextTask) && r.tasks[s.nextTask].account == account;
    } else {
      events := [];
      assert WorkerInFlight(s, account);
      StopLeavesWorkerIff(s, account);
      assert Run(stopped, []) == stopped;
    }
  }

  /** A stop is final if and only if no start in flight can still bring a worker. */
  lemma StopIsFinalIff(s: State, account: string)
    requires Ownership(s)
    ensures (forall events: seq<Event> :: NoNewStart(events, account) ==>
               !AccountWorking(Run(Step(s, Stop(account)), events), account))
            <==> forall i :: !CanRevive(s, i, account)
  {
    if i :| CanRevive(s, i, account) {
      var events := ReviverRevives(s, i, account);
      assert NoNewStart(events, account) && AccountWorking(Run(Step(s, Stop(account)), events), account);
    } else {
      forall events: seq<Event> | NoNewStart(events, account)
        ensures !AccountWorking(Run(Step(s, Stop(account)), events), account)
      {
        StopIsFinal(s, account, events);
      }
    }
  }

  /** A stop that lands between a start's lock sections does not cancel the start. */
  lemma StopDoesNotCancelStart(s: State, i: nat, account: string, interval: Option<nat>)
    requires Ownership(s) && i in s.starts && s.starts[i] == Reserved(account, interval)
    ensures var r := Run(s, [Stop(account), Build(i), Commit(i)]);
            && account in r.handles && Working(r, r.handles[account])
            && r.tasks[r.handles[account]].account == account
  {
    var events := [Stop(account), Build(i), Commit(i)];
    assert events[..2] == [Stop(account), Build(i)] && events[..2][..1] == [Stop(account)];
    assert events[..2][..1][..0] == [];
    assert Run(s, [Stop(account)]) == Step(s, Stop(account));
    assert Run(s, events[..2]) == Step(Step(s, Stop(account)), Build(i));
  }

  // ---------------------------------------------------------------- late failures

  /** A start that fails removes and aborts whatever entry its account has by then. All
      workers survive that if and only if the entry is not a working worker. */
  lemma FailureHarmlessIff(s: State, i: nat, account: string)
    requires Ownership(s) && i in s.starts && s.starts[i] == Failing(account)
    ensures (forall t :: Working(s, t) ==> Working(Step(s, RemovePlaceholder(i)), t))
            <==> !(account in s.handles && Working(s, s.handles[account]))
  {
    var r := Step(s, RemovePlaceholder(i));
    if account in s.handles && Working(s, s.handles[account]) {
      assert !Working(r, s.handles[account]);
    } else {
      forall t | Working(s, t) ensures Working(r, t) {}
    }
  }

  /** What takes the account's entry away from a start whose placeholder it is. */
  ghost predicate Displaces(s: State, e: Event, account: string) {
    match e
    case Stop(a) => a == account
    case Commit(k) => k in s.starts && s.starts[k].Built? && s.starts[k].account == account
    case RemovePlaceholder(k) => k in s.starts && s.starts[k] == Failing(account)
    case _ => false
  }

  /** The event at position `k` of a run from `s` is one of these. */
  ghost predicate DisplacesAt(s: State, events: seq<Event>, k: nat, account: string)
    requires k < |events|
  {
    Displaces(Run(s, events[..k]), events[k], account)
  }

  ghost predicate Undisplaced(s: State, events: seq<Event>, account: string) {
    forall k :: 0 <= k < |events| ==> !DisplacesAt(s, events, k, account)
  }

  lemma UndisplacedSnoc(s: State, events: seq<Event>, account: string)
    requires events != []
    ensures var n := |events| - 1;
            Undisplaced(s, events, account) <==>
              Undisplaced(s, events[..n], account) && !DisplacesAt(s, events, n, account)
  {
    var n := |events| - 1;
    forall k | 0 <= k < n ensures DisplacesAt(s, events[..n], k, account) <==> DisplacesAt(s, events, k, account) {
      assert events[..n][..k] == events[..k];
    }
  }

  ghost predicate IsEntry(s: State, account: string, p: nat) {
    account in s.handles && s.handles[account] == p
  }

  ghost predicate PlaceholderOf(s: State, p: nat, account: string) {
    && Consistent(s) && p in s.tasks && s.tasks[p].kind.Placeholder? && s.tasks[p].account == account
    && (IsEntry(s, account, p) ==> s.tasks[p].stage.InLoop?)
  }

  lemma StepOnPlaceholder(s: State, e: Event, p: nat, account: string)
    requires PlaceholderOf(s, p, account)
    ensures PlaceholderOf(Step(s, e), p, account)
    ensures IsEntry(Step(s, e), account, p) <==> IsEntry(s, account, p) && !Displaces(s, e, account)
  {
    StepKeepsConsistent(s, e);
  }

  lemma ReservedPlaceholder(s: State, i: nat, account: string, interval: Option<nat>)
    requires Consistent(s) && i !in s.starts && !Occupied(s, account)
    ensures var reserved := Step(s, Reserve(i, account, interval));
            PlaceholderOf(reserved, s.nextTask, account) && IsEntry(reserved, account, s.nextTask)
  {
    StepKeepsConsistent(s, Reserve(i, account, interval));
  }

  /** After any run from a reservation the entry is still its placeholder if and only if
      there was no stop of the account, no commit of a start of it and no removal after a
      failed one. */
  lemma {:induction false} KeepsPlaceholderIff(s: State, i: nat, account: string, interval: Option<nat>,
                                               events: seq<Event>)
    requires Consistent(s) && i !in s.starts && !Occupied(s, account)
    ensures var reserved := Step(s, Reserve(i, account, interval));
            && PlaceholderOf(Run(reserved, events), s.nextTask, account)
            && (IsEntry(Run(reserved, events), account, s.nextTask) <==> Undisplaced(reserved, events, account))
  {
    var reserved := Step(s, Reserve(i, account, interval));
    if events == [] {
      ReservedPlaceholder(s, i, account, interval);
    } else {
      var n := |events| - 1;
      KeepsPlaceholderIff(s, i, account, interval, events[..n]);
      StepOnPlaceholder(Run(reserved, events[..n]), events[n], s.nextTask, account);
      UndisplacedSnoc(reserved, events, account);
    }
  }

  /** So the failure of a start that nothing displaced removes its own placeholder, and no
      task but that changes. */
  lemma UndisplacedFailure(s: State, i: nat, account: string, interval: Option<nat>, events: seq<Event>)
    requires Consistent(s) && i !in s.starts && !Occupied(s, account)
    requires var reserved := Step(s, Reserve(i, account, interval));
             && i in Run(reserved, events).starts && Run(reserved, events).starts[i] == Failing(account)
             && Undisplaced(reserved, events, account)
    ensures var before := Run(Step(s, Reserve(i, account, interval)), events);
            var after := Step(before, RemovePlaceholder(i));
            && after.handles == before.handles - {account}
            && after.tasks.Keys == before.tasks.Keys
            && forall t :: t in before.tasks && t != s.nextTask ==> after.tasks[t] == before.tasks[t]
  {
    KeepsPlaceholderIff(s, i, account, interval, events);
  }

  /** Without that, a late failure aborts another start's worker. Start `i` reserved the
      account; a stop and a complete start `j` followed, whose worker is in the map. */
  lemma LateFailureAbortsOther(s: State, i: nat, j: nat, account: string, interval: Option<nat>)
    requires Consistent(s) && i in s.starts && s.starts[i] == Reserved(account, interval) && j !in s.starts
    ensures var before := Step(Step(Step(Step(s, Stop(account)), Reserve(j, account, None)), Build(j)), Commit(j));
            LosesWorker(before, i, account) && j !in before.starts
  {
    var reserved := Step(Step(s, Stop(account)), Reserve(j, account, None));
    assert reserved.handles[account] == s.nextTask && reserved.starts[j] == Reserved(account, None);
    var built := Step(reserved, Build(j));
    assert built.starts[j] == Built(account, s.nextTask + 1) && built.starts[i] == Reserved(account, interval);
    LateFailure(Step(built, Commit(j)), i, account);
  }

  /** No new start is needed for it: an older start `j` whose entry a stop removed commits
      after `i` has reserved, and then `i` fails. */
  lemma LateFailureAbortsOlder(s: State, i: nat, j: nat, account: string, interval: Option<nat>, older: Option<nat>)
    requires Consistent(s) && j in s.starts && s.starts[j] == Reserved(account, older) && i !in s.starts
    ensures var before := Step(Step(Step(Step(s, Stop(account)), Reserve(i, account, interval)), Build(j)), Commit(j));
            LosesWorker(before, i, account) && j !in before.starts
  {
    var reserved := Step(Step(s, Stop(account)), Reserve(i, account, interval));
    assert reserved.handles[account] == s.nextTask && reserved.starts[i] == Reserved(account, interval);
    var built := Step(reserved, Build(j));
    assert built.starts[j] == Built(account, s.nextTask + 1) && built.starts[i] == Reserved(account, interval);
    LateFailure(Step(built, Commit(j)), i, account);
  }

  /** The account's worker is listening; when start `i` fails it is aborted and has no entry. */
  ghost predicate LosesWorker(s: State, i: nat, account: string) {
    Listening(s, account) && s.tasks[s.handles[account]].kind.Worker? &&
    var after := Step(Step(s, Refuse(i)), RemovePlaceholder(i));
    && account !in after.handles && s.handles[account] in after.tasks
    && after.tasks[s.handles[account]].stage == Aborted
  }

  lemma LateFailure(s: State, i: nat, account: string)
    requires i in s.starts && s.starts[i].Reserved? && s.starts[i].account == account && Listening(s, account)
    requires s.tasks[s.handles[account]].kind.Worker?
    ensures LosesWorker(s, i, account)
  {
    assert Step(s, Refuse(i)) == s.(starts := s.starts[i := Failing(account)]);
  }

  /** A start whose sections nothing interrupts. */
  function Started(s: State, i: nat, account: string, interval: Option<nat>, found: bool): State {
    if Occupied(s, account) then s
    else
      var reserved := Step(s, Reserve(i, account, interval));
      if found then Step(Step(reserved, Build(i)), Commit(i))
      else Step(Step(reserved, Refuse(i)), RemovePlaceholder(i))
  }

  /** It leaves the account's live entry alone, or puts a listening worker with the
      requested interval in its place, or none if the account cannot be started. */
  lemma UninterruptedStart(s: State, i: nat, account: string, interval: Option<nat>, found: bool)
    requires Consistent(s) && i !in s.starts && !Occupied(s, account)
    ensures var r := Started(s, i, account, interval, found);
            && r.starts == s.starts && r.preferred == s.preferred
            && (if found then
                  && Listening(r, account)
                  && r.handles == s.handles[account := r.handles[account]]
                  && r.tasks[r.handles[account]]
                     == Task(Worker, account, i, interval.UnwrapOr(s.preferred), InLoop)
                else r.handles == s.handles - {account})
            && (forall t :: t in s.tasks ==> t in r.tasks && r.tasks[t] == s.tasks[t])
  {
    var reserved := Step(s, Reserve(i, account, interval));
    assert reserved.handles[account] == s.nextTask && s.nextTask !in s.tasks;
    assert reserved.starts - {i} == s.starts;
  }

  // ---------------------------------------------------------------- which starts go ahead

  /** The account has no entry, or the task of its entry has finished or was aborted. */
  ghost predicate Vacant(s: State, account: string) {
    account in s.handles ==>
      s.handles[account] in s.tasks && s.tasks[s.handles[account]].stage in {Finished, Aborted}
  }

  /** A start reserves its account if and only if the account is vacant: it then has a
      placeholder that listens, and nothing else changes. Otherwise it does nothing. */
  lemma ReservesIff(s: State, i: nat, account: string, interval: Option<nat>)
    requires Consistent(s) && i !in s.starts
    ensures var r := Step(s, Reserve(i, account, interval));
            if Vacant(s, account) then
              && r.starts == s.starts[i := Reserved(account, interval)]
              && r.handles == s.handles[account := s.nextTask] && r.preferred == s.preferred
              && r.tasks == s.tasks[s.nextTask := Task(Placeholder, account, i, 0, InLoop)]
            else r == s
  {
  }

  /** So a start that nothing interrupts makes every vacant account that can be started a
      listening worker of its own, also after an earlier worker has ended. */
  lemma VacantIsStarted(s: State, i: nat, account: string, interval: Option<nat>)
    requires Consistent(s) && i !in s.starts && Vacant(s, account)
    ensures var r := Step(Step(Step(s, Reserve(i, account, interval)), Build(i)), Commit(i));
            && account in r.handles && r.handles[account] in r.tasks && r.handles[account] !in s.tasks
            && r.tasks[r.handles[account]] == Task(Worker, account, i, interval.UnwrapOr(s.preferred), InLoop)
            && r.starts == s.starts
  {
    ReservesIff(s, i, account, interval);
    UninterruptedStart(s, i, account, interval, true);
    UninterruptedEntryIsNew(s, i, account, interval);
  }

  lemma UninterruptedEntryIsNew(s: State, i: nat, account: string, interval: Option<nat>)
    requires Consistent(s) && i !in s.starts && !Occupied(s, account)
    ensures Started(s, i, account, interval, true).handles[account] == s.nextTask + 1
  {
    var reserved := Step(s, Reserve(i, account, interval));
    assert reserved.starts[i] == Reserved(account, interval);
  }

  /** A worker that has left its loop and finished leaves its account vacant. */
  lemma FinishedIsVacant(s: State, account: string)
    requires Consistent(s) && account in s.handles && Working(s, s.handles[account])
    ensures var t := s.handles[account];
            Vacant(Step(Step(s, LoopEnds(t)), TaskEnds(t)), account)
  {
  }

  /** A trigger keeps the account's entry if and only if its task still listens. */
  lemma TriggerKeepsEntryIff(s: State, account: string, other: string)
    requires Consistent(s)
    ensures var r := Step(s, Trigger(account));
            && (account in r.handles <==> account in s.handles && s.tasks[s.handles[account]].stage == InLoop)
            && (other != account ==> (other in r.handles <==> other in s.handles))
            && (forall a :: a in r.handles ==> r.handles[a] == s.handles[a])
            && r.tasks == s.tasks && r.starts == s.starts
  {
  }

  // ---------------------------------------------------------------- how long a preference lasts

  /** The account's entry is a listening worker with this interval. */
  ghost predicate Serving(s: State, account: string, interval: nat) {
    && Listening(s, account)
    && s.tasks[s.handles[account]].kind.Worker? && s.tasks[s.handles[account]].interval == interval
  }

  /** The commit or the failure of a start takes the interval away: it puts another worker
      in the entry's place, or none. */
  ghost predicate Unseats(s: State, e: Event, account: string, interval: nat) {
    match e
    case Commit(i) =>
      i in s.starts && s.starts[i].Built? && s.starts[i].account == account && !Brings(s, i, account, interval)
    case RemovePlaceholder(i) => i in s.starts && s.starts[i] == Failing(account)
    case _ => false
  }

  /** The start holds a working worker with this interval outside the map. */
  ghost predicate Brings(s: State, i: nat, account: string, interval: nat) {
    && i in s.starts && s.starts[i].Built? && Working(s, s.starts[i].task)
    && s.tasks[s.starts[i].task].interval == interval && !IsEntry(s, account, s.starts[i].task)
  }

  /** The account is stopped, or a loop of one of its workers ends. */
  ghost predicate Disturbs(s: State, e: Event, account: string) {
    e == Stop(account) || (e.LoopEnds? && e.task in s.tasks && s.tasks[e.task].account == account)
  }

  ghost predicate Undisturbed(s: State, events: seq<Event>, account: string) {
    events != [] ==>
      && Undisturbed(s, events[..|events| - 1], account)
      && !Disturbs(Run(s, events[..|events| - 1]), events[|events| - 1], account)
  }

  lemma ServingStepIff(s: State, e: Event, account: string, interval: nat)
    requires Consistent(s) && Serving(s, account, interval) && !Disturbs(s, e, account)
    ensures Serving(Step(s, e), account, interval) <==> !Unseats(s, e, account, interval)
  {
  }

  ghost predicate ServedThroughout(s: State, events: seq<Event>, account: string, interval: nat) {
    Serving(Run(s, events), account, interval)
    && (events != [] ==> ServedThroughout(s, events[..|events| - 1], account, interval))
  }

  /** No start of the account that was in flight at `s` unseats the interval. */
  ghost predicate NeverUnseated(s: State, events: seq<Event>, account: string, interval: nat) {
    events != [] ==>
      var before, e := Run(s, events[..|events| - 1]), events[|events| - 1];
      && NeverUnseated(s, events[..|events| - 1], account, interval)
      && !(Unseats(before, e, account, interval) && InFlight(s, e.start, account))
  }

  lemma NoOtherStarts(s: State, e: Event, account: string, interval: nat, i: nat)
    requires Serving(s, account, interval) && InFlight(Step(s, e), i, account)
    ensures InFlight(s, i, account)
  {
  }

  lemma {:induction false} ServedStarts(s: State, events: seq<Event>, account: string, interval: nat, i: nat)
    requires ServedThroughout(s, events, account, interval) && InFlight(Run(s, events), i, account)
    ensures InFlight(s, i, account)
  {
    if events == [] {
    } else {
      var n := |events| - 1;
      NoOtherStarts(Run(s, events[..n]), events[n], account, interval, i);
      ServedStarts(s, events[..n], account, interval, i);
    }
  }

  /** Over any run in which the account is not stopped and its workers go on: the interval
      lasts if and only if no start that was in flight when it was in place commits another
      worker or fails. */
  lemma {:induction false} ServedThroughoutIff(s: State, events: seq<Event>, account: string, interval: nat)
    requires Consistent(s) && Serving(s, account, interval) && Undisturbed(s, events, account)
    ensures Consistent(Run(s, events))
    ensures ServedThroughout(s, events, account, interval) <==> NeverUnseated(s, events, account, interval)
  {
    if events == [] {
    } else {
      var n := |events| - 1;
      var before, e := Run(s, events[..n]), events[n];
      ServedThroughoutIff(s, events[..n], account, interval);
      StepKeepsConsistent(before, e);
      if ServedThroughout(s, events[..n], account, interval) {
        ServingStepIff(before, e, account, interval);
        if Unseats(before, e, account, interval) { ServedStarts(s, events[..n], account, interval, e.start); }
      }
    }
  }

  /** The account is served, and each of its starts in flight would serve it too. */
  ghost predicate Settled(s: State, account: string, interval: nat) {
    Serving(s, account, interval) && forall i :: InFlight(s, i, account) ==> Brings(s, i, account, interval)
  }

  lemma StepKeepsSettled(s: State, e: Event, account: string, interval: nat)
    requires Consistent(s) && Settled(s, account, interval) && !Disturbs(s, e, account)
    ensures Settled(Step(s, e), account, interval)
  {
    if e.Commit? || e.RemovePlaceholder? {
      assert InFlight(s, e.start, account) ==> Brings(s, e.start, account, interval);
    }
    ServingStepIff(s, e, account, interval);
    forall i | InFlight(Step(s, e), i, account) ensures Brings(Step(s, e), i, account, interval) {
      NoOtherStarts(s, e, account, interval, i);
      StepKeepsBrings(s, e, account, interval, i);
    }
  }

  lemma StepKeepsBrings(s: State, e: Event, account: string, interval: nat, i: nat)
    requires Consistent(s) && Settled(s, account, interval) && !Disturbs(s, e, account)
    requires InFlight(s, i, account) && InFlight(Step(s, e), i, account)
    ensures Brings(Step(s, e), i, account, interval)
  {
    assert Brings(s, i, account, interval);
  }

  lemma {:induction false} RunKeepsSettled(s: State, events: seq<Event>, account: string, interval: nat)
    requires Consistent(s) && Settled(s, account, interval) && Undisturbed(s, events, account)
    ensures Consistent(Run(s, events)) && Settled(Run(s, events), account, interval)
  {
    if events == [] {
    } else {
      var n := |events| - 1;
      RunKeepsSettled(s, events[..n], account, interval);
      StepKeepsConsistent(Run(s, events[..n]), events[n]);
      StepKeepsSettled(Run(s, events[..n]), events[n], account, interval);
    }
  }

  /** A start in flight that does not bring the interval can end it. */
  lemma UnseatingRun(s: State, i: nat, account: string, interval: nat) returns (events: seq<Event>)
    requires Consistent(s) && Serving(s, account, interval) && InFlight(s, i, account)
    requires !Brings(s, i, account, interval)
    ensures Undisturbed(s, events, account) && !Serving(Run(s, events), account, interval)
  {
    match s.starts[i] {
      case Reserved(_, _) =>
        events := [Refuse(i), RemovePlaceholder(i)];
        assert events[..1] == [Refuse(i)] && events[..1][..0] == [];
        assert Run(s, events[..1]) == Step(s, Refuse(i));
        assert Run(s, events) == Step(Step(s, Refuse(i)), RemovePlaceholder(i));
      case Failing(_) =>
        events := [RemovePlaceholder(i)];
        assert events[..0] == [] && Run(s, events) == Step(s, RemovePlaceholder(i));
      case Built(_, _) =>
        events := [Commit(i)];
        assert events[..0] == [] && Run(s, events) == Step(s, Commit(i));
    }
  }

  /** Whatever happens short of a stop of the account or the end of its workers' loops, a
      preference in place lasts if and only if every start of the account still in flight
      holds a working worker with the same interval. */
  lemma PreferenceLastsIff(s: State, account: string, interval: nat)
    requires Consistent(s) && Serving(s, account, interval)
    ensures (forall events: seq<Event> ::
               Undisturbed(s, events, account) ==> Serving(Run(s, events), account, interval))
            <==> forall i :: InFlight(s, i, account) ==> Brings(s, i, account, interval)
  {
    if i :| InFlight(s, i, account) && !Brings(s, i, account, interval) {
      var events := UnseatingRun(s, i, account, interval);
      assert Undisturbed(s, events, account) && !Serving(Run(s, events), account, interval);
    } else {
      forall events: seq<Event> | Undisturbed(s, events, account) ensures Serving(Run(s, events), account, interval) {
        RunKeepsSettled(s, events, account, interval);
      }
    }
  }

  ghost predicate Lacks(events: seq<Event>, e: Event) { e !in events }

  lemma {:induction false} StaysReserved(s: State, j: nat, events: seq<Event>)
    requires Consistent(s) && j in s.starts && s.starts[j].Reserved?
    requires Lacks(events, Build(j)) && Lacks(events, Refuse(j))
    ensures Consistent(Run(s, events))
    ensures j in Run(s, events).starts && Run(s, events).starts[j] == s.starts[j]
  {
    if events == [] {
    } else {
      var n := |events| - 1;
      StaysReserved(s, j, events[..n]);
      StepKeepsConsistent(Run(s, events[..n]), events[n]);
      ReservedStep(Run(s, events[..n]), j, events[n]);
    }
  }

  lemma ReservedStep(s: State, j: nat, e: Event)
    requires j in s.starts && s.starts[j].Reserved? && e != Build(j) && e != Refuse(j)
    ensures j in Step(s, e).starts && Step(s, e).starts[j] == s.starts[j]
  {
  }

  lemma {:induction false} StaysBuilt(s: State, j: nat, account: string, interval: nat, events: seq<Event>)
    requires Consistent(s) && InFlight(s, j, account) && Brings(s, j, account, interval)
    requires Lacks(events, Commit(j)) && Lacks(events, LoopEnds(s.starts[j].task))
    ensures Consistent(Run(s, events)) && InFlight(Run(s, events), j, account)
    ensures Run(s, events).starts[j] == s.starts[j] && Brings(Run(s, events), j, account, interval)
  {
    if events == [] {
    } else {
      var n := |events| - 1;
      StaysBuilt(s, j, account, interval, events[..n]);
      StepKeepsConsistent(Run(s, events[..n]), events[n]);
      BuiltStep(Run(s, events[..n]), j, account, interval, events[n]);
    }
  }

  lemma BuiltStep(s: State, j: nat, account: string, interval: nat, e: Event)
    requires Consistent(s) && InFlight(s, j, account) && Brings(s, j, account, interval)
    requires e != Commit(j) && e != LoopEnds(s.starts[j].task)
    ensures InFlight(Step(s, e), j, account) && Step(s, e).starts[j] == s.starts[j]
    ensures Brings(Step(s, e), j, account, interval)
  {
  }

  lemma BuildBrings(s: State, j: nat, account: string, interval: nat)
    requires Consistent(s) && j in s.starts && s.starts[j] == Reserved(account, Some(interval))
    ensures var built := Step(s, Build(j));
            && Consistent(built) && InFlight(built, j, account) && built.starts[j] == Built(account, s.nextTask)
            && Brings(built, j, account, interval)
  {
    StepKeepsConsistent(s, Build(j));
  }

  /** Whatever falls between the lock sections of a start that has reserved its account and
      finds it, stops included: its commit serves the account with the requested interval,
      unless its worker's loop has ended already. */
  lemma CommitServes(s: State, j: nat, account: string, interval: nat, before: seq<Event>, after: seq<Event>)
    requires Consistent(s) && j in s.starts && s.starts[j] == Reserved(account, Some(interval))
    requires Lacks(before, Build(j)) && Lacks(before, Refuse(j))
    requires Lacks(after, Commit(j)) && Lacks(after, LoopEnds(Run(s, before).nextTask))
    ensures var built := Step(Run(s, before), Build(j));
            Serving(Step(Run(built, after), Commit(j)), account, interval)
  {
    var reserved := Run(s, before);
    var built := Step(reserved, Build(j));
    StaysReserved(s, j, before);
    BuildBrings(reserved, j, account, interval);
    StaysBuilt(built, j, account, interval, after);
  }

  /** A change of preference applied to one account by start `j`. */
  function Reapplied(s: State, j: nat, account: string, interval: nat): State {
    Started(Step(Step(s, SetPreference(interval)), Stop(account)), j, account, Some(interval), true)
  }

  lemma ReappliedServes(s: State, j: nat, account: string, interval: nat)
    requires Consistent(s) && j !in s.starts
    ensures var applied := Reapplied(s, j, account, interval);
            && Serving(applied, account, interval) && applied.starts == s.starts
            && applied.tasks[applied.handles[account]].start == j
            && forall t :: t in s.tasks && !IsEntry(s, account, t) ==>
                 t in applied.tasks && applied.tasks[t] == s.tasks[t]
  {
    var preferring := Step(s, SetPreference(interval));
    StepKeepsConsistent(s, SetPreference(interval));
    StepKeepsConsistent(preferring, Stop(account));
    UninterruptedStart(Step(preferring, Stop(account)), j, account, Some(interval), true);
  }

  /** A start that had built its worker before the change commits it after the change: the
      account ends with the old interval, and the new worker is aborted. */
  lemma StaleWorkerReturns(s: State, i: nat, j: nat, account: string, interval: nat)
    requires Ownership(s) && CanRevive(s, i, account) && s.starts[i].Built? && j !in s.starts
    ensures var applied := Reapplied(s, j, account, interval);
            var r := Step(applied, Commit(i));
            && Serving(applied, account, interval) && applied.starts == s.starts
            && Serving(r, account, s.tasks[s.starts[i].task].interval) && r.starts == s.starts - {i}
            && r.handles[account] == s.starts[i].task && r.tasks[applied.handles[account]].stage == Aborted
  {
    ReappliedServes(s, j, account, interval);
  }

  /** If it commits between the change's stop and its start, the start is refused: the change
      leaves the old interval in place. */
  lemma StaleWorkerStays(s: State, i: nat, j: nat, account: string, interval: nat)
    requires Ownership(s) && CanRevive(s, i, account) && s.starts[i].Built? && j !in s.starts
    ensures var stopped := Step(Step(s, SetPreference(interval)), Stop(account));
            var landed := Step(stopped, Commit(i));
            && Step(landed, Reserve(j, account, Some(interval))) == landed && landed.starts == s.starts - {i}
            && landed.handles[account] == s.starts[i].task
            && Serving(landed, account, s.tasks[s.starts[i].task].interval)
  {
  }

  // ---------------------------------------------------------------- triggers

  lemma {:induction false} KindIsFixed(s: State, events: seq<Event>, t: nat)
    requires Consistent(s) && t in s.tasks
    ensures Consistent(Run(s, events))
    ensures t in Run(s, events).tasks && Run(s, events).tasks[t].kind == s.tasks[t].kind
  {
    if events == [] {
    } else {
      var n := |events| - 1;
      KindIsFixed(s, events[..n], t);
      StepKeepsConsistent(Run(s, events[..n]), events[n]);
      StepKeepsKind(Run(s, events[..n]), events[n], t);
    }
  }

  lemma StepKeepsKind(s: State, e: Event, t: nat)
    requires Consistent(s) && t in s.tasks
    ensures t in Step(s, e).tasks && Step(s, e).tasks[t].kind == s.tasks[t].kind
  {
  }

  /** In some run from here `t` is a working worker. */
  ghost predicate EverWorks(s: State, t: nat) { exists events: seq<Event> :: Working(Run(s, events), t) }

  lemma EverWorksIff(s: State, t: nat)
    requires Consistent(s) && t in s.tasks && s.tasks[t].stage.InLoop?
    ensures EverWorks(s, t) <==> s.tasks[t].kind.Worker?
  {
    if s.tasks[t].kind.Worker? {
      var none: seq<Event> := [];
      assert Run(s, none) == s;
    }
    forall events: seq<Event> ensures Working(Run(s, events), t) ==> s.tasks[t].kind.Worker? {
      KindIsFixed(s, events, t);
    }
  }

  /** A trigger that could be sent is received by the entry's task. That task is a working
      worker, now or ever, if and only if it is no placeholder; a placeholder drops the
      trigger, and then a start of the account is in flight. */
  lemma TriggerReachesWorkerIff(s: State, account: string)
    requires Ownership(s) && Listening(s, account)
    ensures var t := s.handles[account];
            && (EverWorks(s, t) <==> s.tasks[t].kind.Worker?)
            && (Working(s, t) <==> s.tasks[t].kind.Worker?)
            && (s.tasks[t].kind.Placeholder? ==> InFlight(s, s.tasks[t].start, account))
  {
    EverWorksIff(s, s.handles[account]);
  }

  /** A trigger between the lock sections of a start is accepted, so that no one-shot sync
      is started for it, and lost: its receiver is aborted, and the worker is another task. */
  lemma TriggerIsSwallowed(s: State, i: nat, account: string, interval: Option<nat>)
    requires Consistent(s) && i !in s.starts && !Occupied(s, account)
    ensures var reserved := Step(s, Reserve(i, account, interval));
            var r := Step(Step(Step(reserved, Trigger(account)), Build(i)), Commit(i));
            && Listening(reserved, account) && reserved.handles[account] == s.nextTask
            && r.tasks[s.nextTask].stage == Aborted
            && Working(r, r.handles[account]) && r.handles[account] != s.nextTask
  {
    var reserved := Step(s, Reserve(i, account, interval));
    assert reserved.handles[account] == s.nextTask && Listening(reserved, account);
    assert Step(reserved, Trigger(account)) == reserved;
  }

  // ---------------------------------------------------------------- the manager

  class SyncManager {
    var handles: map<string, nat>
    var tasks: map<nat, Task>
    var starts: map<nat, Start>
    var preferredInterval: nat
    var nextTask: nat

    function Abs(): State
      reads this
    {
      State(handles, tasks, starts, preferredInterval, nextTask)
    }

    constructor (preferred: nat)
      ensures Abs() == Initial(preferred)
    {
      handles, tasks, starts := map[], map[], map[];
      preferredInterval, nextTask := preferred, 0;
    }

    predicate IsFinished(id: nat)
      reads this
    {
      id in tasks && Done(tasks[id])
    }

    method SpawnTask(kind: Kind, account: string, start: nat, interval: nat) returns (id: nat)
      modifies this`tasks, this`nextTask
      ensures id == old(nextTask)
      ensures Abs() == Spawn(old(Abs()), kind, account, start, interval)
    {
      id := nextTask;
      tasks := tasks[id := Task(kind, account, start, interval, InLoop)];
      nextTask := nextTask + 1;
    }

    method Abort(id: nat)
      modifies this`tasks
      ensures tasks == AbortTask(old(tasks), id)
    {
      if id in tasks && !IsFinished(id) {
        tasks := tasks[id := tasks[id].(stage := Aborted)];
      }
    }

    /** The first lock section of a start. */
    method ReserveStart(start: nat, account: string, interval: Option<nat>) returns (reserved: bool)
      requires Consistent(Abs()) && start !in starts
      modifies this
      ensures reserved == Vacant(old(Abs()), account)
      ensures Abs() == Step(old(Abs()), Reserve(start, account, interval))
    {
      if account in handles {
        if !IsFinished(handles[account]) {
          return false;
        }
        handles := handles - {account};
      }
      var id := SpawnTask(Placeholder, account, start, 0);
      assert handles[account := id] == old(handles)[account := id];
      handles := handles[account := id];
      starts := starts[start := Reserved(account, interval)];
      return true;
    }

    /** Between the lock sections: the account lookup and the worker spawn, which may fail. */
    method BuildTask(start: nat, found: bool) returns (built: bool)
      requires start in starts && starts[start].Reserved?
      modifies this
      ensures built == found
      ensures Abs() == Step(old(Abs()), if found then Build(start) else Refuse(start))
    {
      var account := starts[start].account;
      if !found {
        starts := starts[start := Failing(account)];
        return false;
      }
      var id := SpawnTask(Worker, account, start, starts[start].interval.UnwrapOr(preferredInterval));
      starts := starts[start := Built(account, id)];
      return true;
    }

    /** The second lock section of a start. */
    method CommitStart(start: nat)
      requires start in starts && starts[start].Built?
      modifies this
      ensures Abs() == Step(old(Abs()), Commit(start))
    {
      var account, id := starts[start].account, starts[start].task;
      var previous := if account in handles then Some(handles[account]) else None;
      handles := handles[account := id];
      if previous.Some? {
        Abort(previous.value);
      }
      starts := starts - {start};
    }

    method RemovePlaceholderOf(start: nat)
      requires start in starts && starts[start].Failing?
      modifies this
      ensures Abs() == Step(old(Abs()), RemovePlaceholder(start))
    {
      var account := starts[start].account;
      if account in handles {
        var id := handles[account];
        handles := handles - {account};
        Abort(id);
      }
      starts := starts - {start};
    }

    /** A start nothing interrupts. */
    method StartAccount(start: nat, account: string, interval: Option<nat>, found: bool) returns (ok: bool)
      requires Consistent(Abs()) && start !in starts
      modifies this
      ensures ok == (found || !Vacant(old(Abs()), account))
      ensures Abs() == Started(old(Abs()), start, account, interval, found)
    {
      var reserved := ReserveStart(start, account, interval);
      if !reserved {
        return true;
      }
      ok := BuildTask(start, found);
      if ok {
        CommitStart(start);
      } else {
        RemovePlaceholderOf(start);
      }
    }

    /** The lock section of a trigger. */
    method SendTrigger(account: string) returns (shouldStart: bool)
      requires Consistent(Abs())
      modifies this`handles
      ensures shouldStart == !Listening(old(Abs()), account)
      ensures Abs() == Step(old(Abs()), Trigger(account))
    {
      if account !in handles {
        assert handles - {account} == handles;
        return true;
      }
      var id := handles[account];
      if IsFinished(id) {
        handles := handles - {account};
        return true;
      }
      var sendFailed := !tasks[id].stage.InLoop?;
      if sendFailed {
        handles := handles - {account};
      }
      return sendFailed;
    }

    /** A trigger nothing interrupts: one that cannot be delivered starts a one-shot sync. */
    method TriggerAccount(account: string, start: nat, found: bool) returns (ok: bool)
      requires Consistent(Abs()) && start !in starts
      modifies this
      ensures var s := old(Abs());
              if account in s.handles && s.tasks[s.handles[account]].stage == InLoop then ok && Abs() == s
              else ok == found && (if found then Serving(Abs(), account, 0) else account !in handles)
    {
      ghost var s := Abs();
      var shouldStart := SendTrigger(account);
      ok := true;
      if shouldStart {
        StepKeepsConsistent(s, Trigger(account));
        UninterruptedStart(Abs(), start, account, Some(0), found);
        ok := StartAccount(start, account, Some(0), found);
      }
    }

    method StopAccount(account: string) returns (found: bool)
      modifies this`handles, this`tasks
      ensures found == (account in old(handles))
      ensures Abs() == Step(old(Abs()), Stop(account))
    {
      if account !in handles {
        return false;
      }
      var id := handles[account];
      handles := handles - {account};
      Abort(id);
      return true;
    }

    /** Apply a preference with nothing else between its lock sections: afterwards exactly the
        accounts that can be started have an entry, each a listening worker with the new
        interval. Starts in flight stay in flight; PreferenceLastsIff says what they can do. */
    method ApplyRealtimePreference(interval: nat, accounts: seq<string>, found: string -> bool, firstStart: nat)
      returns (failures: seq<string>)
      requires Consistent(Abs()) && Distinct(accounts) && forall i :: i in starts ==> i < firstStart
      modifies this
      ensures Applied(Abs(), old(starts), if interval == 0 then [] else accounts, found, interval)
      ensures failures == if interval == 0 then [] else Keep(accounts, Refused(found))
    {
      preferredInterval := interval;
      StopAll();
      if interval == 0 {
        return [];
      }
      failures := StartAll(interval, accounts, found, firstStart);
    }

    method StartAll(interval: nat, accounts: seq<string>, found: string -> bool, firstStart: nat)
      returns (failures: seq<string>)
      requires Distinct(accounts) && Applied(Abs(), starts, [], found, interval)
      requires forall i :: i in starts ==> i < firstStart
      modifies this
      ensures Applied(Abs(), old(starts), accounts, found, interval) && failures == Keep(accounts, Refused(found))
    {
      failures := [];
      for i := 0 to |accounts|
        invariant Applied(Abs(), old(starts), accounts[..i], found, interval)
        invariant failures == Keep(accounts[..i], Refused(found))
      {
        var account := accounts[i];
        NextAccount(accounts, i, found);
        var ok := StartServing(firstStart + i, account, found, interval, accounts[..i]);
        if !ok {
          failures := failures + [account];
        }
      }
      assert accounts[..|accounts|] == accounts;
    }

    method StartServing(start: nat, account: string, found: string -> bool, interval: nat, ghost done: seq<string>)
      returns (ok: bool)
      requires Applied(Abs(), starts, done, found, interval) && account !in done && start !in starts
      modifies this
      ensures ok == found(account)
      ensures Applied(Abs(), old(starts), done + [account], found, interval)
    {
      AppliedStep(Abs(), starts, done, account, start, found, interval);
      ok := StartAccount(start, account, Some(interval), found(account));
    }

    method StopAll()
      requires Consistent(Abs())
      modifies this`handles, this`tasks
      ensures Consistent(Abs()) && handles == map[]
      ensures starts == old(starts) && preferredInterval == old(preferredInterval) && nextTask == old(nextTask)
    {
      var ids := handles.Keys;
      while ids != {}
        invariant Consistent(Abs()) && handles.Keys <= ids
        invariant starts == old(starts) && preferredInterval == old(preferredInterval) && nextTask == old(nextTask)
      {
        var id :| id in ids;
        ghost var before := Abs();
        var found := StopAccount(id);
        StepKeepsConsistent(before, Stop(id));
        ids := ids - {id};
      }
    }
  }

  lemma NextAccount(accounts: seq<string>, i: nat, found: string -> bool)
    requires Distinct(accounts) && i < |accounts|
    ensures accounts[i] !in accounts[..i] && accounts[..i + 1] == accounts[..i] + [accounts[i]]
    ensures Keep(accounts[..i + 1], Refused(found))
            == Keep(accounts[..i], Refused(found)) + if !found(accounts[i]) then [accounts[i]] else []
  {
    assert accounts[..i + 1] == accounts[..i] + [accounts[i]];
    KeepSnoc(accounts[..i], accounts[i], Refused(found));
  }

  function Refused(found: string -> bool): string -> bool { a => !found(a) }

  /** The preference has been applied to the accounts in `done`: only the starts in `starts`
      are in flight, and exactly those accounts that can be started are served. */
  ghost predicate Applied(s: State, starts: map<nat, Start>, done: seq<string>, found: string -> bool, interval: nat) {
    && Consistent(s) && s.starts == starts && s.preferred == interval
    && (forall a :: a in s.handles <==> a in done && found(a))
    && (forall a :: a in s.handles ==> Serving(s, a, interval))
  }

  lemma StartedKeepsConsistent(s: State, i: nat, account: string, interval: Option<nat>, found: bool)
    requires Consistent(s)
    ensures Consistent(Started(s, i, account, interval, found))
  {
    var reserved := Step(s, Reserve(i, account, interval));
    StepKeepsConsistent(s, Reserve(i, account, interval));
    if found {
      StepKeepsConsistent(reserved, Build(i));
      StepKeepsConsistent(Step(reserved, Build(i)), Commit(i));
    } else {
      StepKeepsConsistent(reserved, Refuse(i));
      StepKeepsConsistent(Step(reserved, Refuse(i)), RemovePlaceholder(i));
    }
  }

  lemma AppliedStep(s: State, starts: map<nat, Start>, done: seq<string>, account: string, i: nat,
                    found: string -> bool, interval: nat)
    requires Applied(s, starts, done, found, interval) && account !in done && i !in starts
    ensures !Occupied(s, account)
    ensures Applied(Started(s, i, account, Some(interval), found(account)), starts, done + [account], found, interval)
  {
    StartedKeepsConsistent(s, i, account, Some(interval), found(account));
    UninterruptedStart(s, i, account, Some(interval), found(account));
  }
}
