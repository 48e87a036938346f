/** When a Gmail sync counts no failure, so that its cursor moves on: exactly which faults
    and replies of the server stop it. A message that is gone by the time a poll fetches it
    does not. */
module GmailProgress {
  import opened Basics
  import opened Sequences
  import opened GmailHistory
  import opened GmailSync
  import opened GmailMirror
  import opened GmailInitial

  // ---------------------------------------------------------------- single steps

  /** The step counts a failure: a call it makes fails, or the database refuses the row. A
      write is only made if the lookup found the message, and the label has a folder. */
  ghost predicate Stumbles(rows: Rows, s: Step, folders: map<string, string>) {
    match s.op
    case FlagOp(c) => s.fault == LookupFault || (s.fault == WriteFault && Live(rows, c.message))
    case DeleteOp(m) => s.fault == LookupFault || (s.fault == WriteFault && Live(rows, m))
    case LabelOp(mu) =>
      mu.labelId !in HIDDEN
      && (s.fault == LookupFault || (s.fault == WriteFault && Live(rows, mu.message) && mu.labelId in folders))
    case StoreOp(m, labels, fallback) =>
      s.fault != NoFault || Live(rows, m) || !(FetchedRow(folders, labels, fallback).folders <= folders.Values)
  }

  lemma StepFailures(p: Phase, s: Step, folders: map<string, string>)
    ensures Do(p, s, folders).failures == p.failures + Count(Stumbles(p.rows, s, folders))
  {
  }

  /** The step at position `i` stumbles over what the steps before it have left. */
  ghost predicate StumblesAt(p: Phase, steps: seq<Step>, i: nat, folders: map<string, string>)
    requires i < |steps|
  {
    Stumbles(Run(p, steps[..i], folders).rows, steps[i], folders)
  }

  /** A run counts no failure if and only if none of its steps stumbles. */
  lemma {:induction false} RunCleanIff(p: Phase, steps: seq<Step>, folders: map<string, string>)
    ensures Run(p, steps, folders).failures == p.failures
            <==> forall i :: 0 <= i < |steps| ==> !StumblesAt(p, steps, i, folders)
  {
    if steps == [] {
    } else {
      var n := |steps| - 1;
      RunCleanIff(p, steps[..n], folders);
      StepFailures(Run(p, steps[..n], folders), steps[n], folders);
      forall i | 0 <= i < n ensures StumblesAt(p, steps[..n], i, folders) <==> StumblesAt(p, steps, i, folders) {
        assert steps[..n][..i] == steps[..i];
      }
      assert StumblesAt(p, steps, n, folders) <==> Stumbles(Run(p, steps[..n], folders).rows, steps[n], folders);
    }
  }

  // ---------------------------------------------------------------- fetching and storing

  /** What was fetched of the message can be stored if it is not held. */
  ghost predicate Storable(fetch: string -> FetchReply, store: string -> bool, fallback: string,
                           folders: map<string, string>, m: string)
  {
    fetch(m).Fetched? && !store(m) && FetchedRow(folders, fetch(m).labels, fallback).folders <= folders.Values
  }

  lemma StoreOneIff(p: Phase, x: string, fetch: string -> FetchReply, store: string -> bool, fallback: string,
                    folders: map<string, string>, m: string)
    ensures Live(StoreOne(p, x, fetch, store, fallback, folders).rows, m)
            <==> Live(p.rows, m) || (m == x && Storable(fetch, store, fallback, folders, m))
  {
  }

  lemma {:induction false} StoredIff(p: Phase, ids: seq<string>, fetch: string -> FetchReply, store: string -> bool,
                                     fallback: string, folders: map<string, string>, m: string)
    requires !Live(p.rows, m)
    ensures Live(Run(p, StoreSteps(ids, fetch, store, fallback), folders).rows, m)
            <==> m in ids && Storable(fetch, store, fallback, folders, m)
  {
    if ids == [] {
    } else {
      var n := |ids| - 1;
      assert ids == ids[..n] + [ids[n]];
      StoredIff(p, ids[..n], fetch, store, fallback, folders, m);
      StoreRunSnoc(p, ids[..n], ids[n], fetch, store, fallback, folders);
      StoreOneIff(Run(p, StoreSteps(ids[..n], fetch, store, fallback), folders),
                  ids[n], fetch, store, fallback, folders, m);
    }
  }

  /** Every fetched message is new, can be stored and comes once. */
  ghost predicate StoresWell(rows: Rows, ids: seq<string>, fetch: string -> FetchReply, store: string -> bool,
                             fallback: string, folders: map<string, string>, m: string)
  {
    fetch(m).Fetched? ==>
      !Live(rows, m) && Storable(fetch, store, fallback, folders, m) && multiset(ids)[m] == 1
  }

  lemma HeldAmongStores(p: Phase, ids: seq<string>, fetch: string -> FetchReply, store: string -> bool,
                        fallback: string, folders: map<string, string>, m: string)
    ensures Live(Run(p, StoreSteps(ids, fetch, store, fallback), folders).rows, m)
            <==> Live(p.rows, m) || (m in ids && Storable(fetch, store, fallback, folders, m))
  {
    if Live(p.rows, m) {
      HeldThroughStores(p, ids, fetch, store, fallback, folders, m);
    } else {
      StoredIff(p, ids, fetch, store, fallback, folders, m);
    }
  }

  lemma StoreOneFailures(p: Phase, x: string, fetch: string -> FetchReply, store: string -> bool, fallback: string,
                         folders: map<string, string>)
    ensures var r := StoreOne(p, x, fetch, store, fallback, folders);
            r.failures == p.failures
            + Count(fetch(x).Fetched? && (Live(p.rows, x) || !Storable(fetch, store, fallback, folders, x)))
  {
  }

  lemma CountSnoc(ids: seq<string>, x: string, m: string)
    ensures multiset(ids + [x])[m] == multiset(ids)[m] + Count(m == x)
    ensures m in ids <==> multiset(ids)[m] > 0
  {
    assert m in ids <==> m in multiset(ids);
  }

  lemma {:induction false} StoresCleanIff(p: Phase, ids: seq<string>, fetch: string -> FetchReply,
                                          store: string -> bool, fallback: string, folders: map<string, string>)
    ensures Run(p, StoreSteps(ids, fetch, store, fallback), folders).failures == p.failures
            <==> AllStoreWell(p.rows, ids, fetch, store, fallback, folders)
  {
    if ids == [] {
    } else {
      var n := |ids| - 1;
      var x := ids[n];
      var before := Run(p, StoreSteps(ids[..n], fetch, store, fallback), folders);
      assert ids == ids[..n] + [x];
      StoresCleanIff(p, ids[..n], fetch, store, fallback, folders);
      StoreRunSnoc(p, ids[..n], x, fetch, store, fallback, folders);
      StoreOneFailures(before, x, fetch, store, fallback, folders);
      HeldAmongStores(p, ids[..n], fetch, store, fallback, folders, x);
      StoresWellSnoc(p.rows, ids[..n], x, fetch, store, fallback, folders);
    }
  }

  lemma StoresWellSnoc(rows: Rows, ids: seq<string>, x: string, fetch: string -> FetchReply, store: string -> bool,
                       fallback: string, folders: map<string, string>)
    ensures AllStoreWell(rows, ids + [x], fetch, store, fallback, folders)
            <==> AllStoreWell(rows, ids, fetch, store, fallback, folders)
                 && (fetch(x).Fetched? ==> !Live(rows, x) && x !in ids && Storable(fetch, store, fallback, folders, x))
  {
    forall m ensures multiset(ids + [x])[m] == multiset(ids)[m] + Count(m == x)
                     && (m in ids <==> multiset(ids)[m] > 0)
    {
      CountSnoc(ids, x, m);
    }
    if AllStoreWell(rows, ids + [x], fetch, store, fallback, folders) {
      assert x in ids + [x];
      forall m | m in ids ensures StoresWell(rows, ids, fetch, store, fallback, folders, m) {
        assert m in ids + [x] && StoresWell(rows, ids + [x], fetch, store, fallback, folders, m);
      }
      assert StoresWell(rows, ids + [x], fetch, store, fallback, folders, x);
    }
  }

  /** No fetch fails: a missing message only counts if `count404` says so. */
  lemma {:induction false} FetchesCleanIff(ids: seq<string>, fetch: string -> FetchReply, count404: bool)
    ensures FetchFailures(ids, fetch, count404) == 0 <==> AllReplied(ids, fetch, count404)
  {
    if ids == [] {
    } else {
      var n := |ids| - 1;
      FetchesCleanIff(ids[..n], fetch, count404);
      assert forall m :: m in ids <==> m in ids[..n] || m == ids[n];
    }
  }

  /** The message is fetched, new, can be stored and comes once; or it is gone, which only a
      poll passes over. */
  ghost predicate FetchesWell(rows: Rows, ids: seq<string>, fetch: string -> FetchReply, store: string -> bool,
                              fallback: string, passesGone: bool, folders: map<string, string>, m: string)
  {
    || (fetch(m).NotFound? && passesGone)
    || (!Live(rows, m) && Storable(fetch, store, fallback, folders, m) && multiset(ids)[m] == 1)
  }

  ghost predicate AllStoreWell(rows: Rows, ids: seq<string>, fetch: string -> FetchReply, store: string -> bool,
                               fallback: string, folders: map<string, string>)
  {
    forall m :: m in ids ==> StoresWell(rows, ids, fetch, store, fallback, folders, m)
  }

  ghost predicate AllReplied(ids: seq<string>, fetch: string -> FetchReply, count404: bool) {
    forall m :: m in ids ==> fetch(m).Fetched? || (fetch(m).NotFound? && !count404)
  }

  ghost predicate AllFetchWell(rows: Rows, ids: seq<string>, fetch: string -> FetchReply, store: string -> bool,
                               fallback: string, passesGone: bool, folders: map<string, string>)
  {
    forall m :: m in ids ==> FetchesWell(rows, ids, fetch, store, fallback, passesGone, folders, m)
  }

  lemma AllFetchWellIff(rows: Rows, ids: seq<string>, fetch: string -> FetchReply, store: string -> bool,
                        fallback: string, count404: bool, folders: map<string, string>)
    ensures AllFetchWell(rows, ids, fetch, store, fallback, !count404, folders)
            <==> AllReplied(ids, fetch, count404) && AllStoreWell(rows, ids, fetch, store, fallback, folders)
  {
    forall m ensures FetchesWell(rows, ids, fetch, store, fallback, !count404, folders, m) <==>
                       && (fetch(m).Fetched? || (fetch(m).NotFound? && !count404))
                       && StoresWell(rows, ids, fetch, store, fallback, folders, m)
    {
    }
  }

  lemma FetchAndStoreCleanIff(p: Phase, ids: seq<string>, fetch: string -> FetchReply, store: string -> bool,
                              fallback: string, count404: bool, folders: map<string, string>)
    ensures p.failures <= FetchAndStorePhase(p, ids, fetch, store, fallback, count404, folders).failures
    ensures FetchAndStorePhase(p, ids, fetch, store, fallback, count404, folders).failures == p.failures
            <==> AllFetchWell(p.rows, ids, fetch, store, fallback, !count404, folders)
  {
    var missed := FetchFailures(ids, fetch, count404);
    var end := Run(Phase(p.rows, p.failures + missed), StoreSteps(ids, fetch, store, fallback), folders);
    FetchesCleanIff(ids, fetch, count404);
    StoresCleanIff(Phase(p.rows, p.failures + missed), ids, fetch, store, fallback, folders);
    AllFetchWellIff(p.rows, ids, fetch, store, fallback, count404, folders);
    assert p.failures + missed <= end.failures;
  }

  lemma {:induction false} KeepCount(s: seq<string>, p: string -> bool, x: string)
    requires p(x)
    ensures multiset(Keep(s, p))[x] == multiset(s)[x]
  {
    if s == [] {
    } else {
      KeepCount(s[1..], p, x);
      assert s == [s[0]] + s[1..];
    }
  }

  // ---------------------------------------------------------------- a whole poll

  lemma FetchFailuresGrow(p: Phase, ids: seq<string>, fetch: string -> FetchReply, faults: Faults,
                          folders: map<string, string>)
    ensures p.failures <= FetchPhase(p, ids, fetch, faults, folders).failures
  {
  }

  /** Nothing stops the poll's fetches: the lookups succeed, and each arrival that is not held
      is gone, or is fetched, can be stored and is listed once. */
  ghost predicate FetchesClean(rows: Rows, ids: seq<string>, fetch: string -> FetchReply, faults: Faults,
                               folders: map<string, string>)
  {
    ids == [] ||
    (&& !faults.existing && !faults.incomplete
     && forall m :: m in ids && !Live(rows, m) ==>
          || fetch(m) == NotFound
          || (Storable(fetch, faults.store, InboxFolder(folders), folders, m) && multiset(ids)[m] == 1))
  }

  lemma FetchPhaseCleanIff(p: Phase, ids: seq<string>, fetch: string -> FetchReply, faults: Faults,
                           folders: map<string, string>)
    ensures FetchPhase(p, ids, fetch, faults, folders).failures == p.failures
            <==> FetchesClean(p.rows, ids, fetch, faults, folders)
  {
    if ids != [] {
      var wanted := ToFetch(ids, p.rows, faults.existing);
      var q := Phase(p.rows, p.failures + Count(faults.existing) + Count(faults.incomplete));
      FetchAndStoreCleanIff(q, wanted, fetch, faults.store, InboxFolder(folders), false, folders);
      if !faults.existing { WantedClean(p.rows, ids, fetch, faults, folders, wanted); }
    }
  }

  lemma WantedClean(rows: Rows, ids: seq<string>, fetch: string -> FetchReply, faults: Faults,
                    folders: map<string, string>, wanted: seq<string>)
    requires ids != [] && !faults.existing && wanted == ToFetch(ids, rows, false)
    ensures FetchesClean(rows, ids, fetch, faults, folders) <==>
              !faults.incomplete
              && AllFetchWell(rows, wanted, fetch, faults.store, InboxFolder(folders), true, folders)
  {
    forall m | m in wanted ensures multiset(wanted)[m] == multiset(ids)[m] {
      KeepCount(ids, m => false || !Live(rows, m), m);
    }
  }

  /** None of the poll's local steps stumbles. */
  ghost predicate LocalClean(rows: Rows, entries: seq<Entry>, faults: Faults, folders: map<string, string>) {
    forall i :: 0 <= i < |LocalSteps(entries, faults)| ==>
      !StumblesAt(Phase(rows, 0), LocalSteps(entries, faults), i, folders)
  }

  /** Main result: exactly when a poll counts no failure. */
  lemma PollCleanIff(rows: Rows, entries: seq<Entry>, fetch: string -> FetchReply, faults: Faults,
                     folders: map<string, string>)
    ensures PollPhase(rows, entries, fetch, faults, folders).failures == 0 <==>
              && LocalClean(rows, entries, faults, folders)
              && FetchesClean(AfterLocal(rows, entries, faults, folders).rows, SurvivingAdditions(entries),
                              fetch, faults, folders)
  {
    var mid := AfterLocal(rows, entries, faults, folders);
    RunCleanIff(Phase(rows, 0), LocalSteps(entries, faults), folders);
    FetchFailuresGrow(mid, SurvivingAdditions(entries), fetch, faults, folders);
    FetchPhaseCleanIff(mid, SurvivingAdditions(entries), fetch, faults, folders);
  }

  /** No call of the local steps fails. */
  ghost predicate NoLocalFault(faults: Faults) {
    forall i :: faults.flag(i).NoFault? && faults.delete(i).NoFault? && faults.labels(i).NoFault?
  }

  lemma FaultlessOrdered(flags: seq<FlagChange>, deleted: seq<string>, c: seq<Mutation>, faults: Faults)
    requires NoLocalFault(faults)
    ensures var steps := OrderedSteps(flags, deleted, c, faults);
            forall i :: 0 <= i < |steps| ==> steps[i].fault.NoFault? && !steps[i].op.StoreOp?
  {
  }

  /** If no call of the local steps fails, the replies to the fetches decide. */
  lemma FaultlessPollIsCleanIff(rows: Rows, entries: seq<Entry>, fetch: string -> FetchReply, faults: Faults,
                                folders: map<string, string>)
    requires NoLocalFault(faults)
    ensures PollPhase(rows, entries, fetch, faults, folders).failures == 0 <==>
              FetchesClean(AfterLocal(rows, entries, faults, folders).rows, SurvivingAdditions(entries),
                           fetch, faults, folders)
  {
    FaultlessLocal(rows, entries, faults, folders);
    PollCleanIff(rows, entries, fetch, faults, folders);
  }

  lemma FaultlessLocal(rows: Rows, entries: seq<Entry>, faults: Faults, folders: map<string, string>)
    requires NoLocalFault(faults)
    ensures LocalClean(rows, entries, faults, folders)
  {
    var c := Compact(Events(entries));
    FaultlessOrdered(FlagsOf(c), DeletedIds(entries), c, faults);
  }

  lemma NoSurvivors(entries: seq<Entry>)
    requires AddedIds(entries) == []
    ensures SurvivingAdditions(entries) == []
  {
    NoElements(SurvivingAdditions(entries));
  }

  /** A poll without arrivals in which no store call fails is clean. */
  lemma FaultlessPollIsClean(rows: Rows, entries: seq<Entry>, fetch: string -> FetchReply, faults: Faults,
                             folders: map<string, string>)
    requires AddedIds(entries) == []
    requires forall i :: faults.flag(i).NoFault? && faults.delete(i).NoFault? && faults.labels(i).NoFault?
    ensures PollPhase(rows, entries, fetch, faults, folders).failures == 0
  {
    NoSurvivors(entries);
    FaultlessPollIsCleanIff(rows, entries, fetch, faults, folders);
  }

  /** Exactly when a poll moves the cursor, over everything the history held; otherwise the
      next poll meets the same history again. */
  lemma PollAdvancesIff(w: World, p: Poll, folders: map<string, string>)
    ensures var r := After(w, Polls(p), folders);
            if p.announced && p.saved && LocalClean(w.rows, p.entries, p.faults, folders)
               && FetchesClean(AfterLocal(w.rows, p.entries, p.faults, folders).rows, SurvivingAdditions(p.entries),
                               p.fetch, p.faults, folders)
            then r.synced == w.synced + p.entries && r.pending == p.tail
            else r.synced == w.synced && r.pending == p.entries + p.tail
  {
    var end, fallbacks := AfterPoll(w, p, folders);
    PollCleanIff(w.rows, p.entries, p.fetch, p.faults, folders);
    SettledWorld(w, p, end, fallbacks);
  }

  lemma SettledWorld(w: World, p: Poll, end: Phase, fallbacks: set<Pair>)
    ensures var r := Settle(w, p, end, fallbacks);
            if p.announced && p.saved && end.failures == 0 then r.synced == w.synced + p.entries && r.pending == p.tail
            else r.synced == w.synced && r.pending == p.entries + p.tail
  {
  }

  /** The worker's own poll: its cursor moves exactly then. */
  method PollAdvances(worker: GmailSyncWorker, batch: Batch, fetch: string -> FetchReply, faults: Faults, saved: bool)
    modifies worker
    ensures var rows, entries, folders := old(worker.rows), batch.entries, worker.folders;
            worker.cursor ==
              if batch.historyId.Some? && saved && LocalClean(rows, entries, faults, folders)
                 && FetchesClean(AfterLocal(rows, entries, faults, folders).rows, SurvivingAdditions(entries),
                                 fetch, faults, folders)
              then batch.historyId else old(worker.cursor)
  {
    PollCleanIff(worker.rows, batch.entries, fetch, faults, worker.folders);
    ghost var end := worker.PollHistory(batch, fetch, faults, saved);
  }

  // ---------------------------------------------------------------- an initial sync

  lemma {:induction false} AddsCleanIff(p: Phase, ids: seq<string>, labelId: string, add: nat -> bool,
                                        folders: map<string, string>)
    requires ValidFolders(folders) && labelId in folders && labelId !in HIDDEN
    requires forall m :: m in ids ==> Live(p.rows, m)
    ensures Run(p, AddSteps(ids, labelId, add), folders).failures == p.failures
            <==> forall i :: 0 <= i < |ids| ==> !add(i)
  {
    if ids == [] {
    } else {
      var n := |ids| - 1;
      assert AddSteps(ids, labelId, add)[..n] == AddSteps(ids[..n], labelId, add);
      AddsCleanIff(p, ids[..n], labelId, add, folders);
      AddsRun(p, ids[..n], labelId, add, folders, ids[n], labelId);
      StepFailures(Run(p, AddSteps(ids[..n], labelId, add), folders), AddSteps(ids, labelId, add)[n], folders);
    }
  }

  /** Every listed message that is held joins the folder. */
  ghost predicate HeldJoin(rows: Rows, reply: LabelReply)
    requires reply.listing.Some?
  {
    reply.existing || forall i :: 0 <= i < |Keep(reply.listing.value, m => Live(rows, m))| ==> !reply.add(i)
  }

  /** Every other one is fetched, can be stored and is listed once. */
  ghost predicate OthersFetched(rows: Rows, refs: seq<string>, reply: LabelReply, fallback: string,
                                folders: map<string, string>)
  {
    forall m :: m in refs && (reply.existing || !Live(rows, m)) ==>
      !Live(rows, m) && Storable(reply.fetch, reply.store, fallback, folders, m) && multiset(refs)[m] == 1
  }

  /** Nothing stops the sync of one label. */
  ghost predicate LabelClean(rows: Rows, labelId: string, reply: LabelReply, folders: map<string, string>) {
    labelId !in folders ||
    (&& reply.listing.Some? && HeldJoin(rows, reply)
     && OthersFetched(rows, reply.listing.value, reply, folders[labelId], folders))
  }

  lemma SyncLabelCleanIff(p: Phase, labelId: string, reply: LabelReply, folders: map<string, string>)
    requires ValidFolders(folders) && labelId !in HIDDEN
    ensures p.failures <= SyncLabelPhase(p, labelId, reply, folders).failures
    ensures SyncLabelPhase(p, labelId, reply, folders).failures == p.failures
            <==> LabelClean(p.rows, labelId, reply, folders)
  {
    if labelId in folders && reply.listing.Some? {
      var wanted := ToFetch(reply.listing.value, p.rows, reply.existing);
      var added := AfterAdds(p, labelId, reply, folders);
      HeldJoinIff(p, labelId, reply, folders, added);
      FetchAndStoreCleanIff(added, wanted, reply.fetch, reply.store, folders[labelId], true, folders);
      WantedOfLabel(p.rows, added.rows, reply.listing.value, reply, folders[labelId], folders, wanted);
    }
  }

  lemma HeldJoinIff(p: Phase, labelId: string, reply: LabelReply, folders: map<string, string>, added: Phase)
    requires ValidFolders(folders) && labelId !in HIDDEN && labelId in folders && reply.listing.Some?
    requires added == AfterAdds(p, labelId, reply, folders)
    ensures p.failures <= added.failures && (added.failures == p.failures <==> HeldJoin(p.rows, reply))
    ensures forall m :: Live(added.rows, m) <==> Live(p.rows, m)
  {
    AddsCleanIff(p, Held(p, reply), labelId, reply.add, folders);
    HeldOf(p, reply);
    forall m ensures Live(added.rows, m) <==> Live(p.rows, m) {
      AddsRun(p, Held(p, reply), labelId, reply.add, folders, m, UNREAD);
    }
  }

  lemma WantedOfLabel(rows: Rows, added: Rows, refs: seq<string>, reply: LabelReply, fallback: string,
                      folders: map<string, string>, wanted: seq<string>)
    requires wanted == ToFetch(refs, rows, reply.existing) && forall m :: Live(added, m) <==> Live(rows, m)
    ensures AllFetchWell(added, wanted, reply.fetch, reply.store, fallback, false, folders)
            <==> OthersFetched(rows, refs, reply, fallback, folders)
  {
    forall m | m in wanted ensures multiset(wanted)[m] == multiset(refs)[m] {
      KeepCount(refs, x => reply.existing || !Live(rows, x), m);
    }
  }

  lemma HeldOf(p: Phase, reply: LabelReply)
    requires reply.listing.Some?
    ensures Held(p, reply) == if reply.existing then [] else Keep(reply.listing.value, m => Live(p.rows, m))
  {
    if reply.existing {
      NoElements(Held(p, reply));
    } else {
      SameKeep(reply.listing.value, m => !reply.existing && Live(p.rows, m), m => Live(p.rows, m));
    }
  }

  lemma {:induction false} SameKeep(s: seq<string>, p: string -> bool, q: string -> bool)
    requires forall x :: p(x) == q(x)
    ensures Keep(s, p) == Keep(s, q)
  {
    if s == [] {
    } else {
      SameKeep(s[1..], p, q);
    }
  }

  /** The labels whose sync counts no failure, each over what the labels before it have left. */
  ghost predicate LabelsClean(p: Phase, labels: seq<string>, replies: nat -> LabelReply, folders: map<string, string>) {
    labels != [] ==>
      var n := |labels| - 1;
      && LabelsClean(p, labels[..n], replies, folders)
      && LabelClean(InitialPhase(p, labels[..n], replies, folders).rows, labels[n], replies(n), folders)
  }

  /** Exactly when an initial sync counts no failure, so that its cursor is stored. */
  lemma {:induction false} InitialCleanIff(p: Phase, labels: seq<string>, replies: nat -> LabelReply,
                                           folders: map<string, string>)
    requires ValidFolders(folders) && forall l :: l in labels ==> l !in HIDDEN
    ensures p.failures <= InitialPhase(p, labels, replies, folders).failures
    ensures InitialPhase(p, labels, replies, folders).failures == p.failures
            <==> LabelsClean(p, labels, replies, folders)
  {
    if labels == [] {
    } else {
      var n := |labels| - 1;
      InitialCleanIff(p, labels[..n], replies, folders);
      SyncLabelCleanIff(InitialPhase(p, labels[..n], replies, folders), labels[n], replies(n), folders);
    }
  }
}
