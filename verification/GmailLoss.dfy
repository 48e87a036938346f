/** When label mutations lose a held Gmail message. Leaving its last folder
    soft-deletes a message locally, and later label events skip it, so the order of
    the compacted mutations matters to the store although it does not to label sets. */
module GmailLoss {
  import opened Basics
  import opened Sequences
  import opened GmailHistory
  import opened GmailSync
  import opened GmailMirror
  import opened GmailProgress

  /** The step removes `m` from a folder. */
  predicate Removes(mu: Mutation, m: string, folders: map<string, string>) {
    mu.message == m && mu.labelId !in HIDDEN && mu.labelId in folders && mu.action.Remove?
  }

  /** The folders of `m` if nothing ever deleted it. */
  ghost function FoldersAfter(start: set<string>, mutations: seq<Mutation>, m: string,
                              folders: map<string, string>): set<string>
  {
    if mutations == [] then start else
      var mu := mutations[|mutations| - 1];
      var before := FoldersAfter(start, mutations[..|mutations| - 1], m, folders);
      if mu.message != m || mu.labelId in HIDDEN || mu.labelId !in folders then before
      else if mu.action.Add? then before + {folders[mu.labelId]}
      else before - {folders[mu.labelId]}
  }

  /** The guard of the branch that deletes: some removal leaves the message no folder. */
  ghost predicate EverHomeless(start: set<string>, mutations: seq<Mutation>, m: string, folders: map<string, string>) {
    exists k :: 0 <= k < |mutations| && Removes(mutations[k], m, folders)
                && FoldersAfter(start, mutations[..k + 1], m, folders) == {}
  }

  lemma HomelessSnoc(start: set<string>, mutations: seq<Mutation>, m: string, folders: map<string, string>)
    requires mutations != []
    ensures var n := |mutations| - 1;
            EverHomeless(start, mutations, m, folders) <==>
              EverHomeless(start, mutations[..n], m, folders)
              || (Removes(mutations[n], m, folders) && FoldersAfter(start, mutations, m, folders) == {})
  {
    var n := |mutations| - 1;
    assert mutations[..n + 1] == mutations;
    forall k | 0 <= k < n ensures mutations[..n][..k + 1] == mutations[..k + 1] && mutations[..n][k] == mutations[k] {}
    if EverHomeless(start, mutations, m, folders) {
      var k :| 0 <= k < |mutations| && Removes(mutations[k], m, folders)
               && FoldersAfter(start, mutations[..k + 1], m, folders) == {};
      if k < n { assert mutations[..n][..k + 1] == mutations[..k + 1]; }
    }
    if EverHomeless(start, mutations[..n], m, folders) {
      var k :| 0 <= k < n && Removes(mutations[..n][k], m, folders)
               && FoldersAfter(start, mutations[..n][..k + 1], m, folders) == {};
      assert mutations[..n][..k + 1] == mutations[..k + 1];
    }
  }

  /** One clean label step on a message. */
  lemma CleanLabelStep(p: Phase, mu: Mutation, fault: Fault, folders: map<string, string>, m: string)
    requires Do(p, Step(LabelOp(mu), fault), folders).failures == p.failures
    ensures var r := Do(p, Step(LabelOp(mu), fault), folders).rows;
            && (!Live(p.rows, m) ==> !Live(r, m))
            && (Live(p.rows, m) ==>
                  var after := FoldersAfter(p.rows[m].folders, [mu], m, folders);
                  && (Live(r, m) <==> !(Removes(mu, m, folders) && after == {}))
                  && (Live(r, m) ==> r[m].folders == after))
  {
    assert [mu][..0] == [];
  }

  lemma FoldersAfterSnoc(start: set<string>, mutations: seq<Mutation>, m: string, folders: map<string, string>)
    requires mutations != []
    ensures FoldersAfter(start, mutations, m, folders)
         == FoldersAfter(FoldersAfter(start, mutations[..|mutations| - 1], m, folders),
                         [mutations[|mutations| - 1]], m, folders)
  {
    assert [mutations[|mutations| - 1]][..0] == [];
  }

  /** Exactly when a held message survives a clean run of label mutations. */
  lemma {:induction false} SurvivesLabels(p: Phase, mutations: seq<Mutation>, faults: nat -> Fault,
                                          folders: map<string, string>, m: string)
    requires Live(p.rows, m)
    requires Run(p, LabelSteps(mutations, faults), folders).failures == p.failures
    ensures var r := Run(p, LabelSteps(mutations, faults), folders).rows;
            && (Live(r, m) <==> !EverHomeless(p.rows[m].folders, mutations, m, folders))
            && (Live(r, m) ==> r[m].folders == FoldersAfter(p.rows[m].folders, mutations, m, folders))
  {
    if mutations == [] {
    } else {
      var n := |mutations| - 1;
      assert LabelSteps(mutations, faults)[..n] == LabelSteps(mutations[..n], faults);
      var before := Run(p, LabelSteps(mutations[..n], faults), folders);
      SurvivesLabels(p, mutations[..n], faults, folders, m);
      CleanLabelStep(before, mutations[n], faults(n), folders, m);
      HomelessSnoc(p.rows[m].folders, mutations, m, folders);
      FoldersAfterSnoc(p.rows[m].folders, mutations, m, folders);
    }
  }

  /** The mutations whose step does not fail. */
  ghost function Effective(mutations: seq<Mutation>, faults: nat -> Fault): seq<Mutation> {
    if mutations == [] then [] else
      var n := |mutations| - 1;
      Effective(mutations[..n], faults) + if faults(n).NoFault? then [mutations[n]] else []
  }

  /** The message is held exactly if these mutations never leave it without a folder. */
  ghost predicate HeldBy(rows: Rows, start: set<string>, mutations: seq<Mutation>, m: string,
                         folders: map<string, string>)
  {
    && (Live(rows, m) <==> !EverHomeless(start, mutations, m, folders))
    && (Live(rows, m) ==> rows[m].folders == FoldersAfter(start, mutations, m, folders))
  }

  lemma HeldByStep(p: Phase, mu: Mutation, folders: map<string, string>, start: set<string>,
                   effective: seq<Mutation>, m: string)
    requires HeldBy(p.rows, start, effective, m, folders)
    ensures HeldBy(Do(p, Step(LabelOp(mu), NoFault), folders).rows, start, effective + [mu], m, folders)
  {
    var all := effective + [mu];
    assert all[..|all| - 1] == effective;
    HomelessSnoc(start, all, m, folders);
    FoldersAfterSnoc(start, all, m, folders);
    CleanLabelStep(p, mu, NoFault, folders, m);
  }

  lemma FaultyLabelStep(p: Phase, mu: Mutation, fault: Fault, folders: map<string, string>)
    requires fault != NoFault
    ensures Do(p, Step(LabelOp(mu), fault), folders).rows == p.rows
  {
  }

  /** Whatever fails: a held message survives exactly if the mutations that take effect never
      leave it without a folder. */
  lemma {:induction false} SurvivesFaultyLabels(p: Phase, mutations: seq<Mutation>, faults: nat -> Fault,
                                                folders: map<string, string>, m: string)
    requires Live(p.rows, m)
    ensures HeldBy(Run(p, LabelSteps(mutations, faults), folders).rows, p.rows[m].folders,
                   Effective(mutations, faults), m, folders)
  {
    if mutations == [] {
    } else {
      var n := |mutations| - 1;
      assert LabelSteps(mutations, faults)[..n] == LabelSteps(mutations[..n], faults);
      var before := Run(p, LabelSteps(mutations[..n], faults), folders);
      SurvivesFaultyLabels(p, mutations[..n], faults, folders, m);
      if faults(n).NoFault? {
        HeldByStep(before, mutations[n], folders, p.rows[m].folders, Effective(mutations[..n], faults), m);
      } else {
        FaultyLabelStep(before, mutations[n], faults(n), folders);
        assert Effective(mutations, faults) == Effective(mutations[..n], faults);
      }
    }
  }

  /** Label sets do not depend on the order of two mutations, but holding the message
      does. Taken out of its only folder first, it is lost; ... */
  lemma LeaveFirstLoses(p: Phase, faults: nat -> Fault, folders: map<string, string>, m: string, a: string, b: string)
    requires ValidFolders(folders) && a != b && a in folders && b in folders && a !in HIDDEN && b !in HIDDEN
    requires Live(p.rows, m) && p.rows[m].folders == {folders[a]}
    requires Run(p, LabelSteps([Mutation(m, a, Remove), Mutation(m, b, Add)], faults), folders).failures == p.failures
    ensures !Live(Run(p, LabelSteps([Mutation(m, a, Remove), Mutation(m, b, Add)], faults), folders).rows, m)
  {
    var ms := [Mutation(m, a, Remove), Mutation(m, b, Add)];
    var start := {folders[a]};
    assert ms[..0 + 1] == [ms[0]] && [ms[0]][..0] == [];
    assert FoldersAfter(start, [ms[0]], m, folders) == {};
    assert Removes(ms[0], m, folders) && FoldersAfter(start, ms[..0 + 1], m, folders) == {};
    SurvivesLabels(p, ms, faults, folders, m);
  }

  /** ... put into the other folder first, it is kept there. */
  lemma JoinFirstKeeps(p: Phase, faults: nat -> Fault, folders: map<string, string>, m: string, a: string, b: string)
    requires ValidFolders(folders) && a != b && a in folders && b in folders && a !in HIDDEN && b !in HIDDEN
    requires Live(p.rows, m) && p.rows[m].folders == {folders[a]}
    requires Run(p, LabelSteps([Mutation(m, b, Add), Mutation(m, a, Remove)], faults), folders).failures == p.failures
    ensures var r := Run(p, LabelSteps([Mutation(m, b, Add), Mutation(m, a, Remove)], faults), folders).rows;
            Live(r, m) && r[m].folders == {folders[b]}
  {
    var ms := [Mutation(m, b, Add), Mutation(m, a, Remove)];
    var start := {folders[a]};
    assert ms[..0 + 1] == [ms[0]] && [ms[0]][..0] == [] && ms[..1 + 1] == ms && ms[..1] == [ms[0]];
    assert FoldersAfter(start, [ms[0]], m, folders) == {folders[a], folders[b]};
    assert FoldersAfter(start, ms, m, folders) == {folders[b]};
    assert !Removes(ms[0], m, folders);
    SurvivesLabels(p, ms, faults, folders, m);
  }

  // ---------------------------------------------------------------- surviving a whole poll

  /** Some deletion of the message does not fail. */
  ghost predicate Reaped(deleted: seq<string>, faults: nat -> Fault, m: string) {
    exists k :: 0 <= k < |deleted| && deleted[k] == m && faults(k).NoFault?
  }

  lemma {:induction false} FlagsSpare(p: Phase, flags: seq<FlagChange>, faults: nat -> Fault,
                                      folders: map<string, string>, m: string)
    requires Live(p.rows, m)
    ensures var r := Run(p, FlagSteps(flags, faults), folders).rows;
            Live(r, m) && r[m].folders == p.rows[m].folders
  {
    if flags == [] {
    } else {
      var n := |flags| - 1;
      assert FlagSteps(flags, faults)[..n] == FlagSteps(flags[..n], faults);
      FlagsSpare(p, flags[..n], faults, folders, m);
    }
  }

  lemma {:induction false} DeletionsReap(p: Phase, deleted: seq<string>, faults: nat -> Fault,
                                         folders: map<string, string>, m: string)
    requires Live(p.rows, m)
    ensures var r := Run(p, DeleteSteps(deleted, faults), folders).rows;
            && (Live(r, m) <==> !Reaped(deleted, faults, m))
            && (Live(r, m) ==> r[m].folders == p.rows[m].folders)
  {
    if deleted == [] {
    } else {
      var n := |deleted| - 1;
      assert DeleteSteps(deleted, faults)[..n] == DeleteSteps(deleted[..n], faults);
      DeletionsReap(p, deleted[..n], faults, folders, m);
      ReapedSnoc(deleted, faults, m);
    }
  }

  lemma ReapedSnoc(deleted: seq<string>, faults: nat -> Fault, m: string)
    requires deleted != []
    ensures var n := |deleted| - 1;
            Reaped(deleted, faults, m) <==> Reaped(deleted[..n], faults, m) || (deleted[n] == m && faults(n).NoFault?)
  {
    var n := |deleted| - 1;
    assert forall k :: 0 <= k < n ==> deleted[..n][k] == deleted[k];
  }

  /** Exactly which held messages a poll's local steps leave, and with which folders. */
  lemma OrderedSurvives(p: Phase, flags: seq<FlagChange>, deleted: seq<string>, mutations: seq<Mutation>,
                        faults: Faults, folders: map<string, string>, m: string)
    requires Live(p.rows, m)
    ensures var r := Run(p, OrderedSteps(flags, deleted, mutations, faults), folders).rows;
            var effective := Effective(mutations, faults.labels);
            && (Live(r, m) <==>
                  !Reaped(deleted, faults.delete, m) && !EverHomeless(p.rows[m].folders, effective, m, folders))
            && (Live(r, m) ==> r[m].folders == FoldersAfter(p.rows[m].folders, effective, m, folders))
  {
    LocalRunInOrder(p, flags, deleted, mutations, faults, folders);
    var flagged := Run(p, FlagSteps(flags, faults.flag), folders);
    var front := Run(flagged, DeleteSteps(deleted, faults.delete), folders);
    FlagsSpare(p, flags, faults.flag, folders, m);
    DeletionsReap(flagged, deleted, faults.delete, folders, m);
    if Live(front.rows, m) {
      SurvivesFaultyLabels(front, mutations, faults.labels, folders, m);
    } else {
      RunStaysDead(front, LabelSteps(mutations, faults.labels), folders, m);
    }
  }

  /** The fetch phase leaves held messages as they are, and adds exactly the new ones it
      can store. */
  lemma FetchPhaseHolds(p: Phase, ids: seq<string>, fetch: string -> FetchReply, faults: Faults,
                        folders: map<string, string>, m: string)
    ensures var r := FetchPhase(p, ids, fetch, faults, folders).rows;
            && (Live(r, m) <==>
                  Live(p.rows, m) || (m in ids && Storable(fetch, faults.store, InboxFolder(folders), folders, m)))
            && (Live(p.rows, m) ==> r[m] == p.rows[m])
  {
    if ids != [] {
      var wanted := ToFetch(ids, p.rows, faults.existing);
      var q := Phase(p.rows, p.failures + Count(faults.existing) + Count(faults.incomplete)
                             + FetchFailures(wanted, fetch, false));
      if Live(p.rows, m) {
        HeldThroughStores(q, wanted, fetch, faults.store, InboxFolder(folders), folders, m);
      } else {
        StoredIff(q, wanted, fetch, faults.store, InboxFolder(folders), folders, m);
      }
    }
  }

  /** The poll's mutations that take effect leave the message without a folder. */
  ghost predicate Uprooted(start: set<string>, entries: seq<Entry>, faults: Faults, folders: map<string, string>,
                           m: string)
  {
    EverHomeless(start, Effective(Compact(Events(entries)), faults.labels), m, folders)
  }

  /** The message arrives in the poll's history and can be stored. */
  ghost predicate Restored(entries: seq<Entry>, fetch: string -> FetchReply, faults: Faults,
                           folders: map<string, string>, m: string)
  {
    m in SurvivingAdditions(entries) && Storable(fetch, faults.store, InboxFolder(folders), folders, m)
  }

  /** Exactly which held messages a poll leaves, whatever fails: those that no deletion and
      no mutation taking effect drops, and those that arrive anew and can be stored. The
      former have exactly the folders that the mutations taking effect make. */
  lemma SurvivesPollIff(rows: Rows, entries: seq<Entry>, fetch: string -> FetchReply, faults: Faults,
                        folders: map<string, string>, m: string)
    requires Live(rows, m)
    ensures var after := PollPhase(rows, entries, fetch, faults, folders).rows;
            var kept := !Reaped(DeletedIds(entries), faults.delete, m)
                        && !Uprooted(rows[m].folders, entries, faults, folders, m);
            && (Live(after, m) <==> kept || Restored(entries, fetch, faults, folders, m))
            && (kept ==> after[m].folders
                         == FoldersAfter(rows[m].folders, Effective(Compact(Events(entries)), faults.labels),
                                         m, folders))
  {
    var c := Compact(Events(entries));
    OrderedSurvives(Phase(rows, 0), FlagsOf(c), DeletedIds(entries), c, faults, folders, m);
    FetchPhaseHolds(AfterLocal(rows, entries, faults, folders), SurvivingAdditions(entries), fetch, faults, folders, m);
  }

  /** The same of a poll's clean local steps, in terms of all its mutations. */
  lemma CleanOrderedSurvives(p: Phase, flags: seq<FlagChange>, deleted: seq<string>, mutations: seq<Mutation>,
                             faults: Faults, folders: map<string, string>, m: string)
    requires Live(p.rows, m) && m !in deleted
    requires Run(p, OrderedSteps(flags, deleted, mutations, faults), folders).failures == p.failures
    ensures var r := Run(p, OrderedSteps(flags, deleted, mutations, faults), folders).rows;
            && (Live(r, m) <==> !EverHomeless(p.rows[m].folders, mutations, m, folders))
            && (Live(r, m) ==> r[m].folders == FoldersAfter(p.rows[m].folders, mutations, m, folders))
  {
    LocalRunInOrder(p, flags, deleted, mutations, faults, folders);
    var flagged := Run(p, FlagSteps(flags, faults.flag), folders);
    FlagsSpare(p, flags, faults.flag, folders, m);
    DeletionsReap(flagged, deleted, faults.delete, folders, m);
    SurvivesLabels(Run(flagged, DeleteSteps(deleted, faults.delete), folders), mutations, faults.labels, folders, m);
  }

  /** Of a clean poll the compacted mutations alone decide: of the held messages that its
      history does not delete it leaves those that they never leave without a folder, and
      those that arrive anew and are fetched. */
  lemma SurvivesCleanPollIff(rows: Rows, entries: seq<Entry>, fetch: string -> FetchReply, faults: Faults,
                             folders: map<string, string>, m: string)
    requires PollPhase(rows, entries, fetch, faults, folders).failures == 0
    requires Live(rows, m) && m !in DeletedIds(entries)
    ensures var after := PollPhase(rows, entries, fetch, faults, folders).rows;
            var homeless := EverHomeless(rows[m].folders, Compact(Events(entries)), m, folders);
            && (Live(after, m) <==> !homeless || (m in AddedIds(entries) && fetch(m).Fetched?))
            && (!homeless ==> after[m].folders == FoldersAfter(rows[m].folders, Compact(Events(entries)), m, folders))
  {
    var c, ids := Compact(Events(entries)), SurvivingAdditions(entries);
    var mid := AfterLocal(rows, entries, faults, folders);
    FetchFailuresGrow(mid, ids, fetch, faults, folders);
    CleanOrderedSurvives(Phase(rows, 0), FlagsOf(c), DeletedIds(entries), c, faults, folders, m);
    FetchPhaseHolds(mid, ids, fetch, faults, folders, m);
    if m in ids && fetch(m).Fetched? { CleanFetchHolds(mid, ids, fetch, faults, folders, m); }
  }

  // ---------------------------------------------------------------- the loss through a whole poll

  lemma CompactOfDistinct(events: seq<Mutation>)
    requires Distinct(Keys(events))
    ensures Compact(events) == events
  {
    var all := seq(|events|, i => i);
    var positions := LastPositions(Keys(events), AnyPair, 0);
    forall i ensures i in all <==> i in positions {
      if 0 <= i < |events| { assert all[i] == i && IsLast(Keys(events), i); }
    }
    StrictlySortedUnique(positions, all);
  }

  /** The history of a message moved from label `a` to label `b` in two records. */
  function MoveHistory(m: string, a: string, b: string): seq<Entry> {
    [Entry([], [], [], [LabelChange(m, [a])]), Entry([], [], [LabelChange(m, [b])], [])]
  }

  function MoveMutations(m: string, a: string, b: string): (r: seq<Mutation>)
    ensures |r| == 2
  {
    [Mutation(m, a, Remove), Mutation(m, b, Add)]
  }

  lemma OneLabel(m: string, l: string, action: Action)
    ensures ChangeEvents([LabelChange(m, [l])], action) == [Mutation(m, l, action)]
    ensures ChangeEvents([], action) == []
  {
    assert [LabelChange(m, [l])][..0] == [];
    assert OneChangeEvents(m, [l], action) == [Mutation(m, l, action)];
  }

  lemma OneEntry(e: Entry)
    ensures Events([e]) == EntryEvents(e) && AddedIds([e]) == e.added && DeletedIds([e]) == e.deleted
  {
    assert [e][..0] == [];
    assert [] + EntryEvents(e) == EntryEvents(e) && [] + e.added == e.added && [] + e.deleted == e.deleted;
  }

  lemma TwoEntries(e: Entry, f: Entry)
    ensures Events([e, f]) == EntryEvents(e) + EntryEvents(f)
    ensures AddedIds([e, f]) == e.added + f.added && DeletedIds([e, f]) == e.deleted + f.deleted
  {
    assert [e, f][..1] == [e];
    OneEntry(e);
  }

  lemma MoveEvents(m: string, a: string, b: string)
    ensures Events(MoveHistory(m, a, b)) == MoveMutations(m, a, b)
    ensures AddedIds(MoveHistory(m, a, b)) == [] && DeletedIds(MoveHistory(m, a, b)) == []
  {
    var h := MoveHistory(m, a, b);
    TwoEntries(h[0], h[1]);
    OneLabel(m, a, Remove);
    OneLabel(m, b, Add);
    assert EntryEvents(h[0]) == [] + [Mutation(m, a, Remove)];
    assert EntryEvents(h[1]) == [Mutation(m, b, Add)] + [];
  }

  lemma MoveCompacts(m: string, a: string, b: string)
    requires a != b
    ensures Compact(MoveMutations(m, a, b)) == MoveMutations(m, a, b)
  {
    assert Keys(MoveMutations(m, a, b))[0] != Keys(MoveMutations(m, a, b))[1];
    CompactOfDistinct(MoveMutations(m, a, b));
  }

  lemma MoveHasNoFlags(m: string, a: string, b: string)
    requires a !in HIDDEN && b !in HIDDEN
    ensures FlagsOf(MoveMutations(m, a, b)) == []
  {
    var ms := MoveMutations(m, a, b);
    assert UNREAD in HIDDEN && STARRED in HIDDEN;
    var i := LastActionFrom(ms, (m, UNREAD));
    var j := LastActionFrom(ms, (m, STARRED));
    assert !Flagged(ms)(m);
    var positions := FlagPositions(ms);
    assert forall k :: 0 <= k < 2 ==> Messages(ms)[k] == m;
    forall k ensures k !in positions { assert 0 <= k < 2 ==> !Flagged(ms)(Messages(ms)[k]); }
    NoElements(positions);
  }

  lemma MovePoll(rows: Rows, fetch: string -> FetchReply, faults: Faults, folders: map<string, string>,
                 m: string, a: string, b: string)
    requires a != b && a !in HIDDEN && b !in HIDDEN
    ensures PollPhase(rows, MoveHistory(m, a, b), fetch, faults, folders)
         == Run(Phase(rows, 0), LabelSteps(MoveMutations(m, a, b), faults.labels), folders)
  {
    MoveEvents(m, a, b);
    NoSurvivors(MoveHistory(m, a, b));
    MoveLocalSteps(m, a, b, faults);
  }

  lemma MoveLocalSteps(m: string, a: string, b: string, faults: Faults)
    requires a != b && a !in HIDDEN && b !in HIDDEN
    ensures LocalSteps(MoveHistory(m, a, b), faults) == LabelSteps(MoveMutations(m, a, b), faults.labels)
  {
    MoveEvents(m, a, b);
    MoveCompacts(m, a, b);
    MoveHasNoFlags(m, a, b);
    OnlyLabels(MoveMutations(m, a, b), faults);
  }

  lemma OnlyLabels(mutations: seq<Mutation>, faults: Faults)
    ensures OrderedSteps([], [], mutations, faults) == LabelSteps(mutations, faults.labels)
  {
    assert FlagSteps([], faults.flag) == [] && DeleteSteps([], faults.delete) == [];
  }

  lemma {:induction false} FaultlessLabels(p: Phase, mutations: seq<Mutation>, faults: nat -> Fault,
                                           folders: map<string, string>)
    requires forall i :: faults(i) == NoFault
    ensures Run(p, LabelSteps(mutations, faults), folders).failures == p.failures
  {
    if mutations == [] {
    } else {
      var n := |mutations| - 1;
      assert LabelSteps(mutations, faults)[..n] == LabelSteps(mutations[..n], faults);
      FaultlessLabels(p, mutations[..n], faults, folders);
    }
  }

  /** When nothing at all fails, the poll of a message moved between labels
      counts as clean and drops the message locally, although the server still shows it
      under `b` and never deleted it. */
  lemma CleanPollLosesMovedMessage(synced: seq<Entry>, born: string -> set<string>, folders: map<string, string>,
                                   rows: Rows, fetch: string -> FetchReply, faults: Faults,
                                   m: string, a: string, b: string)
    requires ValidFolders(folders) && a != b
    requires a in folders && b in folders && a !in HIDDEN && b !in HIDDEN
    requires Live(rows, m) && rows[m].folders == {folders[a]}
    requires forall i :: faults.labels(i) == NoFault
    ensures PollPhase(rows, MoveHistory(m, a, b), fetch, faults, folders).failures == 0
    ensures !Live(PollPhase(rows, MoveHistory(m, a, b), fetch, faults, folders).rows, m)
    ensures ServerHas(synced + MoveHistory(m, a, b), born, m, b)
    ensures !DeletedIn(MoveHistory(m, a, b), m)
  {
    MovePoll(rows, fetch, faults, folders, m, a, b);
    FaultlessLabels(Phase(rows, 0), MoveMutations(m, a, b), faults.labels, folders);
    LeaveFirstLoses(Phase(rows, 0), faults.labels, folders, m, a, b);
    MoveOnServer(synced, born, m, a, b);
  }

  // ---------------------------------------------------------------- archiving

  /** The history of a message whose label `a` is taken away. */
  function ArchiveHistory(m: string, a: string): seq<Entry> {
    [Entry([], [], [], [LabelChange(m, [a])])]
  }

  lemma ArchiveEvents(m: string, a: string)
    ensures var h := ArchiveHistory(m, a);
            && Events(h) == [Mutation(m, a, Remove)] && Compact(Events(h)) == [Mutation(m, a, Remove)]
            && AddedIds(h) == [] && DeletedIds(h) == []
  {
    OneEntry(ArchiveHistory(m, a)[0]);
    OneLabel(m, a, Remove);
    assert EntryEvents(ArchiveHistory(m, a)[0]) == [] + [Mutation(m, a, Remove)];
    CompactOfDistinct([Mutation(m, a, Remove)]);
  }

  lemma ArchiveMakesHomeless(folders: map<string, string>, m: string, a: string)
    requires a in folders && a !in HIDDEN
    ensures EverHomeless({folders[a]}, [Mutation(m, a, Remove)], m, folders)
  {
    var ms := [Mutation(m, a, Remove)];
    assert ms[..0 + 1] == ms && ms[..0] == [];
    assert Removes(ms[0], m, folders) && FoldersAfter({folders[a]}, ms[..0 + 1], m, folders) == {};
  }

  /** The simplest loss: when nothing at all fails, a message taken out of its only label is
      dropped by a clean poll, although the server never deleted it. */
  lemma CleanPollLosesArchivedMessage(rows: Rows, fetch: string -> FetchReply, faults: Faults,
                                      folders: map<string, string>, m: string, a: string)
    requires a in folders && a !in HIDDEN && Live(rows, m) && rows[m].folders == {folders[a]}
    requires forall i :: faults.flag(i).NoFault? && faults.delete(i).NoFault? && faults.labels(i).NoFault?
    ensures PollPhase(rows, ArchiveHistory(m, a), fetch, faults, folders).failures == 0
    ensures !Live(PollPhase(rows, ArchiveHistory(m, a), fetch, faults, folders).rows, m)
    ensures !DeletedIn(ArchiveHistory(m, a), m)
  {
    ArchiveEvents(m, a);
    FaultlessPollIsClean(rows, ArchiveHistory(m, a), fetch, faults, folders);
    ArchiveMakesHomeless(folders, m, a);
    SurvivesCleanPollIff(rows, ArchiveHistory(m, a), fetch, faults, folders, m);
  }

  lemma MoveOnServer(synced: seq<Entry>, born: string -> set<string>, m: string, a: string, b: string)
    ensures ServerHas(synced + MoveHistory(m, a, b), born, m, b) && !DeletedIn(MoveHistory(m, a, b), m)
  {
    MoveEvents(m, a, b);
    EventsConcat(synced, MoveHistory(m, a, b));
    LastActionConcat(Events(synced), MoveMutations(m, a, b), (m, b));
  }

  /** A lost message stays lost: label and flag events never bring it back, only a
      new arrival with its id would. */
  lemma LostStaysLost(rows: Rows, entries: seq<Entry>, fetch: string -> FetchReply, faults: Faults,
                      folders: map<string, string>, m: string)
    requires !Live(rows, m) && !AddedIn(entries, m)
    ensures !Live(PollPhase(rows, entries, fetch, faults, folders).rows, m)
  {
    var mid := AfterLocal(rows, entries, faults, folders);
    LocalStepsStoreNothing(entries, faults, LocalSteps(entries, faults));
    RunStaysDead(Phase(rows, 0), LocalSteps(entries, faults), folders, m);
    ListedIds(entries, m);
    if Live(FetchPhase(mid, SurvivingAdditions(entries), fetch, faults, folders).rows, m) {
      FetchPhaseRow(mid, SurvivingAdditions(entries), fetch, faults, folders, m);
    }
  }

  // ---------------------------------------------------------------- what is held over a run

  /** The poll uproots a held message without restoring it, or finds an arrival gone. Neither
      looks at the poll's result. */
  ghost predicate Misses(w: World, h: Happening, folders: map<string, string>, m: string) {
    h.Polls? &&
    if Live(w.rows, m)
    then Uprooted(w.rows[m].folders, h.poll.entries, h.poll.faults, folders, m)
         && !Restored(h.poll.entries, h.poll.fetch, h.poll.faults, folders, m)
    else AddedIn(h.poll.entries, m) && h.poll.fetch(m).NotFound?
  }

  ghost predicate NeverMisses(w: World, hs: seq<Happening>, folders: map<string, string>, m: string) {
    hs != [] ==> NeverMisses(w, hs[..|hs| - 1], folders, m)
                 && !Misses(AfterAll(w, hs[..|hs| - 1], folders), hs[|hs| - 1], folders, m)
  }

  lemma AddedInConcat(a: seq<Entry>, b: seq<Entry>, m: string)
    ensures AddedIn(a + b, m) <==> AddedIn(a, m) || AddedIn(b, m)
  {
    if i :| 0 <= i < |a| && m in a[i].added { assert m in (a + b)[i].added; }
    if i :| 0 <= i < |b| && m in b[i].added { assert m in (a + b)[|a| + i].added; }
  }

  lemma DeletedInPrefix(log: seq<Entry>, more: seq<Entry>, m: string)
    requires log <= more && DeletedIn(log, m)
    ensures DeletedIn(more, m)
  {
    var i :| 0 <= i < |log| && m in log[i].deleted;
    assert m in more[i].deleted;
  }

  /** A step only extends the log, and what is synced of it. */
  lemma LogGrows(w: World, h: Happening, born: string -> set<string>, folders: map<string, string>)
    requires Possible(w, h, born)
    ensures var r := After(w, h, folders);
            w.synced <= r.synced && w.synced + w.pending <= r.synced + r.pending
  {
    if h.Polls? {
      assert w.synced + w.pending <= w.synced + h.poll.entries;
      assert w.synced + h.poll.entries + h.poll.tail == w.synced + (h.poll.entries + h.poll.tail);
    }
  }

  ghost predicate ArrivedSince(start: nat, synced: seq<Entry>, m: string) {
    start <= |synced| && AddedIn(synced[start..], m)
  }

  /** The message should be held: it was at the start of the run, or has arrived since. */
  ghost predicate Due(held: bool, start: nat, w: World, m: string) {
    held || ArrivedSince(start, w.synced, m)
  }

  lemma NotDeletedWithin(before: seq<Entry>, entries: seq<Entry>, tail: seq<Entry>, m: string)
    requires !DeletedIn(before + entries + tail, m)
    ensures !DeletedIn(entries, m) && m !in DeletedIds(entries)
  {
    forall i | 0 <= i < |entries| ensures m !in entries[i].deleted {
      assert (before + entries + tail)[|before| + i] == entries[i];
    }
    ListedIds(entries, m);
  }

  lemma ArrivalIsSynced(start: nat, synced: seq<Entry>, entries: seq<Entry>, m: string)
    requires start <= |synced| && !ArrivedSince(start, synced, m) && ArrivedSince(start, synced + entries, m)
    ensures AddedIn(entries, m)
  {
    assert (synced + entries)[start..] == synced[start..] + entries;
    AddedInConcat(synced[start..], entries, m);
  }

  /** A poll that misses nothing of the message and ends in `end`. */
  lemma PollHolds(w: World, p: Poll, end: Phase, fallbacks: set<Pair>, r: World, folders: map<string, string>,
                  held: bool, start: nat, m: string)
    requires r == Settle(w, p, end, fallbacks)
    requires end == PollPhase(w.rows, p.entries, p.fetch, p.faults, folders)
    requires start <= |w.synced| && !Misses(w, Polls(p), folders, m)
    requires Due(held, start, r, m) && !DeletedIn(r.synced + r.pending, m)
    requires Due(held, start, w, m) ==> Live(w.rows, m)
    ensures Live(r.rows, m)
  {
    SettledLog(w, p, end, fallbacks);
    NotDeletedWithin(w.synced, p.entries, p.tail, m);
    if Live(w.rows, m) {
      SurvivesPollIff(w.rows, p.entries, p.fetch, p.faults, folders, m);
    } else {
      ArrivalIsSynced(start, w.synced, p.entries, m);
      CleanPollHoldsArrivals(w.rows, p.entries, p.fetch, p.faults, folders, m);
    }
  }

  /** One step of the theorem below. */
  lemma StepHolds(w: World, h: Happening, born: string -> set<string>, folders: map<string, string>,
                  held: bool, start: nat, m: string)
    requires Possible(w, h, born) && start <= |w.synced| && !Misses(w, h, folders, m)
    requires var r := After(w, h, folders); Due(held, start, r, m) && !DeletedIn(r.synced + r.pending, m)
    requires Due(held, start, w, m) ==> Live(w.rows, m)
    ensures Live(After(w, h, folders).rows, m)
  {
    if h.Polls? {
      var end, fallbacks := AfterPoll(w, h.poll, folders);
      PollHolds(w, h.poll, end, fallbacks, After(w, h, folders), folders, held, start, m);
    }
  }

  /** Over any run with any failures: every message that was held at the start, or arrived
      in what has been synced since, and is not deleted in the log is held at the end, unless
      some poll uproots it or finds it gone. */
  lemma {:induction false} RunHolds(w: World, hs: seq<Happening>, born: string -> set<string>,
                                    folders: map<string, string>, m: string)
    requires PossibleRun(w, hs, born, folders)
    requires NeverMisses(w, hs, folders, m)
    ensures var r := AfterAll(w, hs, folders);
            && w.synced <= r.synced
            && (Due(Live(w.rows, m), |w.synced|, r, m) && !DeletedIn(r.synced + r.pending, m) ==> Live(r.rows, m))
  {
    if hs == [] {
      assert w.synced[|w.synced|..] == [];
    } else {
      var n := |hs| - 1;
      var before := AfterAll(w, hs[..n], folders);
      RunHolds(w, hs[..n], born, folders, m);
      LogGrows(before, hs[n], born, folders);
      var r := After(before, hs[n], folders);
      if Due(Live(w.rows, m), |w.synced|, r, m) && !DeletedIn(r.synced + r.pending, m) {
        if DeletedIn(before.synced + before.pending, m) {
          DeletedInPrefix(before.synced + before.pending, r.synced + r.pending, m);
        }
        StepHolds(before, hs[n], born, folders, Live(w.rows, m), |w.synced|, m);
      }
    }
  }

  /** A held message that the server does not delete survives a step exactly if the step
      does not miss it. */
  lemma HeldStepIff(w: World, h: Happening, born: string -> set<string>, folders: map<string, string>, m: string)
    requires Possible(w, h, born) && Live(w.rows, m)
    requires var r := After(w, h, folders); !DeletedIn(r.synced + r.pending, m)
    ensures Live(After(w, h, folders).rows, m) <==> !Misses(w, h, folders, m)
  {
    if h.Polls? {
      var end, fallbacks := AfterPoll(w, h.poll, folders);
      HeldPollIff(w, h.poll, end, fallbacks, After(w, h, folders), folders, m);
    }
  }

  lemma HeldPollIff(w: World, p: Poll, end: Phase, fallbacks: set<Pair>, r: World, folders: map<string, string>,
                    m: string)
    requires r == Settle(w, p, end, fallbacks)
    requires end == PollPhase(w.rows, p.entries, p.fetch, p.faults, folders)
    requires Live(w.rows, m) && !DeletedIn(r.synced + r.pending, m)
    ensures Live(r.rows, m) <==> !Misses(w, Polls(p), folders, m)
  {
    SettledLog(w, p, end, fallbacks);
    NotDeletedWithin(w.synced, p.entries, p.tail, m);
    SurvivesPollIff(w.rows, p.entries, p.fetch, p.faults, folders, m);
  }

  lemma SettledLog(w: World, p: Poll, end: Phase, fallbacks: set<Pair>)
    ensures var r := Settle(w, p, end, fallbacks); r.synced + r.pending == w.synced + p.entries + p.tail
    ensures Settle(w, p, end, fallbacks).rows == end.rows
  {
    Associative(w.synced, p.entries, p.tail);
  }

  ghost predicate HeldThroughout(w: World, hs: seq<Happening>, folders: map<string, string>, m: string) {
    Live(AfterAll(w, hs, folders).rows, m) && (hs != [] ==> HeldThroughout(w, hs[..|hs| - 1], folders, m))
  }

  /** Over any run with any failures: a message held at the start that the server does not
      delete is held all the time if and only if no poll uproots it without restoring it. */
  lemma {:induction false} HeldThroughoutIff(w: World, hs: seq<Happening>, born: string -> set<string>,
                                             folders: map<string, string>, m: string)
    requires PossibleRun(w, hs, born, folders) && Live(w.rows, m)
    requires var r := AfterAll(w, hs, folders); !DeletedIn(r.synced + r.pending, m)
    ensures HeldThroughout(w, hs, folders, m) <==> NeverMisses(w, hs, folders, m)
  {
    if hs == [] {
    } else {
      var n := |hs| - 1;
      var before := AfterAll(w, hs[..n], folders);
      LogGrows(before, hs[n], born, folders);
      if DeletedIn(before.synced + before.pending, m) {
        var r := After(before, hs[n], folders);
        DeletedInPrefix(before.synced + before.pending, r.synced + r.pending, m);
      }
      HeldThroughoutIff(w, hs[..n], born, folders, m);
      if Live(before.rows, m) { HeldStepIff(before, hs[n], born, folders, m); }
    }
  }
}
