/** Gmail delta sync: the local store, the initial label-by-label sync and the
    history poll (crates/pebble-mail/src/gmail_sync.rs). */
module GmailSync {
  import opened Basics
  import opened Sequences
  import opened GmailHistory

  // ---------------------------------------------------------------- the local store

  /** The current row of a remote message. */
  datatype Row = Row(folders: set<string>, read: bool, starred: bool, deleted: bool)

  type Rows = map<string, Row>

  /** What lookups by remote id can see: soft-deleted rows are invisible. */
  predicate Live(rows: Rows, m: string) { m in rows && !rows[m].deleted }

  function WithFolder(row: Row, folder: string): Row {
    row.(folders := row.folders + {folder}, deleted := false)
  }

  /** Leaving its last folder soft-deletes a message. */
  function WithoutFolder(row: Row, folder: string): Row {
    row.(folders := row.folders - {folder}, deleted := row.deleted || row.folders - {folder} == {})
  }

  function WithFlags(row: Row, c: FlagChange): Row {
    row.(read := c.read.UnwrapOr(row.read), starred := c.starred.UnwrapOr(row.starred))
  }

  const HIDDEN: set<string> :=
    {"CHAT", "IMPORTANT", "STARRED", "UNREAD", "CATEGORY_FORUMS", "CATEGORY_UPDATES",
     "CATEGORY_PERSONAL", "CATEGORY_PROMOTIONS", "CATEGORY_SOCIAL"}

  const INBOX := "INBOX"

  function VisibleLabels(labels: seq<string>): (r: seq<string>)
    ensures forall l :: l in r <==> l in labels && l !in HIDDEN
  {
    Keep(labels, l => l !in HIDDEN)
  }

  function MappedFolders(folders: map<string, string>, labels: seq<string>): set<string> {
    set l | l in labels && l in folders :: folders[l]
  }

  function ResolvedFolders(folders: map<string, string>, labels: seq<string>, fallback: string): set<string> {
    var mapped := MappedFolders(folders, labels);
    if mapped == {} then {fallback} else mapped
  }

  method ResolveFolderIds(folders: map<string, string>, labels: seq<string>, fallback: string)
    returns (ids: seq<string>)
    ensures Distinct(ids)
    ensures Elements(ids) == ResolvedFolders(folders, labels, fallback)
  {
    ids := [];
    for i := 0 to |labels|
      invariant Distinct(ids)
      invariant Elements(ids) == MappedFolders(folders, labels[..i])
    {
      assert labels[..i + 1] == labels[..i] + [labels[i]];
      if labels[i] in folders {
        var folder := folders[labels[i]];
        assert MappedFolders(folders, labels[..i + 1]) == MappedFolders(folders, labels[..i]) + {folder};
        if folder !in ids {
          assert Elements(ids + [folder]) == Elements(ids) + {folder};
          ids := ids + [folder];
        } else {
          assert folder in Elements(ids);
        }
      } else {
        assert MappedFolders(folders, labels[..i + 1]) == MappedFolders(folders, labels[..i]);
      }
    }
    assert labels[..|labels|] == labels;
    assert ids != [] ==> ids[0] in Elements(ids);
    if ids == [] {
      ids := [fallback];
      assert Elements(ids) == {fallback};
    }
  }

  function FetchedRow(folders: map<string, string>, labels: seq<string>, fallback: string): Row {
    Row(ResolvedFolders(folders, VisibleLabels(labels), fallback), UNREAD !in labels, STARRED in labels, false)
  }

  /** The label is visible and has this folder. */
  ghost predicate Maps(folders: map<string, string>, l: string, folder: string) {
    l !in HIDDEN && l in folders && folders[l] == folder
  }

  /** A fetched message is in the folders of its visible labels, and in the fallback folder
      exactly if they have none; it is unread or starred as its labels say, and visible. */
  lemma FetchedRowIs(folders: map<string, string>, labels: seq<string>, fallback: string, folder: string)
    ensures var row := FetchedRow(folders, labels, fallback);
            && (folder in row.folders <==>
                  || (exists l :: l in labels && Maps(folders, l, folder))
                  || (folder == fallback && forall l, f :: l in labels ==> !Maps(folders, l, f)))
            && (row.read <==> UNREAD !in labels) && (row.starred <==> STARRED in labels) && !row.deleted
  {
    var visible := VisibleLabels(labels);
    var mapped := MappedFolders(folders, visible);
    forall f ensures f in mapped <==> exists l :: l in labels && Maps(folders, l, f) {
      if l :| l in labels && Maps(folders, l, f) { assert l in visible; }
    }
    if mapped == {} {
      forall l, f | l in labels ensures !Maps(folders, l, f) { assert f !in mapped; }
    } else {
      var f :| f in mapped;
      assert exists l :: l in labels && Maps(folders, l, f);
    }
  }

  // ---------------------------------------------------------------- single store steps

  /** How a step's store calls turn out. */
  datatype Fault = NoFault | LookupFault | WriteFault

  datatype Op =
    | FlagOp(change: FlagChange)
    | DeleteOp(message: string)
    | LabelOp(mutation: Mutation)
    | StoreOp(message: string, labels: seq<string>, fallback: string)

  datatype Step = Step(op: Op, fault: Fault)

  datatype Phase = Phase(rows: Rows, failures: nat)

  function Fail(p: Phase): Phase { p.(failures := p.failures + 1) }

  function ApplyLabel(rows: Rows, mu: Mutation, folder: string): Rows
    requires mu.message in rows
  {
    rows[mu.message := if mu.action.Add? then WithFolder(rows[mu.message], folder)
                       else WithoutFolder(rows[mu.message], folder)]
  }

  function Do(p: Phase, s: Step, folders: map<string, string>): Phase {
    match s.op
    case FlagOp(c) =>
      if s.fault.LookupFault? then Fail(p)
      else if !Live(p.rows, c.message) then p
      else if s.fault.WriteFault? then Fail(p)
      else p.(rows := p.rows[c.message := WithFlags(p.rows[c.message], c)])
    case DeleteOp(m) =>
      if s.fault.LookupFault? then Fail(p)
      else if !Live(p.rows, m) then p
      else if s.fault.WriteFault? then Fail(p)
      else p.(rows := p.rows[m := p.rows[m].(deleted := true)])
    case LabelOp(mu) =>
      if mu.labelId in HIDDEN then p
      else if s.fault.LookupFault? then Fail(p)
      else if !Live(p.rows, mu.message) || mu.labelId !in folders then p
      else if s.fault.WriteFault? then Fail(p)
      else p.(rows := ApplyLabel(p.rows, mu, folders[mu.labelId]))
    case StoreOp(m, labels, fallback) =>
      // A second live row, or a folder that does not exist, is refused by the database.
      if s.fault != NoFault || Live(p.rows, m)
         || !(FetchedRow(folders, labels, fallback).folders <= folders.Values) then Fail(p)
      else p.(rows := p.rows[m := FetchedRow(folders, labels, fallback)])
  }

  function Run(p: Phase, steps: seq<Step>, folders: map<string, string>): (r: Phase)
    ensures p.failures <= r.failures
  {
    if steps == [] then p else Do(Run(p, steps[..|steps| - 1], folders), steps[|steps| - 1], folders)
  }

  lemma {:induction false} RunConcat(p: Phase, a: seq<Step>, b: seq<Step>, folders: map<string, string>)
    ensures Run(p, a + b, folders) == Run(Run(p, a, folders), b, folders)
  {
    if b == [] {
      assert a + b == a;
    } else {
      assert (a + b)[..|a + b| - 1] == a + b[..|b| - 1];
      RunConcat(p, a, b[..|b| - 1], folders);
    }
  }

  // ---------------------------------------------------------------- a history poll

  datatype FetchReply = Fetched(labels: seq<string>) | NotFound | FetchError

  datatype Faults = Faults(
    flag: nat -> Fault, delete: nat -> Fault, labels: nat -> Fault,
    existing: bool, incomplete: bool, store: string -> bool)

  function Count(b: bool): nat { if b then 1 else 0 }

  function FlagSteps(changes: seq<FlagChange>, faults: nat -> Fault): seq<Step> {
    seq(|changes|, i requires 0 <= i < |changes| => Step(FlagOp(changes[i]), faults(i)))
  }

  function DeleteSteps(ids: seq<string>, faults: nat -> Fault): seq<Step> {
    seq(|ids|, i requires 0 <= i < |ids| => Step(DeleteOp(ids[i]), faults(i)))
  }

  function LabelSteps(mutations: seq<Mutation>, faults: nat -> Fault): seq<Step> {
    seq(|mutations|, i requires 0 <= i < |mutations| => Step(LabelOp(mutations[i]), faults(i)))
  }

  function AddedIds(entries: seq<Entry>): seq<string> {
    if entries == [] then [] else AddedIds(entries[..|entries| - 1]) + entries[|entries| - 1].added
  }

  function DeletedIds(entries: seq<Entry>): seq<string> {
    if entries == [] then [] else DeletedIds(entries[..|entries| - 1]) + entries[|entries| - 1].deleted
  }

  function SurvivingAdditions(entries: seq<Entry>): (r: seq<string>)
    ensures forall m :: m in r <==> m in AddedIds(entries) && m !in DeletedIds(entries)
  {
    var deleted := DeletedIds(entries);
    Keep(AddedIds(entries), m => m !in deleted)
  }

  /** Flags, then deletions, then labels. */
  ghost function OrderedSteps(flags: seq<FlagChange>, deleted: seq<string>, mutations: seq<Mutation>,
                              faults: Faults): seq<Step>
  {
    FlagSteps(flags, faults.flag) + DeleteSteps(deleted, faults.delete) + LabelSteps(mutations, faults.labels)
  }

  ghost function LocalSteps(entries: seq<Entry>, faults: Faults): seq<Step> {
    var compact := Compact(Events(entries));
    OrderedSteps(FlagsOf(compact), DeletedIds(entries), compact, faults)
  }

  function ToFetch(ids: seq<string>, rows: Rows, existingFault: bool): (r: seq<string>)
    ensures forall m :: m in r <==> m in ids && (existingFault || !Live(rows, m))
  {
    Keep(ids, m => existingFault || !Live(rows, m))
  }

  function FetchFailures(ids: seq<string>, fetch: string -> FetchReply, count404: bool): nat {
    if ids == [] then 0 else
      FetchFailures(ids[..|ids| - 1], fetch, count404)
      + Count(fetch(ids[|ids| - 1]).FetchError? || (count404 && fetch(ids[|ids| - 1]).NotFound?))
  }

  function StoreSteps(ids: seq<string>, fetch: string -> FetchReply, store: string -> bool, fallback: string)
    : seq<Step>
  {
    if ids == [] then [] else
      var m := ids[|ids| - 1];
      StoreSteps(ids[..|ids| - 1], fetch, store, fallback)
      + if fetch(m).Fetched?
        then [Step(StoreOp(m, fetch(m).labels, fallback), if store(m) then WriteFault else NoFault)]
        else []
  }

  function InboxFolder(folders: map<string, string>): string {
    if INBOX in folders then folders[INBOX] else ""
  }

  /** Fetch every id, count the failures, then store what arrived. */
  function FetchAndStorePhase(p: Phase, ids: seq<string>, fetch: string -> FetchReply, store: string -> bool,
                              fallback: string, count404: bool, folders: map<string, string>): Phase
  {
    Run(Phase(p.rows, p.failures + FetchFailures(ids, fetch, count404)),
        StoreSteps(ids, fetch, store, fallback), folders)
  }

  function FetchPhase(p: Phase, ids: seq<string>, fetch: string -> FetchReply, faults: Faults,
                      folders: map<string, string>): Phase
  {
    if ids == [] then p else
      FetchAndStorePhase(Phase(p.rows, p.failures + Count(faults.existing) + Count(faults.incomplete)),
                         ToFetch(ids, p.rows, faults.existing), fetch, faults.store, InboxFolder(folders), false,
                         folders)
  }

  ghost function PollPhase(rows: Rows, entries: seq<Entry>, fetch: string -> FetchReply, faults: Faults,
                           folders: map<string, string>): Phase
  {
    FetchPhase(Run(Phase(rows, 0), LocalSteps(entries, faults), folders),
               SurvivingAdditions(entries), fetch, faults, folders)
  }

  // ---------------------------------------------------------------- the initial sync

  datatype LabelReply = LabelReply(
    listing: Option<seq<string>>, existing: bool, add: nat -> bool,
    fetch: string -> FetchReply, store: string -> bool)

  function AddSteps(ids: seq<string>, labelId: string, add: nat -> bool): seq<Step> {
    seq(|ids|, i requires 0 <= i < |ids| =>
      Step(LabelOp(Mutation(ids[i], labelId, Add)), if add(i) then WriteFault else NoFault))
  }

  /** One label: listed messages that are held join the folder, the others are fetched. */
  function SyncLabelPhase(p: Phase, labelId: string, reply: LabelReply, folders: map<string, string>): Phase {
    if labelId !in folders then p
    else if reply.listing.None? then Fail(p)
    else
      var held := Keep(reply.listing.value, m => !reply.existing && Live(p.rows, m));
      var wanted := ToFetch(reply.listing.value, p.rows, reply.existing);
      FetchAndStorePhase(Run(p, AddSteps(held, labelId, reply.add), folders),
                         wanted, reply.fetch, reply.store, folders[labelId], true, folders)
  }

  type LabelSync = (Phase, string, nat) -> Phase

  function SyncInOrder(p: Phase, labels: seq<string>, sync: LabelSync): Phase {
    if labels == [] then p else
      var n := |labels| - 1;
      sync(SyncInOrder(p, labels[..n], sync), labels[n], n)
  }

  function LabelSyncer(replies: nat -> LabelReply, folders: map<string, string>): LabelSync {
    (p: Phase, labelId: string, i: nat) => SyncLabelPhase(p, labelId, replies(i), folders)
  }

  /** All labels, one after the other. */
  function InitialPhase(p: Phase, labels: seq<string>, replies: nat -> LabelReply, folders: map<string, string>)
    : Phase
  {
    SyncInOrder(p, labels, LabelSyncer(replies, folders))
  }

  /** The remote labels to sync, in the order of `remoteIds`: neither local nor hidden. */
  function SyncLabelIds(remoteIds: seq<string>): (r: seq<string>)
    ensures forall l :: l in r <==> l in remoteIds && !("__local_" <= l) && l !in HIDDEN
  {
    Keep(remoteIds, l => !("__local_" <= l) && l !in HIDDEN)
  }

  datatype ProfileReply = ProfileError | Profile(historyId: Option<nat>)

  /** Storing one more fetched message. */
  function StoreOne(p: Phase, m: string, fetch: string -> FetchReply, store: string -> bool,
                    fallback: string, folders: map<string, string>): Phase
  {
    if fetch(m).Fetched?
    then Do(p, Step(StoreOp(m, fetch(m).labels, fallback), if store(m) then WriteFault else NoFault), folders)
    else p
  }

  lemma StoreRunSnoc(p: Phase, ids: seq<string>, m: string, fetch: string -> FetchReply, store: string -> bool,
                     fallback: string, folders: map<string, string>)
    ensures Run(p, StoreSteps(ids + [m], fetch, store, fallback), folders)
         == StoreOne(Run(p, StoreSteps(ids, fetch, store, fallback), folders), m, fetch, store, fallback, folders)
  {
    assert (ids + [m])[..|ids|] == ids;
    var prior := StoreSteps(ids, fetch, store, fallback);
    if fetch(m).Fetched? {
      var s := Step(StoreOp(m, fetch(m).labels, fallback), if store(m) then WriteFault else NoFault);
      assert (prior + [s])[..|prior|] == prior;
    } else {
      assert StoreSteps(ids + [m], fetch, store, fallback) == prior;
    }
  }

  // ---------------------------------------------------------------- the worker

  class GmailSyncWorker {
    const folders: map<string, string>
    var rows: Rows
    var cursor: Option<nat>

    constructor (folders: map<string, string>, rows: Rows, cursor: Option<nat>)
      ensures this.folders == folders && this.rows == rows && this.cursor == cursor
    {
      this.folders, this.rows, this.cursor := folders, rows, cursor;
    }

    method ApplyFlagChanges(changes: seq<FlagChange>, faults: nat -> Fault, before: nat) returns (failures: nat)
      modifies this`rows
      ensures Phase(rows, failures) == Run(Phase(old(rows), before), FlagSteps(changes, faults), folders)
    {
      failures := before;
      for i := 0 to |changes|
        invariant Phase(rows, failures)
               == Run(Phase(old(rows), before), FlagSteps(changes[..i], faults), folders)
      {
        var c := changes[i];
        if faults(i).LookupFault? {
          failures := failures + 1;
        } else if Live(rows, c.message) {
          if faults(i).WriteFault? {
            failures := failures + 1;
          } else {
            rows := rows[c.message := WithFlags(rows[c.message], c)];
          }
        }
        assert FlagSteps(changes[..i + 1], faults)[..i] == FlagSteps(changes[..i], faults);
      }
      assert changes[..|changes|] == changes;
    }

    method ApplyDeletions(ids: seq<string>, faults: nat -> Fault, before: nat) returns (failures: nat)
      modifies this`rows
      ensures Phase(rows, failures) == Run(Phase(old(rows), before), DeleteSteps(ids, faults), folders)
    {
      failures := before;
      for i := 0 to |ids|
        invariant Phase(rows, failures) == Run(Phase(old(rows), before), DeleteSteps(ids[..i], faults), folders)
      {
        if faults(i).LookupFault? {
          failures := failures + 1;
        } else if Live(rows, ids[i]) {
          if faults(i).WriteFault? {
            failures := failures + 1;
          } else {
            rows := rows[ids[i] := rows[ids[i]].(deleted := true)];
          }
        }
        assert DeleteSteps(ids[..i + 1], faults)[..i] == DeleteSteps(ids[..i], faults);
      }
      assert ids[..|ids|] == ids;
    }

    method ApplyLabelMutations(mutations: seq<Mutation>, faults: nat -> Fault, before: nat) returns (failures: nat)
      modifies this`rows
      ensures Phase(rows, failures) == Run(Phase(old(rows), before), LabelSteps(mutations, faults), folders)
    {
      failures := before;
      for i := 0 to |mutations|
        invariant Phase(rows, failures)
               == Run(Phase(old(rows), before), LabelSteps(mutations[..i], faults), folders)
      {
        var mu := mutations[i];
        assert LabelSteps(mutations[..i + 1], faults)[..i] == LabelSteps(mutations[..i], faults);
        if mu.labelId in HIDDEN {
          continue;
        }
        if faults(i).LookupFault? {
          failures := failures + 1;
        } else if Live(rows, mu.message) && mu.labelId in folders {
          if faults(i).WriteFault? {
            failures := failures + 1;
          } else {
            var row := rows[mu.message];
            var folder := folders[mu.labelId];
            match mu.action {
              case Add => rows := rows[mu.message := WithFolder(row, folder)];
              case Remove => rows := rows[mu.message := WithoutFolder(row, folder)];
            }
          }
        }
      }
      assert mutations[..|mutations|] == mutations;
    }

    method CountFetchFailures(ids: seq<string>, fetch: string -> FetchReply, count404: bool) returns (failures: nat)
      ensures failures == FetchFailures(ids, fetch, count404)
    {
      failures := 0;
      for i := 0 to |ids|
        invariant failures == FetchFailures(ids[..i], fetch, count404)
      {
        assert ids[..i + 1][..i] == ids[..i];
        match fetch(ids[i]) {
          case FetchError => failures := failures + 1;
          case NotFound => if count404 { failures := failures + 1; }
          case Fetched(_) =>
        }
      }
      assert ids[..|ids|] == ids;
    }

    method StoreFetched(ids: seq<string>, fetch: string -> FetchReply, store: string -> bool,
                        fallback: string, before: nat) returns (failures: nat)
      modifies this`rows
      ensures Phase(rows, failures)
           == Run(Phase(old(rows), before), StoreSteps(ids, fetch, store, fallback), folders)
    {
      failures := before;
      for i := 0 to |ids|
        invariant Phase(rows, failures)
               == Run(Phase(old(rows), before), StoreSteps(ids[..i], fetch, store, fallback), folders)
      {
        assert ids[..i + 1] == ids[..i] + [ids[i]];
        StoreRunSnoc(Phase(old(rows), before), ids[..i], ids[i], fetch, store, fallback, folders);
        if fetch(ids[i]).Fetched? {
          var row := FetchedRow(folders, fetch(ids[i]).labels, fallback);
          if store(ids[i]) || Live(rows, ids[i]) || !(row.folders <= folders.Values) {
            failures := failures + 1;
          } else {
            rows := rows[ids[i] := row];
          }
        }
      }
      assert ids[..|ids|] == ids;
    }

    /** Fetch every id, then store what arrived; `count404` says whether a missing
        message is a failure. */
    method FetchAndStore(ids: seq<string>, fetch: string -> FetchReply, store: string -> bool,
                         fallback: string, count404: bool, before: nat) returns (failures: nat)
      modifies this`rows
      ensures Phase(rows, failures)
           == FetchAndStorePhase(Phase(old(rows), before), ids, fetch, store, fallback, count404, folders)
    {
      var missed := CountFetchFailures(ids, fetch, count404);
      failures := StoreFetched(ids, fetch, store, fallback, before + missed);
    }

    /** Put messages that are already held into the label's folder. */
    method AddHeld(held: seq<string>, labelId: string, add: nat -> bool, before: nat) returns (failures: nat)
      requires labelId !in HIDDEN && labelId in folders
      requires forall m :: m in held ==> Live(rows, m)
      modifies this`rows
      ensures Phase(rows, failures) == Run(Phase(old(rows), before), AddSteps(held, labelId, add), folders)
    {
      failures := before;
      for i := 0 to |held|
        invariant forall m :: m in held ==> Live(rows, m)
        invariant Phase(rows, failures)
               == Run(Phase(old(rows), before), AddSteps(held[..i], labelId, add), folders)
      {
        assert AddSteps(held[..i + 1], labelId, add)[..i] == AddSteps(held[..i], labelId, add);
        assert held[i] in held;
        if add(i) {
          failures := failures + 1;
        } else {
          rows := rows[held[i] := WithFolder(rows[held[i]], folders[labelId])];
        }
      }
      assert held[..|held|] == held;
    }

    method SyncLabel(labelId: string, reply: LabelReply, before: nat) returns (failures: nat)
      requires labelId !in HIDDEN
      modifies this`rows
      ensures Phase(rows, failures) == SyncLabelPhase(Phase(old(rows), before), labelId, reply, folders)
    {
      if labelId !in folders {
        return before;
      }
      match reply.listing {
        case None => return before + 1;
        case Some(refs) =>
          var stored := rows;
          var held := Keep(refs, m => !reply.existing && Live(stored, m));
          var wanted := ToFetch(refs, stored, reply.existing);
          failures := AddHeld(held, labelId, reply.add, before);
          failures := FetchAndStore(wanted, reply.fetch, reply.store, folders[labelId], true, failures);
      }
    }

    method InitialSync(profile: ProfileReply, remoteIds: seq<string>, replies: nat -> LabelReply, saved: bool)
      returns (ok: bool)
      modifies this
      ensures ok == profile.Profile?
      ensures !ok ==> rows == old(rows) && cursor == old(cursor)
      ensures ok ==> var p := InitialPhase(Phase(old(rows), 0), SyncLabelIds(remoteIds), replies, folders);
                     && rows == p.rows
                     && cursor == if profile.historyId.Some? && p.failures == 0 && saved
                                  then profile.historyId else old(cursor)
    {
      if profile.ProfileError? {
        return false;
      }
      var labels := SyncLabelIds(remoteIds);
      var failures := 0;
      for i := 0 to |labels|
        invariant cursor == old(cursor)
        invariant Phase(rows, failures) == InitialPhase(Phase(old(rows), 0), labels[..i], replies, folders)
      {
        failures := SyncLabel(labels[i], replies(i), failures);
        assert labels[..i + 1][..i] == labels[..i];
      }
      assert labels[..|labels|] == labels;
      if profile.historyId.Some? && failures == 0 && saved {
        cursor := profile.historyId;
      }
      return true;
    }

    /** Flags, then deletions, then labels. */
    method ApplyLocal(entries: seq<Entry>, faults: Faults) returns (failures: nat)
      modifies this`rows
      ensures Phase(rows, failures) == Run(Phase(old(rows), 0), LocalSteps(entries, faults), folders)
    {
      var mutations := LabelMutations(entries);
      var changes := FlagChanges(entries);
      var deleted := DeletedIds(entries);
      ghost var start := Phase(rows, 0);
      failures := ApplyFlagChanges(changes, faults.flag, 0);
      failures := ApplyDeletions(deleted, faults.delete, failures);
      failures := ApplyLabelMutations(mutations, faults.labels, failures);
      LocalRunInOrder(start, changes, deleted, mutations, faults, folders);
    }

    method FetchNew(ids: seq<string>, fetch: string -> FetchReply, faults: Faults, before: nat)
      returns (failures: nat)
      modifies this`rows
      ensures Phase(rows, failures) == FetchPhase(Phase(old(rows), before), ids, fetch, faults, folders)
    {
      failures := before;
      if ids != [] {
        failures := failures + Count(faults.existing) + Count(faults.incomplete);
        var wanted := ToFetch(ids, rows, faults.existing);
        failures := FetchAndStore(wanted, fetch, faults.store, InboxFolder(folders), false, failures);
      }
    }

    /** One poll from a stored cursor, given everything the server and the store answer. */
    method PollHistory(batch: Batch, fetch: string -> FetchReply, faults: Faults, saved: bool)
      returns (ghost end: Phase)
      modifies this
      ensures end == PollPhase(old(rows), batch.entries, fetch, faults, folders)
      ensures rows == end.rows
      ensures cursor == if batch.historyId.Some? && end.failures == 0 && saved
                        then batch.historyId else old(cursor)
    {
      var failures := ApplyLocal(batch.entries, faults);
      failures := FetchNew(SurvivingAdditions(batch.entries), fetch, faults, failures);
      if batch.historyId.Some? && failures == 0 && saved {
        cursor := batch.historyId;
      }
      end := Phase(rows, failures);
    }

    /** The whole of a poll, with the branches that fall back to a full resync: also if the
        stored cursor cannot be read, which leaves it where it is unless the resync stores
        another. `cleared` says whether dropping an expired cursor could be stored. */
    method PollChanges(readable: bool, history: Collected, foldersListed: bool, cleared: bool,
                       fetch: string -> FetchReply, faults: Faults, saved: bool,
                       profile: ProfileReply, remoteIds: seq<string>, replies: nat -> LabelReply)
      returns (ok: bool)
      requires !history.StillPaging?
      modifies this
      ensures var resync := InitialPhase(Phase(old(rows), 0), SyncLabelIds(remoteIds), replies, folders);
              var expired := history.Collected? && history.batch.cursorExpired;
              var unknown := !readable || old(cursor).None?;
              if unknown || (expired && cleared) then
                && ok == profile.Profile?
                && rows == (if ok then resync.rows else old(rows))
                && cursor == if ok && profile.historyId.Some? && resync.failures == 0 && saved
                             then profile.historyId else if unknown then old(cursor) else None
              else if history.Collected? && !expired && foldersListed then
                var p := PollPhase(old(rows), history.batch.entries, fetch, faults, folders);
                && ok && rows == p.rows
                && cursor == if history.batch.historyId.Some? && p.failures == 0 && saved
                             then history.batch.historyId else old(cursor)
              else
                !ok && rows == old(rows) && cursor == old(cursor)
    {
      if !readable || cursor.None? {
        ok := InitialSync(profile, remoteIds, replies, saved);
        return;
      }
      if history.CollectFailed? {
        return false;
      }
      if history.batch.cursorExpired {
        if !cleared {
          return false;
        }
        cursor := None;
        ok := InitialSync(profile, remoteIds, replies, saved);
        return;
      }
      if !foldersListed {
        return false;
      }
      ghost var end := PollHistory(history.batch, fetch, faults, saved);
      return true;
    }
  }

  lemma LocalRunInOrder(p: Phase, flags: seq<FlagChange>, deleted: seq<string>, mutations: seq<Mutation>,
                        faults: Faults, folders: map<string, string>)
    ensures Run(p, OrderedSteps(flags, deleted, mutations, faults), folders)
         == Run(Run(Run(p, FlagSteps(flags, faults.flag), folders),
                    DeleteSteps(deleted, faults.delete), folders),
                LabelSteps(mutations, faults.labels), folders)
  {
    var a, b := FlagSteps(flags, faults.flag), DeleteSteps(deleted, faults.delete);
    RunConcat(p, a + b, LabelSteps(mutations, faults.labels), folders);
    RunConcat(p, a, b, folders);
  }
}
