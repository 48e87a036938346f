/** The mirror invariant of Gmail delta sync: what the local store shows of the
    messages it holds agrees with the server, up to the stored cursor. */
module GmailMirror {
  import opened Basics
  import opened Sequences
  import opened GmailHistory
  import opened GmailSync

  // ---------------------------------------------------------------- the server

  /** The label is on the message after `log`: its last event decides, and before
      any event the labels the message was created with. */
  ghost predicate ServerHas(log: seq<Entry>, born: string -> set<string>, m: string, l: string) {
    match LastAction(Events(log), (m, l))
    case Some(a) => a.Add?
    case None => l in born(m)
  }

  ghost predicate AddedIn(log: seq<Entry>, m: string) { exists i :: 0 <= i < |log| && m in log[i].added }

  ghost predicate DeletedIn(log: seq<Entry>, m: string) { exists i :: 0 <= i < |log| && m in log[i].deleted }

  /** Message ids are never reused. */
  ghost predicate WellFormed(log: seq<Entry>) {
    forall i, j, m :: 0 <= i < j < |log| && m in log[i].deleted ==> m !in log[j].added
  }

  ghost predicate Quiet(log: seq<Entry>, m: string, l: string) {
    LastAction(Events(log), (m, l)).None?
  }

  lemma ServerHasConcat(a: seq<Entry>, b: seq<Entry>, born: string -> set<string>, m: string, l: string)
    ensures Quiet(b, m, l) ==> (ServerHas(a + b, born, m, l) <==> ServerHas(a, born, m, l))
    ensures !Quiet(b, m, l) ==> (ServerHas(a + b, born, m, l) <==> ServerHas(b, born, m, l))
    ensures Quiet(a + b, m, l) <==> Quiet(a, m, l) && Quiet(b, m, l)
  {
    EventsConcat(a, b);
    LastActionConcat(Events(a), Events(b), (m, l));
  }

  // ---------------------------------------------------------------- the local side

  /** Folder ids are unique and not empty. */
  ghost predicate ValidFolders(folders: map<string, string>) {
    && (forall a, b :: a in folders && b in folders && folders[a] == folders[b] ==> a == b)
    && (forall a :: a in folders ==> folders[a] != "")
  }

  /** What the store tracks of a message: its two flags and its mapped visible labels. */
  ghost predicate Tracked(folders: map<string, string>, l: string) {
    l == UNREAD || l == STARRED || (l in folders && l !in HIDDEN)
  }

  ghost predicate LocalHas(row: Row, folders: map<string, string>, l: string) {
    if l == UNREAD then !row.read
    else if l == STARRED then row.starred
    else l in folders && folders[l] in row.folders
  }

  /** `op` decides the pair. */
  ghost predicate Touches(op: Op, m: string, l: string) {
    match op
    case FlagOp(c) => c.message == m && ((l == UNREAD && c.read.Some?) || (l == STARRED && c.starred.Some?))
    case DeleteOp(_) => false
    case LabelOp(mu) => PairOf(mu) == (m, l) && l !in HIDDEN
    case StoreOp(stored, _, _) => stored == m
  }

  /** What a flag or label step that decides the pair makes of it. */
  ghost predicate Outcome(op: Op, m: string, l: string) {
    match op
    case FlagOp(c) => if l == UNREAD then c.read == Some(false) else c.starred == Some(true)
    case LabelOp(mu) => mu.action.Add?
    case _ => false
  }

  lemma DoUntouched(p: Phase, s: Step, folders: map<string, string>, m: string, l: string)
    requires ValidFolders(folders) && Tracked(folders, l)
    requires !Touches(s.op, m, l) && Live(Do(p, s, folders).rows, m)
    ensures Live(p.rows, m)
    ensures LocalHas(Do(p, s, folders).rows[m], folders, l) <==> LocalHas(p.rows[m], folders, l)
  {
  }

  lemma {:induction false} RunUntouched(p: Phase, steps: seq<Step>, folders: map<string, string>, m: string, l: string)
    requires ValidFolders(folders) && Tracked(folders, l)
    requires forall s :: s in steps ==> !Touches(s.op, m, l)
    requires Live(Run(p, steps, folders).rows, m)
    ensures Live(p.rows, m)
    ensures LocalHas(Run(p, steps, folders).rows[m], folders, l) <==> LocalHas(p.rows[m], folders, l)
  {
    if steps == [] {
    } else {
      var n := |steps| - 1;
      DoUntouched(Run(p, steps[..n], folders), steps[n], folders, m, l);
      RunUntouched(p, steps[..n], folders, m, l);
    }
  }

  /** In a clean run the last step that decides a pair has its outcome. */
  lemma RunApplied(p: Phase, steps: seq<Step>, i: int, folders: map<string, string>, m: string, l: string)
    requires ValidFolders(folders) && Tracked(folders, l)
    requires 0 <= i < |steps| && Touches(steps[i].op, m, l) && !steps[i].op.StoreOp?
    requires forall j :: i < j < |steps| ==> !Touches(steps[j].op, m, l)
    requires Run(p, steps, folders).failures == p.failures && Live(Run(p, steps, folders).rows, m)
    ensures LocalHas(Run(p, steps, folders).rows[m], folders, l) <==> Outcome(steps[i].op, m, l)
  {
    var before := Run(p, steps[..i], folders);
    var after := Do(before, steps[i], folders);
    assert steps[..i + 1][..i] == steps[..i];
    assert after == Run(p, steps[..i + 1], folders);
    assert steps == steps[..i + 1] + steps[i + 1..];
    RunConcat(p, steps[..i + 1], steps[i + 1..], folders);
    RunUntouched(after, steps[i + 1..], folders, m, l);
  }

  // ---------------------------------------------------------------- the local steps of a poll

  lemma StepsLayout(flags: seq<FlagChange>, deleted: seq<string>, c: seq<Mutation>, faults: Faults)
    ensures var steps := OrderedSteps(flags, deleted, c, faults);
            var before := |flags| + |deleted|;
            && |steps| == before + |c|
            && (forall i :: 0 <= i < |flags| ==> steps[i].op == FlagOp(flags[i]))
            && (forall i :: |flags| <= i < before ==> steps[i].op == DeleteOp(deleted[i - |flags|]))
            && (forall i :: before <= i < |steps| ==> steps[i].op == LabelOp(c[i - before]))
  {
  }

  lemma LocalStepsTouch(entries: seq<Entry>, faults: Faults, i: int, m: string, l: string)
    requires 0 <= i < |LocalSteps(entries, faults)| && Touches(LocalSteps(entries, faults)[i].op, m, l)
    ensures !Quiet(entries, m, l)
  {
    var c := Compact(Events(entries));
    var flags := FlagsOf(c);
    StepsLayout(flags, DeletedIds(entries), c, faults);
    if i < |flags| {
      FlagEventExists(Events(entries), i, m, l);
    } else {
      var k := i - |flags| - |DeletedIds(entries)|;
      CompactKeepsLastAction(Events(entries), (m, l));
      CompactOncePerPair(Events(entries));
      LastActionOfDistinct(c, (m, l), c[k].action);
      assert c[k] in c;
    }
  }

  lemma FlagEventExists(events: seq<Mutation>, i: int, m: string, l: string)
    requires 0 <= i < |FlagsOf(Compact(events))| && Touches(FlagOp(FlagsOf(Compact(events))[i]), m, l)
    ensures LastAction(events, (m, l)).Some?
  {
    FlagHasEvent(Compact(events), i, m, l);
    CompactKeepsLastAction(events, (m, l));
  }

  lemma FlagHasEvent(ms: seq<Mutation>, i: int, m: string, l: string)
    requires 0 <= i < |FlagsOf(ms)| && Touches(FlagOp(FlagsOf(ms)[i]), m, l)
    ensures LastAction(ms, (m, l)).Some?
  {
    assert FlagsOf(ms)[i] == FlagAt(ms)(FlagPositions(ms)[i]);
  }

  /** A pair with events in the log is decided by the poll, last by its final action. */
  ghost predicate Decides(steps: seq<Step>, i: int, m: string, l: string, has: bool) {
    && 0 <= i < |steps| && Touches(steps[i].op, m, l) && !steps[i].op.StoreOp?
    && (forall j :: i < j < |steps| ==> !Touches(steps[j].op, m, l))
    && (Outcome(steps[i].op, m, l) <==> has)
  }

  lemma LocalStepsDecide(entries: seq<Entry>, faults: Faults, folders: map<string, string>, m: string, l: string)
    returns (i: int)
    requires Tracked(folders, l) && !Quiet(entries, m, l)
    ensures Decides(LocalSteps(entries, faults), i, m, l, LastAction(Events(entries), (m, l)) == Some(Add))
  {
    if l in HIDDEN {
      i := FlagStepDecides(entries, faults, m, l);
    } else {
      i := LabelStepDecides(entries, faults, m, l);
    }
  }

  lemma FlagStepDecides(entries: seq<Entry>, faults: Faults, m: string, l: string) returns (i: int)
    requires (l == UNREAD || l == STARRED) && !Quiet(entries, m, l)
    ensures Decides(LocalSteps(entries, faults), i, m, l, LastAction(Events(entries), (m, l)) == Some(Add))
  {
    var c := Compact(Events(entries));
    StepsLayout(FlagsOf(c), DeletedIds(entries), c, faults);
    i := FlagStepOf(Events(entries), m, l);
  }

  lemma LabelStepDecides(entries: seq<Entry>, faults: Faults, m: string, l: string) returns (i: int)
    requires l !in HIDDEN && !Quiet(entries, m, l)
    ensures Decides(LocalSteps(entries, faults), i, m, l, LastAction(Events(entries), (m, l)) == Some(Add))
  {
    var last := LastAction(Events(entries), (m, l));
    var k := LabelStepOf(Events(entries), m, l);
    i := CompactDecides(Compact(Events(entries)), DeletedIds(entries), faults, k, m, l, last.value,
                        LocalSteps(entries, faults));
  }

  lemma CompactDecides(c: seq<Mutation>, deleted: seq<string>, faults: Faults, k: int, m: string, l: string, a: Action,
                       steps: seq<Step>) returns (i: int)
    requires 0 <= k < |c| && c[k] == Mutation(m, l, a) && l !in HIDDEN
    requires forall j :: k < j < |c| ==> PairOf(c[j]) != (m, l)
    requires steps == OrderedSteps(FlagsOf(c), deleted, c, faults)
    ensures Decides(steps, i, m, l, a == Add)
  {
    i := |FlagsOf(c)| + |deleted| + k;
    OrderedLabelDecides(FlagsOf(c), deleted, c, faults, k, m, l);
  }

  lemma OrderedLabelDecides(flags: seq<FlagChange>, deleted: seq<string>, c: seq<Mutation>, faults: Faults,
                            k: int, m: string, l: string)
    requires 0 <= k < |c| && PairOf(c[k]) == (m, l) && l !in HIDDEN
    requires forall j :: k < j < |c| ==> PairOf(c[j]) != (m, l)
    ensures Decides(OrderedSteps(flags, deleted, c, faults), |flags| + |deleted| + k, m, l, c[k].action == Add)
  {
    StepsLayout(flags, deleted, c, faults);
  }

  /** Where the compacted list decides a label. */
  lemma LabelStepOf(events: seq<Mutation>, m: string, l: string) returns (k: int)
    requires LastAction(events, (m, l)).Some?
    ensures var c := Compact(events);
            && 0 <= k < |c| && c[k] == Mutation(m, l, LastAction(events, (m, l)).value)
            && (forall j :: k < j < |c| ==> PairOf(c[j]) != (m, l))
  {
    var c := Compact(events);
    CompactKeepsLastAction(events, (m, l));
    CompactOncePerPair(events);
    var a := LastAction(events, (m, l)).value;
    LastActionOfDistinct(c, (m, l), a);
    k :| 0 <= k < |c| && c[k] == Mutation(m, l, a);
    forall j | k < j < |c| ensures PairOf(c[j]) != (m, l) { assert Keys(c)[j] != Keys(c)[k]; }
  }

  lemma FlagStepOf(events: seq<Mutation>, m: string, l: string) returns (i: int)
    requires l == UNREAD || l == STARRED
    requires LastAction(events, (m, l)).Some?
    ensures var flags := FlagsOf(Compact(events));
            && 0 <= i < |flags| && flags[i].message == m
            && (l == UNREAD ==> flags[i].read == Some(LastAction(events, (m, l)).value.Remove?))
            && (l == STARRED ==> flags[i].starred == Some(LastAction(events, (m, l)).value.Add?))
            && (forall j :: i < j < |flags| ==> flags[j].message != m)
  {
    var c := Compact(events);
    var flags := FlagsOf(c);
    CompactKeepsLastAction(events, (m, l));
    FlagsMatchFullReplay(events, m, Flags(false, false));
    var e := LastActionFrom(c, (m, l));
    var k := LastMention(c, m, e);
    assert Flagged(c)(m);
    assert k in FlagPositions(c);
    i :| 0 <= i < |flags| && FlagPositions(c)[i] == k;
  }

  // ---------------------------------------------------------------- the invariant

  // The server's log is `synced + pending`: the stored cursor is |synced|.

  /** Every held message agrees with the server on every tracked label that no pending
      label event mentions, except on the pairs in `exempt`. */
  ghost predicate Mirrors(synced: seq<Entry>, pending: seq<Entry>, born: string -> set<string>,
                          folders: map<string, string>, rows: Rows, exempt: set<Pair>)
  {
    forall m, l :: Live(rows, m) && Tracked(folders, l) && (m, l) !in exempt && Quiet(pending, m, l) ==>
      (LocalHas(rows[m], folders, l) <==> ServerHas(synced, born, m, l))
  }

  /** No held message was deleted on the server before the cursor. */
  ghost predicate NoGhosts(synced: seq<Entry>, rows: Rows) {
    forall m :: Live(rows, m) ==> !DeletedIn(synced, m)
  }

  /** The labels a fetch returned are the server's at some moment between `base` and
      `base + later`. */
  ghost predicate FetchedAt(base: seq<Entry>, later: seq<Entry>, born: string -> set<string>,
                            m: string, labels: seq<string>, t: int)
  {
    0 <= t <= |later| && forall l :: l in labels <==> ServerHas(base + later[..t], born, m, l)
  }

  ghost predicate TrueFetches(base: seq<Entry>, later: seq<Entry>, born: string -> set<string>,
                              fetch: string -> FetchReply)
  {
    forall m :: fetch(m).Fetched? ==> exists t :: FetchedAt(base, later, born, m, fetch(m).labels, t)
  }

  /** The fetched labels name no folder, so the message goes to a fallback folder. */
  ghost predicate Unmapped(folders: map<string, string>, labels: seq<string>) {
    MappedFolders(folders, VisibleLabels(labels)) == {}
  }

  /** A freshly fetched row agrees on every pair that is quiet from `base` on. */
  lemma FetchedRowAgrees(base: seq<Entry>, later: seq<Entry>, born: string -> set<string>, folders: map<string, string>,
                         t: int, m: string, labels: seq<string>, fallback: string, l: string)
    requires ValidFolders(folders) && Tracked(folders, l)
    requires FetchedAt(base, later, born, m, labels, t) && Quiet(later, m, l)
    requires Unmapped(folders, labels) && l in folders && l !in HIDDEN ==> folders[l] != fallback
    ensures LocalHas(FetchedRow(folders, labels, fallback), folders, l) <==> ServerHas(base, born, m, l)
  {
    assert later == later[..t] + later[t..];
    ServerHasConcat(later[..t], later[t..], born, m, l);
    ServerHasConcat(base, later[..t], born, m, l);
    assert l in labels <==> ServerHas(base, born, m, l);
    if l in folders && l !in HIDDEN {
      var mapped := MappedFolders(folders, VisibleLabels(labels));
      assert folders[l] in mapped <==> l in labels;
    }
  }

  lemma {:induction false} StoreRun(p: Phase, ids: seq<string>, fetch: string -> FetchReply, store: string -> bool,
                                    fallback: string, folders: map<string, string>, m: string)
    ensures var r := Run(p, StoreSteps(ids, fetch, store, fallback), folders).rows;
            Live(r, m) ==>
              || (Live(p.rows, m) && r[m] == p.rows[m])
              || (m in ids && fetch(m).Fetched? && r[m] == FetchedRow(folders, fetch(m).labels, fallback))
  {
    if ids == [] {
    } else {
      var n := |ids| - 1;
      assert ids == ids[..n] + [ids[n]];
      StoreRun(p, ids[..n], fetch, store, fallback, folders, m);
      StoreRunSnoc(p, ids[..n], ids[n], fetch, store, fallback, folders);
      StoreOneRow(Run(p, StoreSteps(ids[..n], fetch, store, fallback), folders),
                  ids[n], fetch, store, fallback, folders, m);
    }
  }

  lemma StoreOneRow(p: Phase, x: string, fetch: string -> FetchReply, store: string -> bool,
                    fallback: string, folders: map<string, string>, m: string)
    ensures var r := StoreOne(p, x, fetch, store, fallback, folders);
            && (Live(r.rows, m) ==>
                  || (Live(p.rows, m) && r.rows[m] == p.rows[m])
                  || (m == x && fetch(m).Fetched? && r.rows[m] == FetchedRow(folders, fetch(m).labels, fallback)))
            && (Live(p.rows, m) ==> Live(r.rows, m) && r.rows[m] == p.rows[m])
            && (m == x && fetch(m).Fetched? && r.failures == p.failures ==> Live(r.rows, m) && !Live(p.rows, m))
            && p.failures <= r.failures
  {
  }

  /** Storing fetched messages leaves every held message as it is; one that is fetched
      although it is held counts as a failure. */
  lemma {:induction false} HeldThroughStores(p: Phase, ids: seq<string>, fetch: string -> FetchReply,
                                             store: string -> bool, fallback: string, folders: map<string, string>,
                                             m: string)
    requires Live(p.rows, m)
    ensures var r := Run(p, StoreSteps(ids, fetch, store, fallback), folders);
            && Live(r.rows, m) && r.rows[m] == p.rows[m]
            && (m in ids && fetch(m).Fetched? ==> p.failures < r.failures)
  {
    if ids == [] {
    } else {
      var n := |ids| - 1;
      assert ids == ids[..n] + [ids[n]];
      HeldThroughStores(p, ids[..n], fetch, store, fallback, folders, m);
      StoreRunSnoc(p, ids[..n], ids[n], fetch, store, fallback, folders);
      StoreOneRow(Run(p, StoreSteps(ids[..n], fetch, store, fallback), folders),
                  ids[n], fetch, store, fallback, folders, m);
    }
  }

  // ---------------------------------------------------------------- one poll

  ghost function AfterLocal(rows: Rows, entries: seq<Entry>, faults: Faults, folders: map<string, string>): Phase {
    Run(Phase(rows, 0), LocalSteps(entries, faults), folders)
  }

  ghost function Wanted(rows: Rows, entries: seq<Entry>, faults: Faults, folders: map<string, string>): seq<string> {
    ToFetch(SurvivingAdditions(entries), AfterLocal(rows, entries, faults, folders).rows, faults.existing)
  }

  /** Pairs made wrong by the Inbox fallback of this poll. */
  ghost function FallbackPairs(wanted: seq<string>, fetch: string -> FetchReply, folders: map<string, string>)
    : set<Pair>
  {
    set m | m in wanted && fetch(m).Fetched? && Unmapped(folders, fetch(m).labels) :: (m, INBOX)
  }

  /** A row after fetching and storing is the row before it, or freshly fetched. */
  lemma FetchAndStoreRow(p: Phase, ids: seq<string>, fetch: string -> FetchReply, store: string -> bool,
                         fallback: string, count404: bool, folders: map<string, string>, m: string, r: Phase)
    requires r == FetchAndStorePhase(p, ids, fetch, store, fallback, count404, folders)
    ensures p.failures <= r.failures
    ensures Live(r.rows, m) ==>
              || (Live(p.rows, m) && r.rows[m] == p.rows[m])
              || (m in ids && fetch(m).Fetched? && r.rows[m] == FetchedRow(folders, fetch(m).labels, fallback))
  {
    StoreRun(Phase(p.rows, p.failures + FetchFailures(ids, fetch, count404)), ids, fetch, store, fallback, folders, m);
  }

  lemma FetchPhaseRow(p: Phase, ids: seq<string>, fetch: string -> FetchReply, faults: Faults,
                      folders: map<string, string>, m: string)
    requires Live(FetchPhase(p, ids, fetch, faults, folders).rows, m)
    ensures var end := FetchPhase(p, ids, fetch, faults, folders);
            && p.failures <= end.failures
            && ((Live(p.rows, m) && end.rows[m] == p.rows[m])
                || (m in ToFetch(ids, p.rows, faults.existing) && fetch(m).Fetched?
                    && end.rows[m] == FetchedRow(folders, fetch(m).labels, InboxFolder(folders))))
  {
    if ids != [] {
      var q := Phase(p.rows, p.failures + Count(faults.existing) + Count(faults.incomplete));
      FetchAndStoreRow(q, ToFetch(ids, p.rows, faults.existing), fetch, faults.store, InboxFolder(folders), false,
                       folders, m, FetchPhase(p, ids, fetch, faults, folders));
    }
  }

  /** A pair of a message held all through the poll's local steps: unmentioned pairs
      keep agreeing whatever fails, and a clean run makes the mentioned ones agree. */
  lemma HeldPair(synced: seq<Entry>, entries: seq<Entry>, tail: seq<Entry>, born: string -> set<string>,
                 folders: map<string, string>, rows: Rows, faults: Faults, exempt: set<Pair>, m: string, l: string,
                 steps: seq<Step>, mid: Phase)
    requires steps == LocalSteps(entries, faults) && mid == Run(Phase(rows, 0), steps, folders)
    requires ValidFolders(folders)
    requires Mirrors(synced, entries + tail, born, folders, rows, exempt)
    requires Tracked(folders, l) && (m, l) !in exempt && Live(mid.rows, m)
    requires Quiet(tail, m, l) && (Quiet(entries, m, l) || mid.failures == 0)
    ensures LocalHas(mid.rows[m], folders, l) <==> ServerHas(synced + entries, born, m, l)
  {
    ServerHasConcat(entries, tail, born, m, l);
    ServerHasConcat(synced, entries, born, m, l);
    if Quiet(entries, m, l) {
      forall i | 0 <= i < |steps| ensures !Touches(steps[i].op, m, l) {
        if Touches(steps[i].op, m, l) { LocalStepsTouch(entries, faults, i, m, l); }
      }
      RunUntouched(Phase(rows, 0), steps, folders, m, l);
    } else {
      var i := LocalStepsDecide(entries, faults, folders, m, l);
      RunApplied(Phase(rows, 0), steps, i, folders, m, l);
    }
  }

  /** The same after the whole poll. */
  lemma PollPair(synced: seq<Entry>, entries: seq<Entry>, tail: seq<Entry>, born: string -> set<string>,
                 folders: map<string, string>, rows: Rows, fetch: string -> FetchReply, faults: Faults,
                 exempt: set<Pair>, m: string, l: string, mid: Phase, wanted: seq<string>, end: Phase)
    requires mid == AfterLocal(rows, entries, faults, folders)
    requires wanted == ToFetch(SurvivingAdditions(entries), mid.rows, faults.existing)
    requires end == FetchPhase(mid, SurvivingAdditions(entries), fetch, faults, folders)
    requires ValidFolders(folders)
    requires Mirrors(synced, entries + tail, born, folders, rows, exempt)
    requires TrueFetches(synced + entries, tail, born, fetch)
    requires Tracked(folders, l) && (m, l) !in exempt && Live(end.rows, m)
    requires (m, l) !in FallbackPairs(wanted, fetch, folders)
    requires Quiet(tail, m, l) && (Quiet(entries, m, l) || end.failures == 0)
    ensures LocalHas(end.rows[m], folders, l) <==> ServerHas(synced + entries, born, m, l)
  {
    FetchPhaseRow(mid, SurvivingAdditions(entries), fetch, faults, folders, m);
    if m in wanted && fetch(m).Fetched?
       && end.rows[m] == FetchedRow(folders, fetch(m).labels, InboxFolder(folders)) {
      var t :| FetchedAt(synced + entries, tail, born, m, fetch(m).labels, t);
      assert Unmapped(folders, fetch(m).labels) ==> (m, INBOX) in FallbackPairs(wanted, fetch, folders);
      FetchedRowAgrees(synced + entries, tail, born, folders, t, m, fetch(m).labels, InboxFolder(folders), l);
    } else {
      HeldPair(synced, entries, tail, born, folders, rows, faults, exempt, m, l, LocalSteps(entries, faults), mid);
    }
  }

  /** Whatever fails, a poll keeps the mirror at the old cursor; a clean poll
      establishes it at the new one. */
  lemma PollKeepsMirror(synced: seq<Entry>, entries: seq<Entry>, tail: seq<Entry>, born: string -> set<string>,
                        folders: map<string, string>, rows: Rows, fetch: string -> FetchReply, faults: Faults,
                        exempt: set<Pair>)
    requires ValidFolders(folders)
    requires Mirrors(synced, entries + tail, born, folders, rows, exempt)
    requires TrueFetches(synced + entries, tail, born, fetch)
    ensures var end := PollPhase(rows, entries, fetch, faults, folders);
            var all := exempt + FallbackPairs(Wanted(rows, entries, faults, folders), fetch, folders);
            && Mirrors(synced, entries + tail, born, folders, end.rows, all)
            && (end.failures == 0 ==> Mirrors(synced + entries, tail, born, folders, end.rows, all))
  {
    var mid := AfterLocal(rows, entries, faults, folders);
    var wanted := Wanted(rows, entries, faults, folders);
    var end := FetchPhase(mid, SurvivingAdditions(entries), fetch, faults, folders);
    forall m, l | Live(end.rows, m) && Tracked(folders, l)
                  && (m, l) !in exempt + FallbackPairs(wanted, fetch, folders)
                  && Quiet(tail, m, l) && (Quiet(entries, m, l) || end.failures == 0)
      ensures LocalHas(end.rows[m], folders, l) <==> ServerHas(synced + entries, born, m, l)
    {
      PollPair(synced, entries, tail, born, folders, rows, fetch, faults, exempt, m, l, mid, wanted, end);
    }
    forall m, l ensures Quiet(entries + tail, m, l) ==>
                          && Quiet(entries, m, l) && Quiet(tail, m, l)
                          && (ServerHas(synced + entries, born, m, l) <==> ServerHas(synced, born, m, l))
    {
      ServerHasConcat(entries, tail, born, m, l);
      ServerHasConcat(synced, entries, born, m, l);
    }
  }

  // ---------------------------------------------------------------- deletions

  lemma {:induction false} ListedIds(entries: seq<Entry>, m: string)
    ensures m in DeletedIds(entries) <==> DeletedIn(entries, m)
    ensures m in AddedIds(entries) <==> AddedIn(entries, m)
  {
    if entries == [] {
    } else {
      var n := |entries| - 1;
      ListedIds(entries[..n], m);
      assert forall i :: 0 <= i < n ==> entries[i] == entries[..n][i];
    }
  }

  lemma {:induction false} RunStaysDead(p: Phase, steps: seq<Step>, folders: map<string, string>, m: string)
    requires forall s :: s in steps ==> !(s.op.StoreOp? && s.op.message == m)
    requires !Live(p.rows, m)
    ensures !Live(Run(p, steps, folders).rows, m)
  {
    if steps == [] {
    } else {
      RunStaysDead(p, steps[..|steps| - 1], folders, m);
    }
  }

  lemma RunDeletes(p: Phase, steps: seq<Step>, i: int, folders: map<string, string>, m: string)
    requires 0 <= i < |steps| && steps[i].op == DeleteOp(m)
    requires forall s :: s in steps ==> !s.op.StoreOp?
    requires Run(p, steps, folders).failures == p.failures
    ensures !Live(Run(p, steps, folders).rows, m)
  {
    var before := Run(p, steps[..i], folders);
    var after := Do(before, steps[i], folders);
    assert steps[..i + 1][..i] == steps[..i];
    assert after == Run(p, steps[..i + 1], folders);
    assert steps == steps[..i + 1] + steps[i + 1..];
    RunConcat(p, steps[..i + 1], steps[i + 1..], folders);
    RunStaysDead(after, steps[i + 1..], folders, m);
  }

  /** A clean run of a poll's local steps leaves no message of its deletion list. */
  lemma LocalDeletes(rows: Rows, entries: seq<Entry>, faults: Faults, folders: map<string, string>, m: string,
                     steps: seq<Step>)
    requires steps == LocalSteps(entries, faults)
    requires m in DeletedIds(entries) && Run(Phase(rows, 0), steps, folders).failures == 0
    ensures !Live(Run(Phase(rows, 0), steps, folders).rows, m)
  {
    var i := DeleteStepOf(entries, faults, m, steps);
    RunDeletes(Phase(rows, 0), steps, i, folders, m);
  }

  lemma DeleteStepOf(entries: seq<Entry>, faults: Faults, m: string, steps: seq<Step>) returns (i: int)
    requires steps == LocalSteps(entries, faults) && m in DeletedIds(entries)
    ensures 0 <= i < |steps| && steps[i].op == DeleteOp(m)
    ensures forall s :: s in steps ==> !s.op.StoreOp?
  {
    var c := Compact(Events(entries));
    var k :| 0 <= k < |DeletedIds(entries)| && DeletedIds(entries)[k] == m;
    OrderedDeleteAt(FlagsOf(c), DeletedIds(entries), c, faults, k);
    i := |FlagsOf(c)| + k;
  }

  lemma OrderedDeleteAt(flags: seq<FlagChange>, deleted: seq<string>, c: seq<Mutation>, faults: Faults, k: int)
    requires 0 <= k < |deleted|
    ensures var steps := OrderedSteps(flags, deleted, c, faults);
            && |flags| + k < |steps| && steps[|flags| + k].op == DeleteOp(deleted[k])
            && forall s :: s in steps ==> !s.op.StoreOp?
  {
    StepsLayout(flags, deleted, c, faults);
    OrderedStoreNothing(flags, deleted, c, faults);
  }

  lemma HeldNotDeleted(synced: seq<Entry>, entries: seq<Entry>, tail: seq<Entry>, folders: map<string, string>,
                       rows: Rows, fetch: string -> FetchReply, faults: Faults, m: string,
                       steps: seq<Step>, mid: Phase, end: Phase)
    requires steps == LocalSteps(entries, faults) && mid == Run(Phase(rows, 0), steps, folders)
    requires end == FetchPhase(mid, SurvivingAdditions(entries), fetch, faults, folders)
    requires WellFormed(synced + entries + tail) && NoGhosts(synced, rows) && Live(end.rows, m)
    ensures !DeletedIn(synced, m) && (end.failures == 0 ==> !DeletedIn(entries, m))
  {
    FetchPhaseRow(mid, SurvivingAdditions(entries), fetch, faults, folders, m);
    if Live(mid.rows, m) {
      StillHeld(rows, entries, folders, faults, m, steps, mid);
      if DeletedIn(entries, m) { ListedIds(entries, m); }
    } else {
      ListedIds(entries, m);
      NotReadded(synced, entries, tail, m);
    }
  }

  lemma StillHeld(rows: Rows, entries: seq<Entry>, folders: map<string, string>, faults: Faults, m: string,
                  steps: seq<Step>, mid: Phase)
    requires steps == LocalSteps(entries, faults) && mid == Run(Phase(rows, 0), steps, folders) && Live(mid.rows, m)
    ensures Live(rows, m) && (mid.failures == 0 ==> m !in DeletedIds(entries))
  {
    if !Live(rows, m) {
      LocalStepsStoreNothing(entries, faults, steps);
      RunStaysDead(Phase(rows, 0), steps, folders, m);
    }
    if mid.failures == 0 && m in DeletedIds(entries) { LocalDeletes(rows, entries, faults, folders, m, steps); }
  }

  lemma LocalStepsStoreNothing(entries: seq<Entry>, faults: Faults, steps: seq<Step>)
    requires steps == LocalSteps(entries, faults)
    ensures forall s :: s in steps ==> !s.op.StoreOp?
  {
    var c := Compact(Events(entries));
    OrderedStoreNothing(FlagsOf(c), DeletedIds(entries), c, faults);
  }

  lemma OrderedStoreNothing(flags: seq<FlagChange>, deleted: seq<string>, c: seq<Mutation>, faults: Faults)
    ensures forall s :: s in OrderedSteps(flags, deleted, c, faults) ==> !s.op.StoreOp?
  {
    var steps := OrderedSteps(flags, deleted, c, faults);
    StepsLayout(flags, deleted, c, faults);
    forall s | s in steps ensures !s.op.StoreOp? {
      var i :| 0 <= i < |steps| && steps[i] == s;
    }
  }

  lemma DeletedInConcat(a: seq<Entry>, b: seq<Entry>, m: string)
    ensures DeletedIn(a + b, m) ==> DeletedIn(a, m) || DeletedIn(b, m)
  {
    if DeletedIn(a + b, m) {
      var i :| 0 <= i < |a + b| && m in (a + b)[i].deleted;
      if i >= |a| { assert m in b[i - |a|].deleted; }
    }
  }

  lemma PollKeepsNoGhosts(synced: seq<Entry>, entries: seq<Entry>, tail: seq<Entry>,
                          folders: map<string, string>, rows: Rows, fetch: string -> FetchReply, faults: Faults)
    requires WellFormed(synced + entries + tail) && NoGhosts(synced, rows)
    ensures var end := PollPhase(rows, entries, fetch, faults, folders);
            NoGhosts(synced, end.rows) && (end.failures == 0 ==> NoGhosts(synced + entries, end.rows))
  {
    var steps := LocalSteps(entries, faults);
    var mid := Run(Phase(rows, 0), steps, folders);
    var end := FetchPhase(mid, SurvivingAdditions(entries), fetch, faults, folders);
    forall m | Live(end.rows, m)
      ensures !DeletedIn(synced, m) && (end.failures == 0 ==> !DeletedIn(synced + entries, m))
    {
      HeldNotDeleted(synced, entries, tail, folders, rows, fetch, faults, m, steps, mid, end);
      DeletedInConcat(synced, entries, m);
    }
  }

  lemma NotReadded(synced: seq<Entry>, entries: seq<Entry>, tail: seq<Entry>, m: string)
    requires WellFormed(synced + entries + tail) && AddedIn(entries, m)
    ensures !DeletedIn(synced, m)
  {
    var log := synced + entries + tail;
    var j :| 0 <= j < |entries| && m in entries[j].added;
    assert m in log[|synced| + j].added;
    forall i | 0 <= i < |synced| ensures m !in synced[i].deleted {
      assert log[i] == synced[i];
    }
  }

  /** Nothing that arrived is missed: after a clean poll every message added and not
      deleted in its history is held, unless its fetch found it gone. */
  lemma CleanPollHoldsArrivals(rows: Rows, entries: seq<Entry>, fetch: string -> FetchReply, faults: Faults,
                               folders: map<string, string>, m: string)
    requires PollPhase(rows, entries, fetch, faults, folders).failures == 0
    requires AddedIn(entries, m) && !DeletedIn(entries, m) && !fetch(m).NotFound?
    ensures Live(PollPhase(rows, entries, fetch, faults, folders).rows, m)
  {
    ListedIds(entries, m);
    CleanFetchHolds(AfterLocal(rows, entries, faults, folders), SurvivingAdditions(entries), fetch, faults, folders, m);
  }

  lemma CleanFetchHolds(p: Phase, ids: seq<string>, fetch: string -> FetchReply, faults: Faults,
                        folders: map<string, string>, m: string)
    requires FetchPhase(p, ids, fetch, faults, folders).failures == 0
    requires Live(p.rows, m) || (m in ids && !fetch(m).NotFound?)
    ensures Live(FetchPhase(p, ids, fetch, faults, folders).rows, m)
  {
    if ids == [] { return; }
    var wanted := ToFetch(ids, p.rows, faults.existing);
    var q := Phase(p.rows, p.failures + Count(faults.existing) + Count(faults.incomplete)
                           + FetchFailures(wanted, fetch, false));
    if m in wanted { NoFetchErrors(wanted, fetch, m); }
    CleanStores(q, wanted, fetch, faults.store, InboxFolder(folders), folders, m);
  }

  lemma {:induction false} NoFetchErrors(ids: seq<string>, fetch: string -> FetchReply, m: string)
    requires FetchFailures(ids, fetch, false) == 0 && m in ids
    ensures !fetch(m).FetchError?
  {
    if ids[|ids| - 1] != m {
      NoFetchErrors(ids[..|ids| - 1], fetch, m);
    }
  }

  lemma {:induction false} CleanStores(p: Phase, ids: seq<string>, fetch: string -> FetchReply, store: string -> bool,
                                       fallback: string, folders: map<string, string>, m: string)
    requires Run(p, StoreSteps(ids, fetch, store, fallback), folders).failures == p.failures
    requires Live(p.rows, m) || (m in ids && fetch(m).Fetched?)
    ensures Live(Run(p, StoreSteps(ids, fetch, store, fallback), folders).rows, m)
  {
    if ids == [] {
    } else {
      var n := |ids| - 1;
      assert ids == ids[..n] + [ids[n]];
      StoreRunSnoc(p, ids[..n], ids[n], fetch, store, fallback, folders);
      StoreOneRow(Run(p, StoreSteps(ids[..n], fetch, store, fallback), folders),
                  ids[n], fetch, store, fallback, folders, m);
      if Live(p.rows, m) || m in ids[..n] {
        CleanStores(p, ids[..n], fetch, store, fallback, folders, m);
      }
    }
  }

  // ---------------------------------------------------------------- whole runs

  datatype World = World(synced: seq<Entry>, pending: seq<Entry>, rows: Rows, exempt: set<Pair>)

  /** `entries` is the history up to the moment it was read, `tail` what the server
      did while the poll was still fetching. */
  datatype Poll = Poll(entries: seq<Entry>, tail: seq<Entry>, fetch: string -> FetchReply, faults: Faults,
                       announced: bool, saved: bool)

  datatype Happening = ServerActs(entry: Entry) | Polls(poll: Poll)

  ghost predicate Possible(w: World, h: Happening, born: string -> set<string>) {
    match h
    case ServerActs(entry) => WellFormed(w.synced + (w.pending + [entry]))
    case Polls(p) =>
      && w.pending <= p.entries
      && WellFormed(w.synced + p.entries + p.tail)
      && TrueFetches(w.synced + p.entries, p.tail, born, p.fetch)
  }

  ghost predicate Advances(p: Poll, end: Phase) {
    p.announced && p.saved && end.failures == 0
  }

  /** The world after a poll that ended in `end` with the fallback pairs `fallbacks`. */
  ghost function Settle(w: World, p: Poll, end: Phase, fallbacks: set<Pair>): World {
    if Advances(p, end) then World(w.synced + p.entries, p.tail, end.rows, w.exempt + fallbacks)
    else World(w.synced, p.entries + p.tail, end.rows, w.exempt + fallbacks)
  }

  ghost function After(w: World, h: Happening, folders: map<string, string>): World {
    match h
    case ServerActs(entry) => w.(pending := w.pending + [entry])
    case Polls(p) =>
      Settle(w, p, PollPhase(w.rows, p.entries, p.fetch, p.faults, folders),
             FallbackPairs(Wanted(w.rows, p.entries, p.faults, folders), p.fetch, folders))
  }

  ghost predicate Good(w: World, born: string -> set<string>, folders: map<string, string>) {
    && WellFormed(w.synced + w.pending)
    && Mirrors(w.synced, w.pending, born, folders, w.rows, w.exempt)
    && NoGhosts(w.synced, w.rows)
  }

  lemma MirrorsGrow(synced: seq<Entry>, pending: seq<Entry>, more: seq<Entry>, born: string -> set<string>,
                    folders: map<string, string>, rows: Rows, exempt: set<Pair>)
    requires Mirrors(synced, pending, born, folders, rows, exempt)
    ensures Mirrors(synced, pending + more, born, folders, rows, exempt)
  {
    forall m, l ensures Quiet(pending + more, m, l) ==> Quiet(pending, m, l) {
      ServerHasConcat(pending, more, born, m, l);
    }
  }

  lemma PollKeepsGood(w: World, p: Poll, born: string -> set<string>, folders: map<string, string>)
    requires ValidFolders(folders)
    requires w.pending == p.entries + p.tail && Good(w, born, folders)
    requires TrueFetches(w.synced + p.entries, p.tail, born, p.fetch)
    ensures Good(After(w, Polls(p), folders), born, folders)
  {
    assert w.synced + (p.entries + p.tail) == w.synced + p.entries + p.tail;
    PollKeepsMirror(w.synced, p.entries, p.tail, born, folders, w.rows, p.fetch, p.faults, w.exempt);
    PollKeepsNoGhosts(w.synced, p.entries, p.tail, folders, w.rows, p.fetch, p.faults);
  }

  lemma StepKeepsGood(w: World, h: Happening, born: string -> set<string>, folders: map<string, string>)
    requires ValidFolders(folders) && Good(w, born, folders) && Possible(w, h, born)
    ensures Good(After(w, h, folders), born, folders)
  {
    match h {
      case ServerActs(entry) =>
        MirrorsGrow(w.synced, w.pending, [entry], born, folders, w.rows, w.exempt);
      case Polls(p) =>
        var more := (p.entries + p.tail)[|w.pending|..];
        assert p.entries + p.tail == w.pending + more;
        MirrorsGrow(w.synced, w.pending, more, born, folders, w.rows, w.exempt);
        assert w.synced + (p.entries + p.tail) == w.synced + p.entries + p.tail;
        PollKeepsGood(w.(pending := p.entries + p.tail), p, born, folders);
        assert After(w.(pending := p.entries + p.tail), h, folders) == After(w, h, folders);
    }
  }

  ghost function AfterAll(w: World, hs: seq<Happening>, folders: map<string, string>): World {
    if hs == [] then w else After(AfterAll(w, hs[..|hs| - 1], folders), hs[|hs| - 1], folders)
  }

  ghost predicate PossibleRun(w: World, hs: seq<Happening>, born: string -> set<string>, folders: map<string, string>) {
    hs != [] ==>
      && PossibleRun(w, hs[..|hs| - 1], born, folders)
      && Possible(AfterAll(w, hs[..|hs| - 1], folders), hs[|hs| - 1], born)
  }

  /** Main result: any interleaving of server activity with clean and partly failed
      polls keeps the mirror. */
  lemma {:induction false} RunKeepsGood(w: World, hs: seq<Happening>, born: string -> set<string>,
                                        folders: map<string, string>)
    requires ValidFolders(folders) && Good(w, born, folders) && PossibleRun(w, hs, born, folders)
    ensures Good(AfterAll(w, hs, folders), born, folders)
  {
    if hs == [] {
    } else {
      RunKeepsGood(w, hs[..|hs| - 1], born, folders);
      StepKeepsGood(AfterAll(w, hs[..|hs| - 1], folders), hs[|hs| - 1], born, folders);
    }
  }

  /** Hence one clean poll of a server that stays quiet makes every held message equal
      to the server's on all tracked labels outside the fallback pairs, and leaves no
      deleted message visible. */
  lemma QuietPollEqualizes(w: World, p: Poll, born: string -> set<string>, folders: map<string, string>)
    requires ValidFolders(folders) && Good(w, born, folders) && Possible(w, Polls(p), born)
    requires p.entries == w.pending && p.tail == []
    requires Advances(p, PollPhase(w.rows, p.entries, p.fetch, p.faults, folders))
    ensures var after := After(w, Polls(p), folders);
            var log := w.synced + w.pending;
            forall m :: Live(after.rows, m) ==>
              && !DeletedIn(log, m)
              && forall l :: Tracked(folders, l) && (m, l) !in after.exempt ==>
                   (LocalHas(after.rows[m], folders, l) <==> ServerHas(log, born, m, l))
  {
    StepKeepsGood(w, Polls(p), born, folders);
    forall m, l ensures Quiet([], m, l) {}
  }

  /** A worker in the state of a world: same rows, cursor at the end of what is synced. */
  ghost predicate Follows(rows: Rows, cursor: Option<nat>, w: World) {
    rows == w.rows && cursor == Some(|w.synced|)
  }

  lemma FollowsSettled(w: World, p: Poll, end: Phase, fallbacks: set<Pair>, rows: Rows, cursor: Option<nat>)
    requires rows == end.rows
    requires cursor == Some(|w.synced| + if Advances(p, end) then |p.entries| else 0)
    ensures Follows(rows, cursor, Settle(w, p, end, fallbacks))
  {
  }

  lemma AfterPoll(w: World, p: Poll, folders: map<string, string>) returns (end: Phase, fallbacks: set<Pair>)
    ensures end == PollPhase(w.rows, p.entries, p.fetch, p.faults, folders)
    ensures After(w, Polls(p), folders) == Settle(w, p, end, fallbacks)
  {
    end := PollPhase(w.rows, p.entries, p.fetch, p.faults, folders);
    fallbacks := FallbackPairs(Wanted(w.rows, p.entries, p.faults, folders), p.fetch, folders);
  }

  /** The worker's own poll is a step of such a run. */
  method PollOnce(worker: GmailSyncWorker, p: Poll, ghost w: World)
    requires Follows(worker.rows, worker.cursor, w)
    modifies worker
    ensures Follows(worker.rows, worker.cursor, After(w, Polls(p), worker.folders))
  {
    ghost var end, fallbacks := AfterPoll(w, p, worker.folders);
    var id := if p.announced then Some(worker.cursor.value + |p.entries|) else None;
    ghost var reached := worker.PollHistory(Batch(p.entries, id, false), p.fetch, p.faults, p.saved);
    FollowsSettled(w, p, reached, fallbacks, worker.rows, worker.cursor);
  }
}
