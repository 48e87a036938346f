/** The initial label-by-label Gmail sync establishes the mirror: the cursor is read
    before any label is listed, so whatever happens during the listing is replayed later. */
module GmailInitial {
  import opened Basics
  import opened Sequences
  import opened GmailHistory
  import opened GmailSync
  import opened GmailMirror

  /** At moment `t` the message is live on the server and carries the label. */
  ghost predicate ShownAt(base: seq<Entry>, later: seq<Entry>, born: string -> set<string>,
                          labelId: string, m: string, t: int)
  {
    0 <= t <= |later| && ServerHas(base + later[..t], born, m, labelId) && !DeletedIn(base + later[..t], m)
  }

  /** Every listed message was shown at some moment, which may be another one for each:
      a listing is read page by page while the server changes. */
  ghost predicate TrueListing(base: seq<Entry>, later: seq<Entry>, born: string -> set<string>,
                              labelId: string, refs: seq<string>)
  {
    forall m :: m in refs ==> exists t :: ShownAt(base, later, born, labelId, m, t)
  }

  ghost predicate TrueReply(base: seq<Entry>, later: seq<Entry>, born: string -> set<string>,
                            labelId: string, reply: LabelReply)
  {
    && TrueFetches(base, later, born, reply.fetch)
    && (reply.listing.Some? ==> TrueListing(base, later, born, labelId, reply.listing.value))
  }

  lemma {:induction false} AddsRun(p: Phase, ids: seq<string>, labelId: string, add: nat -> bool,
                                   folders: map<string, string>, m: string, l: string)
    requires ValidFolders(folders) && Tracked(folders, l) && labelId !in HIDDEN
    ensures var r := Run(p, AddSteps(ids, labelId, add), folders).rows;
            && (Live(r, m) <==> Live(p.rows, m))
            && (Live(r, m) && LocalHas(p.rows[m], folders, l) ==> LocalHas(r[m], folders, l))
            && (Live(r, m) && LocalHas(r[m], folders, l) && !LocalHas(p.rows[m], folders, l) ==>
                  l == labelId && m in ids)
  {
    if ids == [] {
    } else {
      var n := |ids| - 1;
      assert AddSteps(ids, labelId, add)[..n] == AddSteps(ids[..n], labelId, add);
      AddsRun(p, ids[..n], labelId, add, folders, m, l);
    }
  }

  lemma ListedQuiet(base: seq<Entry>, later: seq<Entry>, born: string -> set<string>,
                    labelId: string, refs: seq<string>, m: string)
    requires TrueListing(base, later, born, labelId, refs) && m in refs
    ensures Quiet(later, m, labelId) ==> ServerHas(base, born, m, labelId)
    ensures !DeletedIn(base, m)
  {
    var t :| ShownAt(base, later, born, labelId, m, t);
    assert later == later[..t] + later[t..];
    ServerHasConcat(later[..t], later[t..], born, m, labelId);
    ServerHasConcat(base, later[..t], born, m, labelId);
    forall i | 0 <= i < |base| ensures m !in base[i].deleted {
      assert (base + later[..t])[i] == base[i];
    }
  }

  /** A pair after the adds of one label. */
  lemma AddedPair(base: seq<Entry>, later: seq<Entry>, born: string -> set<string>, folders: map<string, string>,
                  p: Phase, labelId: string, refs: seq<string>, ids: seq<string>, add: nat -> bool,
                  m: string, l: string)
    requires ValidFolders(folders) && labelId in folders && labelId !in HIDDEN
    requires PairAgrees(base, later, born, folders, p.rows, m, l)
    requires TrueListing(base, later, born, labelId, refs) && forall x :: x in ids ==> x in refs
    ensures PairAgrees(base, later, born, folders, Run(p, AddSteps(ids, labelId, add), folders).rows, m, l)
  {
    if Tracked(folders, l) {
      AddsRun(p, ids, labelId, add, folders, m, l);
      if l == labelId && m in ids {
        ListedQuiet(base, later, born, labelId, refs, m);
      }
    }
  }

  /** A pair of a message fetched because the label listed it. */
  lemma StoredPair(base: seq<Entry>, later: seq<Entry>, born: string -> set<string>, folders: map<string, string>,
                   labelId: string, refs: seq<string>, m: string, fetch: string -> FetchReply, l: string)
    requires ValidFolders(folders) && labelId in folders && labelId !in HIDDEN
    requires TrueListing(base, later, born, labelId, refs) && m in refs
    requires TrueFetches(base, later, born, fetch) && fetch(m).Fetched?
    requires Tracked(folders, l)
    ensures !DeletedIn(base, m)
    ensures Quiet(later, m, l) ==>
              (LocalHas(FetchedRow(folders, fetch(m).labels, folders[labelId]), folders, l)
               <==> ServerHas(base, born, m, l))
  {
    ListedQuiet(base, later, born, labelId, refs, m);
    if Quiet(later, m, l) {
      QuietStoredPair(base, later, born, folders, labelId, m, fetch, l);
    }
  }

  lemma QuietStoredPair(base: seq<Entry>, later: seq<Entry>, born: string -> set<string>, folders: map<string, string>,
                        labelId: string, m: string, fetch: string -> FetchReply, l: string)
    requires ValidFolders(folders) && labelId in folders && labelId !in HIDDEN
    requires Quiet(later, m, labelId) ==> ServerHas(base, born, m, labelId)
    requires TrueFetches(base, later, born, fetch) && fetch(m).Fetched?
    requires Tracked(folders, l) && Quiet(later, m, l)
    ensures LocalHas(FetchedRow(folders, fetch(m).labels, folders[labelId]), folders, l)
            <==> ServerHas(base, born, m, l)
  {
    var labels := fetch(m).labels;
    var u :| FetchedAt(base, later, born, m, labels, u);
    if l == labelId {
      assert later == later[..u] + later[u..];
      ServerHasConcat(later[..u], later[u..], born, m, l);
      ServerHasConcat(base, later[..u], born, m, l);
      assert l in VisibleLabels(labels);
      assert folders[l] in MappedFolders(folders, VisibleLabels(labels));
    }
    FetchedRowAgrees(base, later, born, folders, u, m, labels, folders[labelId], l);
  }

  ghost function Held(p: Phase, reply: LabelReply): seq<string>
    requires reply.listing.Some?
  {
    Keep(reply.listing.value, m => !reply.existing && Live(p.rows, m))
  }

  ghost function AfterAdds(p: Phase, labelId: string, reply: LabelReply, folders: map<string, string>): Phase
    requires reply.listing.Some?
  {
    Run(p, AddSteps(Held(p, reply), labelId, reply.add), folders)
  }

  /** A row after syncing a label is the row after its adds, or freshly fetched. */
  lemma LabelRow(p: Phase, labelId: string, reply: LabelReply, folders: map<string, string>, m: string)
    requires labelId in folders && reply.listing.Some?
    requires Live(SyncLabelPhase(p, labelId, reply, folders).rows, m)
    ensures var r := SyncLabelPhase(p, labelId, reply, folders).rows;
            var added := AfterAdds(p, labelId, reply, folders).rows;
            || (Live(added, m) && r[m] == added[m])
            || (m in reply.listing.value && reply.fetch(m).Fetched?
                && r[m] == FetchedRow(folders, reply.fetch(m).labels, folders[labelId]))
  {
    FetchAndStoreRow(AfterAdds(p, labelId, reply, folders), ToFetch(reply.listing.value, p.rows, reply.existing),
                     reply.fetch, reply.store, folders[labelId], true, folders, m,
                     SyncLabelPhase(p, labelId, reply, folders));
  }

  /** One pair's share of the mirror and of the absence of ghosts. */
  ghost predicate PairAgrees(base: seq<Entry>, later: seq<Entry>, born: string -> set<string>,
                             folders: map<string, string>, rows: Rows, m: string, l: string)
  {
    Live(rows, m) && Tracked(folders, l) ==>
      && !DeletedIn(base, m)
      && (Quiet(later, m, l) ==> (LocalHas(rows[m], folders, l) <==> ServerHas(base, born, m, l)))
  }

  ghost predicate MirrorsAt(base: seq<Entry>, later: seq<Entry>, born: string -> set<string>,
                            folders: map<string, string>, rows: Rows)
  {
    forall m, l :: PairAgrees(base, later, born, folders, rows, m, l)
  }

  lemma MirrorsAtMeans(base: seq<Entry>, later: seq<Entry>, born: string -> set<string>,
                       folders: map<string, string>, rows: Rows)
    ensures MirrorsAt(base, later, born, folders, rows)
            <==> Mirrors(base, later, born, folders, rows, {}) && NoGhosts(base, rows)
  {
    if MirrorsAt(base, later, born, folders, rows) {
      forall m ensures Live(rows, m) ==> !DeletedIn(base, m) {
        assert PairAgrees(base, later, born, folders, rows, m, UNREAD);
      }
      forall m, l ensures Live(rows, m) && Tracked(folders, l) && Quiet(later, m, l) ==>
                            (LocalHas(rows[m], folders, l) <==> ServerHas(base, born, m, l))
      {
        assert PairAgrees(base, later, born, folders, rows, m, l);
      }
    }
  }

  lemma SyncLabelPair(base: seq<Entry>, later: seq<Entry>, born: string -> set<string>, folders: map<string, string>,
                      p: Phase, labelId: string, reply: LabelReply, r: Rows, m: string, l: string)
    requires ValidFolders(folders) && labelId !in HIDDEN
    requires PairAgrees(base, later, born, folders, p.rows, m, l)
    requires TrueReply(base, later, born, labelId, reply)
    requires r == SyncLabelPhase(p, labelId, reply, folders).rows
    ensures PairAgrees(base, later, born, folders, r, m, l)
  {
    if labelId in folders && reply.listing.Some? && Live(r, m) && Tracked(folders, l) {
      var refs := reply.listing.value;
      LabelRow(p, labelId, reply, folders, m);
      var added := AfterAdds(p, labelId, reply, folders).rows;
      if Live(added, m) && r[m] == added[m] {
        AddedPair(base, later, born, folders, p, labelId, refs, Held(p, reply), reply.add, m, l);
      } else {
        StoredPair(base, later, born, folders, labelId, refs, m, reply.fetch, l);
      }
    }
  }

  ghost predicate TrueReplies(base: seq<Entry>, later: seq<Entry>, born: string -> set<string>,
                              labels: seq<string>, replies: nat -> LabelReply)
  {
    forall i :: 0 <= i < |labels| ==> TrueReply(base, later, born, labels[i], replies(i))
  }

  /** Syncing the labels keeps each pair that agrees at the cursor read before them. */
  lemma {:induction false} InitialKeepsPair(base: seq<Entry>, later: seq<Entry>, born: string -> set<string>,
                                            folders: map<string, string>, p: Phase, labels: seq<string>,
                                            replies: nat -> LabelReply, m: string, l: string)
    requires ValidFolders(folders) && forall l :: l in labels ==> l !in HIDDEN
    requires PairAgrees(base, later, born, folders, p.rows, m, l)
    requires TrueReplies(base, later, born, labels, replies)
    ensures PairAgrees(base, later, born, folders, InitialPhase(p, labels, replies, folders).rows, m, l)
  {
    if labels == [] {
    } else {
      var n := |labels| - 1;
      InitialKeepsPair(base, later, born, folders, p, labels[..n], replies, m, l);
      var before := InitialPhase(p, labels[..n], replies, folders);
      SyncLabelPair(base, later, born, folders, before, labels[n], replies(n),
                    InitialPhase(p, labels, replies, folders).rows, m, l);
    }
  }

  lemma InitialKeeps(base: seq<Entry>, later: seq<Entry>, born: string -> set<string>, folders: map<string, string>,
                     p: Phase, labels: seq<string>, replies: nat -> LabelReply)
    requires ValidFolders(folders) && forall l :: l in labels ==> l !in HIDDEN
    requires MirrorsAt(base, later, born, folders, p.rows)
    requires TrueReplies(base, later, born, labels, replies)
    ensures MirrorsAt(base, later, born, folders, InitialPhase(p, labels, replies, folders).rows)
  {
    forall m, l ensures PairAgrees(base, later, born, folders, InitialPhase(p, labels, replies, folders).rows, m, l) {
      InitialKeepsPair(base, later, born, folders, p, labels, replies, m, l);
    }
  }

  /** The world after an initial sync whose cursor was read at `base`. */
  ghost function FirstWorld(base: seq<Entry>, later: seq<Entry>, rows: Rows, remoteIds: seq<string>,
                            replies: nat -> LabelReply, folders: map<string, string>): World
  {
    World(base, later, InitialPhase(Phase(rows, 0), SyncLabelIds(remoteIds), replies, folders).rows, {})
  }

  /** Main result: from a store that holds nothing, after an initial sync whose cursor
      was read at `base` and any later interleaving of server activity and polls, the
      mirror holds. */
  lemma MirrorFromInitialSync(base: seq<Entry>, later: seq<Entry>, born: string -> set<string>,
                              folders: map<string, string>, rows: Rows, remoteIds: seq<string>,
                              replies: nat -> LabelReply, hs: seq<Happening>)
    requires ValidFolders(folders) && WellFormed(base + later)
    requires forall m :: !Live(rows, m)
    requires TrueReplies(base, later, born, SyncLabelIds(remoteIds), replies)
    requires PossibleRun(FirstWorld(base, later, rows, remoteIds, replies, folders), hs, born, folders)
    ensures Good(AfterAll(FirstWorld(base, later, rows, remoteIds, replies, folders), hs, folders), born, folders)
  {
    var w := FirstWorld(base, later, rows, remoteIds, replies, folders);
    InitialKeeps(base, later, born, folders, Phase(rows, 0), SyncLabelIds(remoteIds), replies);
    MirrorsAtMeans(base, later, born, folders, w.rows);
    RunKeepsGood(w, hs, born, folders);
  }

  // ---------------------------------------------------------------- what is held afterwards

  lemma {:induction false} NoFetchMissing(ids: seq<string>, fetch: string -> FetchReply, m: string)
    requires FetchFailures(ids, fetch, true) == 0 && m in ids
    ensures fetch(m).Fetched?
  {
    if ids[|ids| - 1] != m {
      NoFetchMissing(ids[..|ids| - 1], fetch, m);
    }
  }

  lemma CleanLabelHolds(p: Phase, labelId: string, reply: LabelReply, folders: map<string, string>, m: string)
    requires ValidFolders(folders) && labelId !in HIDDEN && labelId in folders
    requires SyncLabelPhase(p, labelId, reply, folders).failures == p.failures
    requires Live(p.rows, m) || (reply.listing.Some? && m in reply.listing.value)
    ensures Live(SyncLabelPhase(p, labelId, reply, folders).rows, m)
  {
    var wanted := ToFetch(reply.listing.value, p.rows, reply.existing);
    var added := AfterAdds(p, labelId, reply, folders);
    AddsRun(p, Held(p, reply), labelId, reply.add, folders, m, UNREAD);
    FetchAndStoreHolds(p.failures, added, wanted, reply.fetch, reply.store, folders[labelId], folders, m);
  }

  lemma CleanFetchAndStore(before: nat, p: Phase, ids: seq<string>, fetch: string -> FetchReply, store: string -> bool,
                           fallback: string, folders: map<string, string>)
    requires before <= p.failures
    requires FetchAndStorePhase(p, ids, fetch, store, fallback, true, folders).failures == before
    ensures before == p.failures && FetchFailures(ids, fetch, true) == 0
    ensures FetchAndStorePhase(p, ids, fetch, store, fallback, true, folders)
            == Run(p, StoreSteps(ids, fetch, store, fallback), folders)
  {
    var start := Phase(p.rows, p.failures + FetchFailures(ids, fetch, true));
    assert start.failures <= Run(start, StoreSteps(ids, fetch, store, fallback), folders).failures;
    assert start == p;
  }

  lemma FetchAndStoreHolds(before: nat, p: Phase, ids: seq<string>, fetch: string -> FetchReply, store: string -> bool,
                           fallback: string, folders: map<string, string>, m: string)
    requires before <= p.failures
    requires FetchAndStorePhase(p, ids, fetch, store, fallback, true, folders).failures == before
    requires Live(p.rows, m) || m in ids
    ensures Live(FetchAndStorePhase(p, ids, fetch, store, fallback, true, folders).rows, m)
  {
    CleanFetchAndStore(before, p, ids, fetch, store, fallback, folders);
    if m in ids { NoFetchMissing(ids, fetch, m); }
    CleanStores(p, ids, fetch, store, fallback, folders, m);
  }

  lemma {:induction false} InOrderFailuresGrow(p: Phase, labels: seq<string>, sync: LabelSync)
    requires forall q: Phase, l, j :: q.failures <= sync(q, l, j).failures
    ensures p.failures <= SyncInOrder(p, labels, sync).failures
  {
    if labels == [] {
    } else {
      InOrderFailuresGrow(p, labels[..|labels| - 1], sync);
    }
  }

  lemma {:induction false} InOrderHolds(p: Phase, labels: seq<string>, sync: LabelSync, i: int, m: string)
    requires forall q: Phase, l, j :: q.failures <= sync(q, l, j).failures
    requires forall q: Phase, l, j: nat ::
               (j < |labels| && l == labels[j] && sync(q, l, j).failures == q.failures && (Live(q.rows, m) || j == i))
               ==> Live(sync(q, l, j).rows, m)
    requires SyncInOrder(p, labels, sync).failures == p.failures && 0 <= i < |labels|
    ensures Live(SyncInOrder(p, labels, sync).rows, m)
  {
    var n := |labels| - 1;
    InOrderFailuresGrow(p, labels[..n], sync);
    if i < n {
      InOrderHolds(p, labels[..n], sync, i, m);
    }
  }

  lemma LabelFailuresGrow(p: Phase, labelId: string, reply: LabelReply, folders: map<string, string>)
    ensures p.failures <= SyncLabelPhase(p, labelId, reply, folders).failures
  {
  }

  /** After an initial sync without failures, every message any label listed is held. */
  lemma CleanInitialHoldsListed(p: Phase, labels: seq<string>, replies: nat -> LabelReply,
                                folders: map<string, string>, i: int, m: string)
    requires ValidFolders(folders) && forall l :: l in labels ==> l !in HIDDEN && l in folders
    requires InitialPhase(p, labels, replies, folders).failures == p.failures
    requires 0 <= i < |labels| && replies(i).listing.Some? && m in replies(i).listing.value
    ensures Live(InitialPhase(p, labels, replies, folders).rows, m)
  {
    var sync := LabelSyncer(replies, folders);
    forall q: Phase, l, j: nat ensures q.failures <= sync(q, l, j).failures {
      LabelFailuresGrow(q, l, replies(j), folders);
    }
    forall q: Phase, l, j: nat | j < |labels| && l == labels[j] && sync(q, l, j).failures == q.failures
                          && (Live(q.rows, m) || j == i)
      ensures Live(sync(q, l, j).rows, m)
    {
      assert labels[j] in labels;
      CleanLabelHolds(q, l, replies(j), folders, m);
    }
    InOrderHolds(p, labels, sync, i, m);
  }

  // ---------------------------------------------------------------- a resync of a store that holds messages

  /** Some synced label `l` listed the message. */
  ghost predicate ListedUnder(labels: seq<string>, replies: nat -> LabelReply, m: string, l: string) {
    exists i :: 0 <= i < |labels| && labels[i] == l && replies(i).listing.Some? && m in replies(i).listing.value
  }

  /** One label's clean sync adds its folder to a held message it lists, and no more. */
  lemma HeldThroughLabel(p: Phase, labelId: string, reply: LabelReply, folders: map<string, string>,
                         m: string, l: string)
    requires ValidFolders(folders) && labelId !in HIDDEN && Tracked(folders, l) && Live(p.rows, m)
    requires SyncLabelPhase(p, labelId, reply, folders).failures == p.failures
    ensures var r := SyncLabelPhase(p, labelId, reply, folders).rows;
            Live(r, m) &&
            (LocalHas(r[m], folders, l) <==>
               LocalHas(p.rows[m], folders, l) || (l == labelId && reply.listing.Some? && m in reply.listing.value))
  {
    if labelId in folders {
      var wanted := ToFetch(reply.listing.value, p.rows, reply.existing);
      var added := AfterAdds(p, labelId, reply, folders);
      CleanFetchAndStore(p.failures, added, wanted, reply.fetch, reply.store, folders[labelId], folders);
      AddsRun(p, Held(p, reply), labelId, reply.add, folders, m, l);
      HeldThroughStores(added, wanted, reply.fetch, reply.store, folders[labelId], folders, m);
      if m in wanted { NoFetchMissing(wanted, reply.fetch, m); }
      if m in Held(p, reply) { CleanAdds(p, Held(p, reply), labelId, reply.add, folders, m); }
    }
  }

  lemma {:induction false} CleanAdds(p: Phase, ids: seq<string>, labelId: string, add: nat -> bool,
                                     folders: map<string, string>, m: string)
    requires ValidFolders(folders) && labelId in folders && labelId !in HIDDEN
    requires Run(p, AddSteps(ids, labelId, add), folders).failures == p.failures
    requires Live(p.rows, m) && m in ids
    ensures var r := Run(p, AddSteps(ids, labelId, add), folders).rows;
            Live(r, m) && LocalHas(r[m], folders, labelId)
  {
    var n := |ids| - 1;
    assert AddSteps(ids, labelId, add)[..n] == AddSteps(ids[..n], labelId, add);
    AddsRun(p, ids[..n], labelId, add, folders, m, labelId);
    if ids[n] != m { CleanAdds(p, ids[..n], labelId, add, folders, m); }
  }

  lemma {:induction false} HeldThroughLabels(p: Phase, labels: seq<string>, replies: nat -> LabelReply,
                                             folders: map<string, string>, m: string, l: string)
    requires ValidFolders(folders) && Tracked(folders, l) && Live(p.rows, m)
    requires forall x :: x in labels ==> x !in HIDDEN
    requires InitialPhase(p, labels, replies, folders).failures == p.failures
    ensures var r := InitialPhase(p, labels, replies, folders).rows;
            Live(r, m) &&
            (LocalHas(r[m], folders, l) <==> LocalHas(p.rows[m], folders, l) || ListedUnder(labels, replies, m, l))
  {
    if labels == [] {
    } else {
      var n := |labels| - 1;
      var before := InitialPhase(p, labels[..n], replies, folders);
      LabelsFailuresGrow(p, labels[..n], replies, folders);
      LabelFailuresGrow(before, labels[n], replies(n), folders);
      HeldThroughLabels(p, labels[..n], replies, folders, m, l);
      HeldThroughLabel(before, labels[n], replies(n), folders, m, l);
      ListedUnderSnoc(labels, replies, m, l);
    }
  }

  lemma ListedUnderSnoc(labels: seq<string>, replies: nat -> LabelReply, m: string, l: string)
    requires labels != []
    ensures var n := |labels| - 1;
            ListedUnder(labels, replies, m, l) <==>
              ListedUnder(labels[..n], replies, m, l)
              || (l == labels[n] && replies(n).listing.Some? && m in replies(n).listing.value)
  {
    var n := |labels| - 1;
    if i :| 0 <= i < n && labels[..n][i] == l && replies(i).listing.Some? && m in replies(i).listing.value {
      assert labels[i] == l;
    }
    if i :| 0 <= i < n && labels[i] == l && replies(i).listing.Some? && m in replies(i).listing.value {
      assert labels[..n][i] == l;
    }
  }

  lemma LabelsFailuresGrow(p: Phase, labels: seq<string>, replies: nat -> LabelReply, folders: map<string, string>)
    ensures p.failures <= InitialPhase(p, labels, replies, folders).failures
  {
    forall q: Phase, l, j: nat ensures q.failures <= LabelSyncer(replies, folders)(q, l, j).failures {
      LabelFailuresGrow(q, l, replies(j), folders);
    }
    InOrderFailuresGrow(p, labels, LabelSyncer(replies, folders));
  }

  /** What a resync needs of a pair of a message held before it: the message is not deleted
      on the server, and what the store shows of the pair, together with what the listings
      show, is what the server has. A listing only adds, so a stale label or flag stays. */
  ghost predicate Repaired(base: seq<Entry>, later: seq<Entry>, born: string -> set<string>,
                           folders: map<string, string>, rows: Rows, labels: seq<string>,
                           replies: nat -> LabelReply, m: string, l: string)
  {
    Live(rows, m) && Tracked(folders, l) ==>
      && !DeletedIn(base, m)
      && (Quiet(later, m, l) ==>
            (LocalHas(rows[m], folders, l) || ListedUnder(labels, replies, m, l) <==> ServerHas(base, born, m, l)))
  }

  /** Exactly when a resync without failures makes the mirror hold at its cursor. */
  lemma ResyncMirrorsIff(base: seq<Entry>, later: seq<Entry>, born: string -> set<string>, folders: map<string, string>,
                         rows: Rows, remoteIds: seq<string>, replies: nat -> LabelReply)
    requires ValidFolders(folders)
    requires TrueReplies(base, later, born, SyncLabelIds(remoteIds), replies)
    requires InitialPhase(Phase(rows, 0), SyncLabelIds(remoteIds), replies, folders).failures == 0
    ensures MirrorsAt(base, later, born, folders,
                      InitialPhase(Phase(rows, 0), SyncLabelIds(remoteIds), replies, folders).rows)
            <==> forall m, l :: Repaired(base, later, born, folders, rows, SyncLabelIds(remoteIds), replies, m, l)
  {
    var labels := SyncLabelIds(remoteIds);
    var r := InitialPhase(Phase(rows, 0), labels, replies, folders).rows;
    forall m, l ensures PairAgrees(base, later, born, folders, r, m, l)
                        <==> Repaired(base, later, born, folders, rows, labels, replies, m, l)
    {
      if Live(rows, m) {
        if Tracked(folders, l) { HeldThroughLabels(Phase(rows, 0), labels, replies, folders, m, l); }
      } else {
        InitialKeepsPair(base, later, born, folders, Phase(rows, 0), labels, replies, m, l);
      }
    }
  }

  /** A listing shows every message that carries the label all the time. */
  ghost predicate CompleteListing(base: seq<Entry>, later: seq<Entry>, born: string -> set<string>,
                                  labelId: string, refs: seq<string>)
  {
    forall m :: (forall t | 0 <= t <= |later| :: ShownAt(base, later, born, labelId, m, t)) ==> m in refs
  }

  lemma QuietIsShown(base: seq<Entry>, later: seq<Entry>, born: string -> set<string>, l: string, m: string, t: int)
    requires 0 <= t <= |later| && Quiet(later, m, l) && ServerHas(base, born, m, l)
    requires !DeletedIn(base, m) && !DeletedIn(later, m)
    ensures ShownAt(base, later, born, l, m, t)
  {
    assert later == later[..t] + later[t..];
    ServerHasConcat(later[..t], later[t..], born, m, l);
    ServerHasConcat(base, later[..t], born, m, l);
    forall i | 0 <= i < t ensures m !in later[..t][i].deleted { assert later[..t][i] == later[i]; }
    DeletedInConcat(base, later[..t], m);
  }

  /** With complete listings only the store decides: a pair of a message held before, and not
      deleted during the resync, needs the right flag, or no label the server lacks. */
  lemma RepairedIff(base: seq<Entry>, later: seq<Entry>, born: string -> set<string>, folders: map<string, string>,
                    rows: Rows, labels: seq<string>, replies: nat -> LabelReply, m: string, l: string, i: nat)
    requires Live(rows, m) && Tracked(folders, l) && !DeletedIn(later, m)
    requires TrueReplies(base, later, born, labels, replies) && forall x :: x in labels ==> x !in HIDDEN
    requires l !in HIDDEN ==> i < |labels| && labels[i] == l && replies(i).listing.Some?
                              && CompleteListing(base, later, born, l, replies(i).listing.value)
    ensures Repaired(base, later, born, folders, rows, labels, replies, m, l) <==>
              && !DeletedIn(base, m)
              && (Quiet(later, m, l) && LocalHas(rows[m], folders, l) ==> ServerHas(base, born, m, l))
              && (Quiet(later, m, l) && ServerHas(base, born, m, l) ==> LocalHas(rows[m], folders, l) || l !in HIDDEN)
  {
    if k :| 0 <= k < |labels| && labels[k] == l && replies(k).listing.Some? && m in replies(k).listing.value {
      assert labels[k] in labels;
      ListedQuiet(base, later, born, l, replies(k).listing.value, m);
    }
    if l !in HIDDEN && !DeletedIn(base, m) && Quiet(later, m, l) && ServerHas(base, born, m, l) {
      forall t | 0 <= t <= |later| ensures ShownAt(base, later, born, l, m, t) {
        QuietIsShown(base, later, born, l, m, t);
      }
    }
  }

  /** The worker's own initial sync starts such a run: if it stores the cursor it read at
      `base`, the worker is in the state of a world in which the mirror holds. */
  method SyncInitially(worker: GmailSyncWorker, remoteIds: seq<string>, replies: nat -> LabelReply, saved: bool,
                       ghost base: seq<Entry>, ghost later: seq<Entry>, ghost born: string -> set<string>,
                       historyId: nat)
    returns (ghost w: World)
    requires ValidFolders(worker.folders) && WellFormed(base + later) && historyId == |base|
    requires forall m :: !Live(worker.rows, m)
    requires TrueReplies(base, later, born, SyncLabelIds(remoteIds), replies)
    modifies worker
    ensures w == World(base, later, worker.rows, {}) && Good(w, born, worker.folders)
    ensures var end := InitialPhase(Phase(old(worker.rows), 0), SyncLabelIds(remoteIds), replies, worker.folders);
            if end.failures == 0 && saved then Follows(worker.rows, worker.cursor, w)
            else worker.cursor == old(worker.cursor)
  {
    ghost var rows := worker.rows;
    var ok := worker.InitialSync(Profile(Some(historyId)), remoteIds, replies, saved);
    w := World(base, later, worker.rows, {});
    MirrorFromInitialSync(base, later, born, worker.folders, rows, remoteIds, replies, []);
  }
}
