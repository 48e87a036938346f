/** Flag reconciliation with a server (crates/pebble-mail/src/reconcile.rs). */
module Reconcile {
  import opened Basics
  import opened Sequences
  import opened Text

  const GRACE_SECS := 60
  const U32_MAX := 0xFFFF_FFFF

  datatype Row = Row(id: string, remoteId: string, isRead: bool, isStarred: bool, updatedAt: int)

  datatype Remote = Remote(uid: nat, isRead: bool, isStarred: bool)

  /** A flag that does not change is absent. */
  datatype Change = Change(id: string, read: Option<bool>, starred: Option<bool>)

  function Uid(row: Row): Option<nat> { ParseNumber(row.remoteId, U32_MAX) }

  /** The last flags reported for a UID. */
  function RemoteFlags(remote: seq<Remote>, uid: nat): Option<Remote> {
    if remote == [] then None
    else if remote[|remote| - 1].uid == uid then Some(remote[|remote| - 1])
    else RemoteFlags(remote[..|remote| - 1], uid)
  }

  function Differing(local: bool, remote: bool): Option<bool> { if local != remote then Some(remote) else None }

  /** The server's flags for a row, if the row is past its grace and the server knows it. */
  function Wanted(row: Row, remote: seq<Remote>, now: int): Option<Remote> {
    if now - row.updatedAt < GRACE_SECS || Uid(row).None? then None else RemoteFlags(remote, Uid(row).value)
  }

  function ChangeOf(row: Row, remote: seq<Remote>, now: int): Option<Change> {
    match Wanted(row, remote, now)
    case None => None
    case Some(flags) =>
      var change := Change(row.id, Differing(row.isRead, flags.isRead), Differing(row.isStarred, flags.isStarred));
      if change.read.Some? || change.starred.Some? then Some(change) else None
  }

  function FlagDiff(local: seq<Row>, remote: seq<Remote>, now: int): seq<Change> {
    if local == [] then []
    else
      var n := |local| - 1;
      var change := ChangeOf(local[n], remote, now);
      FlagDiff(local[..n], remote, now) + if change.Some? then [change.value] else []
  }

  function At(table: map<nat, Remote>, uid: nat): Option<Remote> { if uid in table then Some(table[uid]) else None }

  method BuildRemoteMap(remote: seq<Remote>) returns (table: map<nat, Remote>)
    ensures forall uid: nat :: At(table, uid) == RemoteFlags(remote, uid)
  {
    table := map[];
    for i := 0 to |remote|
      invariant forall uid: nat :: At(table, uid) == RemoteFlags(remote[..i], uid)
    {
      assert remote[..i + 1][..i] == remote[..i];
      table := table[remote[i].uid := remote[i]];
    }
    assert remote[..|remote|] == remote;
  }

  method ComputeFlagDiff(local: seq<Row>, remote: seq<Remote>, now: int) returns (changes: seq<Change>)
    ensures changes == FlagDiff(local, remote, now)
  {
    var table := BuildRemoteMap(remote);
    changes := [];
    for i := 0 to |local|
      invariant changes == FlagDiff(local[..i], remote, now)
    {
      assert local[..i + 1][..i] == local[..i];
      var row := local[i];
      if now - row.updatedAt < GRACE_SECS {
        continue;
      }
      var uid := Uid(row);
      if uid.None? {
        continue;
      }
      assert At(table, uid.value) == RemoteFlags(remote, uid.value);
      if uid.value in table {
        var flags := table[uid.value];
        var readChange, starredChange := Differing(row.isRead, flags.isRead), Differing(row.isStarred, flags.isStarred);
        if readChange.Some? || starredChange.Some? {
          changes := changes + [Change(row.id, readChange, starredChange)];
        }
      }
    }
    assert local[..|local|] == local;
  }

  // ---------------------------------------------------------------- applying a diff

  function Changed(row: Row, c: Change): Row {
    row.(isRead := c.read.UnwrapOr(row.isRead), isStarred := c.starred.UnwrapOr(row.isStarred))
  }

  /** Changes name rows by id and are applied in order. */
  function Updated(row: Row, changes: seq<Change>): Row {
    if changes == [] then row
    else
      var n := |changes| - 1;
      var before := Updated(row, changes[..n]);
      if changes[n].id == row.id then Changed(before, changes[n]) else before
  }

  lemma UpdatedSnoc(row: Row, changes: seq<Change>, c: Change)
    ensures Updated(row, changes + [c])
            == if c.id == row.id then Changed(Updated(row, changes), c) else Updated(row, changes)
  {
    assert (changes + [c])[..|changes|] == changes;
  }

  /** A row as the server wants it. */
  function Reconciled(row: Row, remote: seq<Remote>, now: int): Row {
    match Wanted(row, remote, now)
    case None => row
    case Some(flags) => row.(isRead := flags.isRead, isStarred := flags.isStarred)
  }

  ghost predicate UniqueIds(local: seq<Row>) {
    forall i, j :: 0 <= i < j < |local| ==> local[i].id != local[j].id
  }

  lemma {:induction false} DiffLeavesOthers(local: seq<Row>, remote: seq<Remote>, now: int, row: Row)
    requires forall i :: 0 <= i < |local| ==> local[i].id != row.id
    ensures Updated(row, FlagDiff(local, remote, now)) == row
  {
    if local == [] {
    } else {
      var n := |local| - 1;
      DiffLeavesOthers(local[..n], remote, now, row);
      StepOfDiff(local, remote, now, row);
    }
  }

  lemma StepOfDiff(local: seq<Row>, remote: seq<Remote>, now: int, row: Row)
    requires local != []
    ensures var n := |local| - 1;
            var before := Updated(row, FlagDiff(local[..n], remote, now));
            var change := ChangeOf(local[n], remote, now);
            Updated(row, FlagDiff(local, remote, now))
            == if change.Some? && local[n].id == row.id then Changed(before, change.value) else before
  {
    var n := |local| - 1;
    var change := ChangeOf(local[n], remote, now);
    if change.Some? {
      UpdatedSnoc(row, FlagDiff(local[..n], remote, now), change.value);
    } else {
      assert FlagDiff(local, remote, now) == FlagDiff(local[..n], remote, now);
    }
  }

  /** A row's change takes it where the server wants it, and there it needs none. */
  lemma ChangeReconciles(row: Row, remote: seq<Remote>, now: int)
    ensures match ChangeOf(row, remote, now)
            case None => Reconciled(row, remote, now) == row
            case Some(c) => Changed(row, c) == Reconciled(row, remote, now)
    ensures ChangeOf(Reconciled(row, remote, now), remote, now).None?
  {
    assert Uid(Reconciled(row, remote, now)) == Uid(row);
  }

  /** Applying the diff makes every row what the server wants: rows past their grace with a
      UID the server knows get its last flags, all others stay. */
  lemma {:induction false} DiffReconciles(local: seq<Row>, remote: seq<Remote>, now: int, i: nat)
    requires UniqueIds(local) && i < |local|
    ensures Updated(local[i], FlagDiff(local, remote, now)) == Reconciled(local[i], remote, now)
  {
    var n, row := |local| - 1, local[i];
    StepOfDiff(local, remote, now, row);
    if i < n {
      assert local[..n][i] == row;
      DiffReconciles(local[..n], remote, now, i);
    } else {
      DiffLeavesOthers(local[..n], remote, now, row);
      ChangeReconciles(row, remote, now);
    }
  }

  function ReconciledAll(local: seq<Row>, remote: seq<Remote>, now: int): seq<Row> {
    seq(|local|, i requires 0 <= i < |local| => Updated(local[i], FlagDiff(local, remote, now)))
  }

  lemma {:induction false} NothingLeft(rows: seq<Row>, remote: seq<Remote>, now: int)
    requires forall i :: 0 <= i < |rows| ==> ChangeOf(rows[i], remote, now).None?
    ensures FlagDiff(rows, remote, now) == []
  {
    if rows == [] {
    } else {
      NothingLeft(rows[..|rows| - 1], remote, now);
    }
  }

  /** Main result: reconciliation reaches its fixpoint in one step. */
  lemma DiffReachesFixpoint(local: seq<Row>, remote: seq<Remote>, now: int)
    requires UniqueIds(local)
    ensures var after := ReconciledAll(local, remote, now);
            && FlagDiff(after, remote, now) == []
            && |after| == |local|
            && forall i :: 0 <= i < |local| ==> after[i] == Reconciled(local[i], remote, now)
  {
    var after := ReconciledAll(local, remote, now);
    forall i | 0 <= i < |local|
      ensures after[i] == Reconciled(local[i], remote, now) && ChangeOf(after[i], remote, now).None?
    {
      DiffReconciles(local, remote, now, i);
      ChangeReconciles(local[i], remote, now);
    }
    NothingLeft(after, remote, now);
  }

  // ---------------------------------------------------------------- what the server wants

  /** The last report for a UID. */
  ghost predicate IsLastReport(remote: seq<Remote>, uid: nat, k: int) {
    0 <= k < |remote| && remote[k].uid == uid && forall j :: k < j < |remote| ==> remote[j].uid != uid
  }

  /** The row has the flags of the server's last report on it. A row changed locally less
      than a minute ago, without a UID or without a report keeps its own. */
  ghost predicate HasServersFlags(row: Row, after: Row, remote: seq<Remote>, now: int) {
    var uid := ParseNumber(row.remoteId, U32_MAX);
    if now < row.updatedAt + 60 || uid.None? || (forall k :: 0 <= k < |remote| ==> remote[k].uid != uid.value)
    then after == row
    else
      exists k :: IsLastReport(remote, uid.value, k)
                  && after == row.(isRead := remote[k].isRead, isStarred := remote[k].isStarred)
  }

  lemma {:induction false} LastReport(remote: seq<Remote>, uid: nat)
    ensures match RemoteFlags(remote, uid)
            case None => forall k :: 0 <= k < |remote| ==> remote[k].uid != uid
            case Some(flags) => exists k :: IsLastReport(remote, uid, k) && remote[k] == flags
  {
    if remote == [] {
    } else {
      var n := |remote| - 1;
      if remote[n].uid == uid {
        assert IsLastReport(remote, uid, n);
      } else {
        LastReport(remote[..n], uid);
        if RemoteFlags(remote[..n], uid).Some? {
          var k :| IsLastReport(remote[..n], uid, k) && remote[..n][k] == RemoteFlags(remote[..n], uid).value;
          assert forall j :: k < j < n ==> remote[..n][j] == remote[j];
          assert IsLastReport(remote, uid, k);
        } else {
          assert forall k :: 0 <= k < n ==> remote[..n][k] == remote[k];
        }
      }
    }
  }

  /** Applying the diff gives every row the server's flags. */
  lemma DiffGivesServersFlags(local: seq<Row>, remote: seq<Remote>, now: int, i: nat)
    requires UniqueIds(local) && i < |local|
    ensures HasServersFlags(local[i], ReconciledAll(local, remote, now)[i], remote, now)
  {
    DiffReachesFixpoint(local, remote, now);
    var uid := Uid(local[i]);
    if uid.Some? { LastReport(remote, uid.value); }
  }

  // ---------------------------------------------------------------- deletions

  predicate IsGone(row: Row, serverUids: set<nat>) { Uid(row).Some? && Uid(row).value !in serverUids }

  function DetectDeletions(local: seq<Row>, serverUids: set<nat>): seq<string> {
    if local == [] then []
    else (if IsGone(local[0], serverUids) then [local[0].id] else []) + DetectDeletions(local[1..], serverUids)
  }

  lemma {:induction false} DeletionsExact(local: seq<Row>, serverUids: set<nat>, id: string)
    ensures id in DetectDeletions(local, serverUids) <==>
              exists i :: 0 <= i < |local| && local[i].id == id
                          && var uid := ParseNumber(local[i].remoteId, U32_MAX); uid.Some? && uid.value !in serverUids
  {
    if local == [] {
    } else {
      DeletionsExact(local[1..], serverUids, id);
      if i :| 0 <= i < |local[1..]| && local[1..][i].id == id && IsGone(local[1..][i], serverUids) {
        assert local[i + 1].id == id && IsGone(local[i + 1], serverUids);
      }
      if i :| 1 <= i < |local| && local[i].id == id && IsGone(local[i], serverUids) {
        assert local[1..][i - 1] == local[i];
      }
    }
  }

  lemma {:induction false} RemoteFlagsKnown(remote: seq<Remote>, uid: nat)
    ensures RemoteFlags(remote, uid).Some? ==> exists i :: 0 <= i < |remote| && remote[i].uid == uid
  {
    if remote != [] && remote[|remote| - 1].uid != uid {
      RemoteFlagsKnown(remote[..|remote| - 1], uid);
    }
  }

  lemma {:induction false} ChangedRows(local: seq<Row>, remote: seq<Remote>, now: int, c: Change)
    ensures c in FlagDiff(local, remote, now) ==>
              exists i :: 0 <= i < |local| && ChangeOf(local[i], remote, now) == Some(c)
  {
    if local == [] {
    } else {
      var n := |local| - 1;
      ChangedRows(local[..n], remote, now, c);
      assert forall i :: 0 <= i < n ==> local[..n][i] == local[i];
    }
  }

  /** If the flags are of messages on the server, no message is both changed and deleted. */
  lemma ChangesAndDeletionsDisjoint(local: seq<Row>, remote: seq<Remote>, serverUids: set<nat>, now: int, c: Change)
    requires UniqueIds(local) && c in FlagDiff(local, remote, now)
    requires forall r :: r in remote ==> r.uid in serverUids
    ensures c.id !in DetectDeletions(local, serverUids)
  {
    ChangedRows(local, remote, now, c);
    var i :| 0 <= i < |local| && ChangeOf(local[i], remote, now) == Some(c);
    RemoteFlagsKnown(remote, Uid(local[i]).value);
    DeletionsExact(local, serverUids, c.id);
  }
}
