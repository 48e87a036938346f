/** Gmail history: collecting the paginated log, compacting its label events and
    deriving flag changes (crates/pebble-mail/src/gmail_sync.rs). */
module GmailHistory {
  import opened Basics
  import opened Sequences

  datatype Action = Add | Remove

  datatype LabelChange = LabelChange(message: string, labels: seq<string>)

  /** One history record. A list the server leaves out is the empty list. */
  datatype Entry = Entry(
    added: seq<string>,
    deleted: seq<string>,
    labelsAdded: seq<LabelChange>,
    labelsRemoved: seq<LabelChange>)

  datatype Mutation = Mutation(message: string, labelId: string, action: Action)

  datatype FlagChange = FlagChange(message: string, read: Option<bool>, starred: Option<bool>)

  type Pair = (string, string)

  function PairOf(m: Mutation): Pair { (m.message, m.labelId) }

  // ---------------------------------------------------------------- the full log

  function ChangeEvents(changes: seq<LabelChange>, action: Action): seq<Mutation> {
    if changes == [] then [] else
      var c := changes[|changes| - 1];
      ChangeEvents(changes[..|changes| - 1], action) + OneChangeEvents(c.message, c.labels, action)
  }

  function OneChangeEvents(message: string, labels: seq<string>, action: Action): seq<Mutation> {
    seq(|labels|, i requires 0 <= i < |labels| => Mutation(message, labels[i], action))
  }

  /** Inside one record, additions happen before removals. */
  function EntryEvents(e: Entry): seq<Mutation> {
    ChangeEvents(e.labelsAdded, Add) + ChangeEvents(e.labelsRemoved, Remove)
  }

  function Events(entries: seq<Entry>): seq<Mutation> {
    if entries == [] then [] else
      Events(entries[..|entries| - 1]) + EntryEvents(entries[|entries| - 1])
  }

  lemma {:induction false} EventsConcat(a: seq<Entry>, b: seq<Entry>)
    ensures Events(a + b) == Events(a) + Events(b)
  {
    if b == [] {
      assert a + b == a;
    } else {
      var n := |b| - 1;
      assert (a + b)[..|a + b| - 1] == a + b[..n] && (a + b)[|a + b| - 1] == b[n];
      EventsConcat(a, b[..n]);
      Associative(Events(a), Events(b[..n]), EntryEvents(b[n]));
    }
  }

  /** What the last event on a pair did, if there was one. */
  function LastAction(events: seq<Mutation>, p: Pair): Option<Action> {
    if events == [] then None else
      var e := events[|events| - 1];
      if PairOf(e) == p then Some(e.action) else LastAction(events[..|events| - 1], p)
  }

  lemma {:induction false} LastActionConcat(a: seq<Mutation>, b: seq<Mutation>, p: Pair)
    ensures LastAction(a + b, p) == if LastAction(b, p).Some? then LastAction(b, p) else LastAction(a, p)
  {
    if b == [] {
      assert a + b == a;
    } else {
      assert (a + b)[..|a + b| - 1] == a + b[..|b| - 1];
      LastActionConcat(a, b[..|b| - 1], p);
    }
  }

  /** Some of the changes puts the label on the message, or takes it off. */
  ghost predicate Names(changes: seq<LabelChange>, p: Pair) {
    exists i :: 0 <= i < |changes| && changes[i].message == p.0 && p.1 in changes[i].labels
  }

  lemma {:induction false} OneChangeDecides(message: string, labels: seq<string>, action: Action, p: Pair)
    ensures LastAction(OneChangeEvents(message, labels, action), p)
            == if message == p.0 && p.1 in labels then Some(action) else None
  {
    if labels == [] {
    } else {
      var n := |labels| - 1;
      assert OneChangeEvents(message, labels, action)[..n] == OneChangeEvents(message, labels[..n], action);
      OneChangeDecides(message, labels[..n], action, p);
    }
  }

  lemma {:induction false} ChangesDecide(changes: seq<LabelChange>, action: Action, p: Pair)
    ensures LastAction(ChangeEvents(changes, action), p) == if Names(changes, p) then Some(action) else None
  {
    if changes == [] {
    } else {
      var n := |changes| - 1;
      ChangesDecide(changes[..n], action, p);
      OneChangeDecides(changes[n].message, changes[n].labels, action, p);
      LastActionConcat(ChangeEvents(changes[..n], action),
                       OneChangeEvents(changes[n].message, changes[n].labels, action), p);
      assert forall i :: 0 <= i < n ==> changes[..n][i] == changes[i];
      assert Names(changes, p) <==>
               Names(changes[..n], p) || (changes[n].message == p.0 && p.1 in changes[n].labels);
    }
  }

  lemma EntryDecides(e: Entry, p: Pair)
    ensures LastAction(EntryEvents(e), p)
            == if Names(e.labelsRemoved, p) then Some(Remove) else if Names(e.labelsAdded, p) then Some(Add) else None
  {
    ChangesDecide(e.labelsAdded, Add, p);
    ChangesDecide(e.labelsRemoved, Remove, p);
    LastActionConcat(ChangeEvents(e.labelsAdded, Add), ChangeEvents(e.labelsRemoved, Remove), p);
  }

  ghost predicate IsMentioned(e: Entry, p: Pair) { Names(e.labelsAdded, p) || Names(e.labelsRemoved, p) }

  /** The last record of the log that mentions the pair. */
  ghost predicate LastMentions(entries: seq<Entry>, p: Pair, k: int) {
    0 <= k < |entries| && IsMentioned(entries[k], p) && forall j :: k < j < |entries| ==> !IsMentioned(entries[j], p)
  }

  /** What the log does to a label of a message: what the last record that mentions it does,
      a removal if the record has both. */
  lemma {:induction false} LastRecordDecides(entries: seq<Entry>, p: Pair)
    ensures match LastAction(Events(entries), p)
            case None => forall k :: 0 <= k < |entries| ==> !IsMentioned(entries[k], p)
            case Some(a) =>
              exists k :: LastMentions(entries, p, k) && (a.Remove? <==> Names(entries[k].labelsRemoved, p))
  {
    if entries == [] {
    } else {
      var n := |entries| - 1;
      LastRecordDecides(entries[..n], p);
      EntryDecides(entries[n], p);
      LastActionConcat(Events(entries[..n]), EntryEvents(entries[n]), p);
      if IsMentioned(entries[n], p) {
        assert LastMentions(entries, p, n);
      } else if LastAction(Events(entries[..n]), p).Some? {
        var a := LastAction(Events(entries[..n]), p).value;
        var k :| LastMentions(entries[..n], p, k) && (a.Remove? <==> Names(entries[..n][k].labelsRemoved, p));
        StillLast(entries, p, k);
        assert entries[..n][k] == entries[k];
      } else {
        forall k | 0 <= k < |entries| ensures !IsMentioned(entries[k], p) {
          assert k < n ==> entries[..n][k] == entries[k];
        }
      }
    }
  }

  lemma StillLast(entries: seq<Entry>, p: Pair, k: int)
    requires entries != [] && LastMentions(entries[..|entries| - 1], p, k) && !IsMentioned(entries[|entries| - 1], p)
    ensures LastMentions(entries, p, k)
  {
    forall j | 0 <= j < |entries| - 1 ensures entries[..|entries| - 1][j] == entries[j] {}
  }

  ghost function Apply(labels: set<Pair>, m: Mutation): set<Pair> {
    if m.action.Add? then labels + {PairOf(m)} else labels - {PairOf(m)}
  }

  /** Label membership after every event has been applied in order. */
  ghost function Replay(events: seq<Mutation>, labels: set<Pair>): set<Pair> {
    if events == [] then labels else
      Apply(Replay(events[..|events| - 1], labels), events[|events| - 1])
  }

  lemma {:induction false} ReplayMembership(events: seq<Mutation>, labels: set<Pair>, p: Pair)
    ensures p in Replay(events, labels) <==>
            match LastAction(events, p) case None => p in labels case Some(a) => a.Add?
  {
    if events == [] {
    } else {
      ReplayMembership(events[..|events| - 1], labels, p);
    }
  }

  // ---------------------------------------------------------------- compaction

  ghost function Keys(events: seq<Mutation>): (r: seq<Pair>)
    ensures |r| == |events|
  {
    seq(|events|, i requires 0 <= i < |events| => PairOf(events[i]))
  }

  ghost predicate AnyPair(p: Pair) { true }

  ghost function Pick(events: seq<Mutation>, positions: seq<int>): (r: seq<Mutation>)
    requires forall i :: i in positions ==> 0 <= i < |events|
    ensures |r| == |positions|
    ensures forall j :: 0 <= j < |r| ==> positions[j] in positions && r[j] == events[positions[j]]
  {
    assert forall j :: 0 <= j < |positions| ==> positions[j] in positions;
    seq(|positions|, j requires 0 <= j < |positions| => events[positions[j]])
  }

  /** The events that no later event on the same pair overrides, in order. */
  ghost function Compact(events: seq<Mutation>): seq<Mutation> {
    Pick(events, LastPositions(Keys(events), AnyPair, 0))
  }

  lemma {:induction false} LastActionAt(events: seq<Mutation>, i: int)
    requires IsLast(Keys(events), i)
    ensures LastAction(events, PairOf(events[i])) == Some(events[i].action)
  {
    var n := |events| - 1;
    if i < n {
      assert Keys(events)[n] != Keys(events)[i];
      forall j | i < j < n ensures Keys(events[..n])[j] != Keys(events[..n])[i] {
        assert Keys(events)[j] != Keys(events)[i];
      }
      LastActionAt(events[..n], i);
    }
  }

  lemma {:induction false} LastActionFrom(events: seq<Mutation>, p: Pair) returns (i: int)
    ensures LastAction(events, p).Some? ==> IsLast(Keys(events), i) && PairOf(events[i]) == p
    ensures LastAction(events, p).None? ==> forall j :: 0 <= j < |events| ==> PairOf(events[j]) != p
  {
    i := 0;
    if events == [] {
    } else {
      var n := |events| - 1;
      if PairOf(events[n]) == p {
        i := n;
      } else {
        i := LastActionFrom(events[..n], p);
        if LastAction(events, p).Some? {
          forall j | i < j < |events| ensures Keys(events)[j] != Keys(events)[i] {
            assert j < n ==> Keys(events[..n])[j] != Keys(events[..n])[i];
          }
        } else {
          assert forall j :: 0 <= j < n ==> events[j] == events[..n][j];
        }
      }
    }
  }

  /** Each message/label pair survives compaction at most once. */
  lemma CompactOncePerPair(events: seq<Mutation>)
    ensures Distinct(Keys(Compact(events)))
  {
    var positions := LastPositions(Keys(events), AnyPair, 0);
    forall i, j | 0 <= i < j < |positions|
      ensures Keys(Compact(events))[i] != Keys(Compact(events))[j]
    {
      assert positions[i] in positions && positions[j] in positions;
      assert Keys(events)[positions[j]] != Keys(events)[positions[i]];
    }
  }

  /** Compaction keeps the final action on every pair, and no other event. */
  lemma CompactKeepsLastAction(events: seq<Mutation>, p: Pair)
    ensures LastAction(Compact(events), p) == LastAction(events, p)
  {
    var positions := LastPositions(Keys(events), AnyPair, 0);
    var c := Compact(events);
    CompactOncePerPair(events);
    var i := LastActionFrom(events, p);
    var k := LastActionFrom(c, p);
    if LastAction(events, p).Some? {
      assert i in positions;
      var j :| 0 <= j < |positions| && positions[j] == i;
      assert forall l :: j < l < |c| ==> Keys(c)[l] != Keys(c)[j];
      LastActionAt(c, j);
      LastActionAt(events, i);
    } else if LastAction(c, p).Some? {
      assert c[k] == events[positions[k]];
    }
  }

  /** In a sequence with one event per pair, the final action of a pair is its event. */
  lemma LastActionOfDistinct(c: seq<Mutation>, p: Pair, a: Action)
    requires Distinct(Keys(c))
    ensures LastAction(c, p) == Some(a) <==> Mutation(p.0, p.1, a) in c
  {
    var k := LastActionFrom(c, p);
    if LastAction(c, p).Some? {
      LastActionAt(c, k);
    }
    if Mutation(p.0, p.1, a) in c {
      var i :| 0 <= i < |c| && c[i] == Mutation(p.0, p.1, a);
      assert forall l :: i < l < |c| ==> Keys(c)[l] != Keys(c)[i];
      LastActionAt(c, i);
    }
  }

  lemma DistinctKeysAnyOrder(c: seq<Mutation>, order: seq<Mutation>)
    requires Distinct(Keys(c)) && multiset(order) == multiset(c)
    ensures Distinct(Keys(order))
  {
    forall i, j | 0 <= i < j < |c| ensures c[i] != c[j] { assert Keys(c)[i] != Keys(c)[j]; }
    DistinctMultiplicity(c);
    DistinctMultiplicity(order);
    forall i, j | 0 <= i < j < |order| ensures Keys(order)[i] != Keys(order)[j] {
      assert order[i] != order[j];
      InSameMultiset(order, c, order[i]);
      InSameMultiset(order, c, order[j]);
      var k :| 0 <= k < |c| && c[k] == order[i];
      var l :| 0 <= l < |c| && c[l] == order[j];
      assert Keys(c)[k] == PairOf(order[i]) && Keys(c)[l] == PairOf(order[j]);
    }
  }

  lemma AnyOrderLastAction(c: seq<Mutation>, order: seq<Mutation>, p: Pair)
    requires Distinct(Keys(c)) && Distinct(Keys(order)) && multiset(order) == multiset(c)
    ensures LastAction(order, p) == LastAction(c, p)
  {
    forall a: Action ensures LastAction(c, p) == Some(a) <==> LastAction(order, p) == Some(a) {
      LastActionOfDistinct(c, p, a);
      LastActionOfDistinct(order, p, a);
      InSameMultiset(order, c, Mutation(p.0, p.1, a));
    }
    if LastAction(order, p).Some? {
      assert LastAction(order, p) == Some(LastAction(order, p).value);
    }
  }

  /** Main result on compaction: applying the compacted mutations in ANY order
      gives the label sets of a full in-order replay. */
  lemma CompactionPreservesReplay(events: seq<Mutation>, order: seq<Mutation>, labels: set<Pair>)
    requires multiset(order) == multiset(Compact(events))
    ensures Replay(order, labels) == Replay(events, labels)
  {
    var c := Compact(events);
    CompactOncePerPair(events);
    DistinctKeysAnyOrder(c, order);
    forall p: Pair ensures p in Replay(order, labels) <==> p in Replay(events, labels) {
      ReplayMembership(order, labels, p);
      ReplayMembership(events, labels, p);
      CompactKeepsLastAction(events, p);
      AnyOrderLastAction(c, order, p);
    }
  }

  // ---------------------------------------------------------------- the compaction loops

  /** What the map of last events knows after the events in `seen`. */
  ghost predicate Tracks(last: map<Pair, (int, Action)>, seen: seq<Mutation>) {
    && (forall i :: 0 <= i < |seen| ==> PairOf(seen[i]) in last)
    && (forall p :: p in last ==>
          IsLast(Keys(seen), last[p].0) && seen[last[p].0] == Mutation(p.0, p.1, last[p].1))
  }

  lemma TracksInsert(last: map<Pair, (int, Action)>, seen: seq<Mutation>, m: Mutation)
    requires Tracks(last, seen)
    ensures Tracks(last[PairOf(m) := (|seen|, m.action)], seen + [m])
  {
    var next := last[PairOf(m) := (|seen|, m.action)];
    forall p | p in next && p != PairOf(m) ensures IsLast(Keys(seen + [m]), next[p].0) {
      forall j | next[p].0 < j < |seen| ensures Keys(seen + [m])[j] != Keys(seen + [m])[next[p].0] {
        assert Keys(seen)[j] != Keys(seen)[next[p].0];
      }
    }
  }

  method RecordLabels(last: map<Pair, (int, Action)>, sequence: nat, message: string, labels: seq<string>,
                      action: Action, ghost seen: seq<Mutation>)
    returns (last': map<Pair, (int, Action)>, sequence': nat)
    requires Tracks(last, seen) && sequence == |seen|
    ensures Tracks(last', seen + OneChangeEvents(message, labels, action))
    ensures sequence' == |seen + OneChangeEvents(message, labels, action)|
  {
    last', sequence' := last, sequence;
    ghost var now := seen;
    for k := 0 to |labels|
      invariant now == seen + OneChangeEvents(message, labels[..k], action)
      invariant Tracks(last', now) && sequence' == |now|
    {
      TracksInsert(last', now, Mutation(message, labels[k], action));
      last' := last'[(message, labels[k]) := (sequence', action)];
      sequence' := sequence' + 1;
      now := now + [Mutation(message, labels[k], action)];
    }
    assert labels[..|labels|] == labels;
  }

  lemma ChangesNext(seen: seq<Mutation>, changes: seq<LabelChange>, action: Action, i: nat)
    requires i < |changes|
    ensures seen + ChangeEvents(changes[..i + 1], action)
            == seen + ChangeEvents(changes[..i], action)
               + OneChangeEvents(changes[i].message, changes[i].labels, action)
  {
    assert changes[..i + 1][..i] == changes[..i];
    var before := ChangeEvents(changes[..i], action);
    Associative(seen, before, OneChangeEvents(changes[i].message, changes[i].labels, action));
  }

  method RecordChanges(last: map<Pair, (int, Action)>, sequence: nat, changes: seq<LabelChange>,
                       action: Action, ghost seen: seq<Mutation>)
    returns (last': map<Pair, (int, Action)>, sequence': nat)
    requires Tracks(last, seen) && sequence == |seen|
    ensures Tracks(last', seen + ChangeEvents(changes, action))
    ensures sequence' == |seen + ChangeEvents(changes, action)|
  {
    last', sequence' := last, sequence;
    ghost var now := seen;
    assert seen + ChangeEvents(changes[..0], action) == seen;
    for i := 0 to |changes|
      invariant now == seen + ChangeEvents(changes[..i], action)
      invariant Tracks(last', now) && sequence' == |now|
    {
      last', sequence' := RecordLabels(last', sequence', changes[i].message, changes[i].labels, action, now);
      now := now + OneChangeEvents(changes[i].message, changes[i].labels, action);
      ChangesNext(seen, changes, action, i);
    }
    assert changes[..|changes|] == changes;
  }

  lemma EventsNext(entries: seq<Entry>, i: nat)
    requires i < |entries|
    ensures Events(entries[..i + 1])
            == Events(entries[..i]) + ChangeEvents(entries[i].labelsAdded, Add)
               + ChangeEvents(entries[i].labelsRemoved, Remove)
  {
    assert entries[..i + 1][..i] == entries[..i];
    assert Events(entries[..i + 1]) == Events(entries[..i]) + EntryEvents(entries[i]);
  }

  method LabelMutations(entries: seq<Entry>) returns (out: seq<Mutation>)
    ensures out == Compact(Events(entries))
  {
    var sequence := 0;
    var last: map<Pair, (int, Action)> := map[];
    ghost var seen: seq<Mutation> := [];
    for i := 0 to |entries|
      invariant seen == Events(entries[..i])
      invariant Tracks(last, seen) && sequence == |seen|
    {
      last, sequence := RecordChanges(last, sequence, entries[i].labelsAdded, Add, seen);
      ghost var mid := seen + ChangeEvents(entries[i].labelsAdded, Add);
      last, sequence := RecordChanges(last, sequence, entries[i].labelsRemoved, Remove, mid);
      seen := mid + ChangeEvents(entries[i].labelsRemoved, Remove);
      EventsNext(entries, i);
    }
    assert entries[..|entries|] == entries;
    var tagged := Drain(last, seen);
    out := Untag(tagged);
    LastEventsSorted(tagged, seen);
  }

  ghost function EventAt(seen: seq<Mutation>): int -> Mutation {
    i => if 0 <= i < |seen| then seen[i] else Mutation("", "", Add)
  }

  /** The map's contents as a list, in whatever order the map is traversed. */
  method Drain(last: map<Pair, (int, Action)>, ghost seen: seq<Mutation>)
    returns (tagged: seq<(int, Mutation)>)
    requires Tracks(last, seen)
    ensures Distinct(tagged)
    ensures forall x :: x in tagged <==> IsLast(Keys(seen), x.0) && x.1 == seen[x.0]
  {
    tagged := [];
    var rest := last;
    while rest != map[]
      invariant forall p :: p in rest ==> p in last && rest[p] == last[p]
      invariant forall x :: x in tagged <==>
                  PairOf(x.1) in last && PairOf(x.1) !in rest && (x.0, x.1.action) == last[PairOf(x.1)]
      invariant Distinct(tagged)
      decreases |rest|
    {
      var p :| p in rest;
      tagged := tagged + [(rest[p].0, Mutation(p.0, p.1, rest[p].1))];
      rest := rest - {p};
    }
    LastEntries(last, seen, tagged);
  }

  lemma LastEntries(last: map<Pair, (int, Action)>, seen: seq<Mutation>, tagged: seq<(int, Mutation)>)
    requires Tracks(last, seen)
    requires forall x :: x in tagged <==> PairOf(x.1) in last && (x.0, x.1.action) == last[PairOf(x.1)]
    ensures forall x :: x in tagged <==> IsLast(Keys(seen), x.0) && x.1 == seen[x.0]
  {
    forall x ensures x in tagged <==> IsLast(Keys(seen), x.0) && x.1 == seen[x.0] {
      if IsLast(Keys(seen), x.0) && x.1 == seen[x.0] {
        var q := last[PairOf(x.1)].0;
        assert IsLast(Keys(seen), q) && Keys(seen)[q] == Keys(seen)[x.0];
        assert q == x.0;
      }
    }
  }

  method Untag<V>(tagged: seq<(int, V)>) returns (out: seq<V>)
    ensures var r := SortByKey(tagged, Tag);
            |out| == |r| && forall i :: 0 <= i < |r| ==> out[i] == r[i].1
  {
    var sorted := SortByKey(tagged, Tag);
    out := [];
    for i := 0 to |sorted|
      invariant |out| == i && forall j :: 0 <= j < i ==> out[j] == sorted[j].1
    {
      out := out + [sorted[i].1];
    }
  }

  lemma LastEventsSorted(tagged: seq<(int, Mutation)>, seen: seq<Mutation>)
    requires Distinct(tagged)
    requires forall x :: x in tagged <==> IsLast(Keys(seen), x.0) && x.1 == seen[x.0]
    ensures var r := SortByKey(tagged, Tag);
            |r| == |Compact(seen)| && forall i :: 0 <= i < |r| ==> r[i].1 == Compact(seen)[i]
  {
    var positions := LastPositions(Keys(seen), AnyPair, 0);
    SortedByTag(tagged, positions, EventAt(seen));
  }

  // ---------------------------------------------------------------- flag changes

  const UNREAD := "UNREAD"
  const STARRED := "STARRED"

  datatype Flags = Flags(read: bool, starred: bool)

  function LastRead(events: seq<Mutation>, message: string): Option<bool> {
    var a := LastAction(events, (message, UNREAD));
    if a.Some? then Some(a.value.Remove?) else None
  }

  function LastStarred(events: seq<Mutation>, message: string): Option<bool> {
    var a := LastAction(events, (message, STARRED));
    if a.Some? then Some(a.value.Add?) else None
  }

  ghost function Messages(ms: seq<Mutation>): (r: seq<string>)
    ensures |r| == |ms|
  {
    seq(|ms|, i requires 0 <= i < |ms| => ms[i].message)
  }

  ghost function Flagged(ms: seq<Mutation>): string -> bool {
    message => LastRead(ms, message).Some? || LastStarred(ms, message).Some?
  }

  ghost function FlagAt(ms: seq<Mutation>): int -> FlagChange {
    i => if 0 <= i < |ms|
         then FlagChange(ms[i].message, LastRead(ms, ms[i].message), LastStarred(ms, ms[i].message))
         else FlagChange("", None, None)
  }

  ghost function FlagPositions(ms: seq<Mutation>): seq<int> {
    LastPositions(Messages(ms), Flagged(ms), 0)
  }

  /** One change per message with a flag event, ordered by the message's last mutation. */
  ghost function FlagsOf(ms: seq<Mutation>): (r: seq<FlagChange>)
    ensures |r| == |FlagPositions(ms)|
    ensures forall j :: 0 <= j < |r| ==> r[j] == FlagAt(ms)(FlagPositions(ms)[j])
  {
    seq(|FlagPositions(ms)|, j requires 0 <= j < |FlagPositions(ms)| => FlagAt(ms)(FlagPositions(ms)[j]))
  }

  function ApplyFlag(c: FlagChange, f: Flags): Flags {
    Flags(if c.read.Some? then c.read.value else f.read,
          if c.starred.Some? then c.starred.value else f.starred)
  }

  /** A message's flags after every UNREAD and STARRED event of the log, in order. */
  function FlagReplay(events: seq<Mutation>, message: string, f: Flags): Flags {
    if events == [] then f else
      var e := events[|events| - 1];
      var prior := FlagReplay(events[..|events| - 1], message, f);
      if e.message != message then prior
      else if e.labelId == UNREAD then prior.(read := e.action.Remove?)
      else if e.labelId == STARRED then prior.(starred := e.action.Add?)
      else prior
  }

  lemma {:induction false} FlagReplayIsLast(events: seq<Mutation>, message: string, f: Flags)
    ensures FlagReplay(events, message, f)
         == ApplyFlag(FlagChange(message, LastRead(events, message), LastStarred(events, message)), f)
  {
    if events == [] {
    } else {
      FlagReplayIsLast(events[..|events| - 1], message, f);
    }
  }

  lemma FlagsOncePerMessage(ms: seq<Mutation>)
    ensures forall i, j :: 0 <= i < j < |FlagsOf(ms)| ==> FlagsOf(ms)[i].message != FlagsOf(ms)[j].message
  {
    var positions := FlagPositions(ms);
    assert forall j :: 0 <= j < |positions| ==> positions[j] in positions;
    forall i, j | 0 <= i < j < |FlagsOf(ms)| ensures FlagsOf(ms)[i].message != FlagsOf(ms)[j].message {
      assert Messages(ms)[positions[j]] != Messages(ms)[positions[i]];
    }
  }

  lemma FlaggedIsListed(ms: seq<Mutation>, message: string)
    requires Flagged(ms)(message)
    ensures exists c :: c in FlagsOf(ms) && c.message == message
  {
    var i := LastActionFrom(ms, if LastRead(ms, message).Some? then (message, UNREAD) else (message, STARRED));
    var k := LastMention(ms, message, i);
    assert k in FlagPositions(ms);
    var j :| 0 <= j < |FlagPositions(ms)| && FlagPositions(ms)[j] == k;
    assert FlagsOf(ms)[j] in FlagsOf(ms) && FlagsOf(ms)[j].message == message;
  }

  lemma ListedFlags(ms: seq<Mutation>, c: FlagChange)
    requires c in FlagsOf(ms)
    ensures c == FlagChange(c.message, LastRead(ms, c.message), LastStarred(ms, c.message))
  {
    var j :| 0 <= j < |FlagsOf(ms)| && FlagsOf(ms)[j] == c;
    assert FlagPositions(ms)[j] in FlagPositions(ms);
  }

  lemma CompactKeepsFlags(events: seq<Mutation>, message: string)
    ensures LastRead(Compact(events), message) == LastRead(events, message)
    ensures LastStarred(Compact(events), message) == LastStarred(events, message)
  {
    CompactKeepsLastAction(events, (message, UNREAD));
    CompactKeepsLastAction(events, (message, STARRED));
  }

  /** Main result on flags: the changes derived from the compacted list have one
      entry per affected message, and applying them is a full in-order replay. */
  lemma FlagsMatchFullReplay(events: seq<Mutation>, message: string, f: Flags)
    ensures var out := FlagsOf(Compact(events));
            && (forall i, j :: 0 <= i < j < |out| ==> out[i].message != out[j].message)
            && (forall c :: c in out && c.message == message ==>
                  ApplyFlag(c, f) == FlagReplay(events, message, f))
            && ((forall c :: c in out ==> c.message != message) ==> FlagReplay(events, message, f) == f)
  {
    var c := Compact(events);
    FlagsOncePerMessage(c);
    CompactKeepsFlags(events, message);
    FlagReplayIsLast(events, message, f);
    forall x | x in FlagsOf(c) && x.message == message ensures ApplyFlag(x, f) == FlagReplay(events, message, f) {
      ListedFlags(c, x);
    }
    if Flagged(c)(message) { FlaggedIsListed(c, message); }
  }

  lemma {:induction false} LastMention(ms: seq<Mutation>, message: string, i: int) returns (k: int)
    requires 0 <= i < |ms| && ms[i].message == message
    ensures IsLast(Messages(ms), k) && ms[k].message == message
    decreases |ms| - i
  {
    if exists j :: i < j < |ms| && ms[j].message == message {
      var j :| i < j < |ms| && ms[j].message == message;
      k := LastMention(ms, message, j);
    } else {
      k := i;
    }
  }

  type FlagTable = map<string, (int, Option<bool>, Option<bool>)>

  ghost predicate TracksFlags(table: FlagTable, seen: seq<Mutation>) {
    && (forall i :: 0 <= i < |seen| ==> seen[i].message in table)
    && (forall m :: m in table ==>
          && IsLast(Messages(seen), table[m].0) && seen[table[m].0].message == m
          && table[m].1 == LastRead(seen, m) && table[m].2 == LastStarred(seen, m))
  }

  method BuildFlagTable(mutations: seq<Mutation>) returns (table: FlagTable)
    ensures TracksFlags(table, mutations)
  {
    table := map[];
    for i := 0 to |mutations|
      invariant TracksFlags(table, mutations[..i])
    {
      var m := mutations[i];
      var was := if m.message in table then table[m.message] else (i, None, None);
      var read := if m.labelId == UNREAD then Some(m.action.Remove?) else was.1;
      var starred := if m.labelId != UNREAD && m.labelId == STARRED then Some(m.action.Add?) else was.2;
      TracksFlagsStep(table, mutations[..i], m, read, starred);
      assert mutations[..i + 1] == mutations[..i] + [m];
      table := table[m.message := (i, read, starred)];
    }
    assert mutations[..|mutations|] == mutations;
  }

  method FlagChanges(entries: seq<Entry>) returns (out: seq<FlagChange>)
    ensures out == FlagsOf(Compact(Events(entries)))
  {
    var mutations := LabelMutations(entries);
    var table := BuildFlagTable(mutations);
    var tagged := DrainFlags(table, mutations);
    out := Untag(tagged);
    FlagsSorted(tagged, mutations, out);
  }

  lemma FlagsSorted(tagged: seq<(int, FlagChange)>, ms: seq<Mutation>, out: seq<FlagChange>)
    requires Distinct(tagged)
    requires forall x :: x in tagged <==> x.0 in FlagPositions(ms) && x.1 == FlagAt(ms)(x.0)
    requires var r := SortByKey(tagged, Tag);
             |out| == |r| && forall i :: 0 <= i < |r| ==> out[i] == r[i].1
    ensures out == FlagsOf(ms)
  {
    SortedByTag(tagged, FlagPositions(ms), FlagAt(ms));
  }

  lemma TracksFlagsStep(table: FlagTable, seen: seq<Mutation>, m: Mutation,
                        read: Option<bool>, starred: Option<bool>)
    requires TracksFlags(table, seen)
    requires read == (if m.labelId == UNREAD then Some(m.action.Remove?)
                      else if m.message in table then table[m.message].1 else None)
    requires starred == (if m.labelId == STARRED then Some(m.action.Add?)
                         else if m.message in table then table[m.message].2 else None)
    ensures TracksFlags(table[m.message := (|seen|, read, starred)], seen + [m])
  {
    var next := seen + [m];
    assert next[..|seen|] == seen;
    if m.message !in table {
      var i := LastActionFrom(seen, (m.message, UNREAD));
      var j := LastActionFrom(seen, (m.message, STARRED));
    }
    forall k | k in table && k != m.message ensures IsLast(Messages(next), table[k].0) {
      forall j | table[k].0 < j < |next| ensures Messages(next)[j] != Messages(next)[table[k].0] {
        assert j < |seen| ==> Messages(seen)[j] != Messages(seen)[table[k].0];
      }
    }
  }

  /** The table's entries that carry a flag, in whatever order it is traversed. */
  method DrainFlags(table: FlagTable, ghost seen: seq<Mutation>) returns (tagged: seq<(int, FlagChange)>)
    requires TracksFlags(table, seen)
    ensures Distinct(tagged)
    ensures forall x :: x in tagged <==> x.0 in FlagPositions(seen) && x.1 == FlagAt(seen)(x.0)
  {
    tagged := [];
    var rest := table;
    while rest != map[]
      invariant forall m :: m in rest ==> m in table && rest[m] == table[m]
      invariant forall x :: x in tagged <==>
                  && x.1.message in table && x.1.message !in rest
                  && (x.0, x.1.read, x.1.starred) == table[x.1.message]
                  && (x.1.read.Some? || x.1.starred.Some?)
      invariant Distinct(tagged)
      decreases |rest|
    {
      var m :| m in rest;
      var (sequence, read, starred) := rest[m];
      if read.Some? || starred.Some? {
        tagged := tagged + [(sequence, FlagChange(m, read, starred))];
      }
      rest := rest - {m};
    }
    FlagEntries(table, seen, tagged);
  }

  lemma FlagEntries(table: FlagTable, seen: seq<Mutation>, tagged: seq<(int, FlagChange)>)
    requires TracksFlags(table, seen)
    requires forall x :: x in tagged <==>
               && x.1.message in table
               && (x.0, x.1.read, x.1.starred) == table[x.1.message]
               && (x.1.read.Some? || x.1.starred.Some?)
    ensures forall x :: x in tagged <==> x.0 in FlagPositions(seen) && x.1 == FlagAt(seen)(x.0)
  {
    forall x ensures x in tagged <==> x.0 in FlagPositions(seen) && x.1 == FlagAt(seen)(x.0) {
      if x.0 in FlagPositions(seen) && x.1 == FlagAt(seen)(x.0) {
        var q := table[x.1.message].0;
        assert Messages(seen)[q] == Messages(seen)[x.0];
        assert q == x.0;
      }
    }
  }

  // ---------------------------------------------------------------- collecting the pages

  datatype Page = Page(history: Option<seq<Entry>>, historyId: Option<nat>, nextToken: Option<string>)

  datatype PageReply = PageOk(page: Page) | CursorExpired | PageError

  datatype Batch = Batch(entries: seq<Entry>, historyId: Option<nat>, cursorExpired: bool)

  /** `StillPaging` is a server that has so far always announced another page. */
  datatype Collected = Collected(batch: Batch) | CollectFailed | StillPaging

  predicate Announces(p: Page) { p.nextToken.Some? && p.nextToken.value != "" }

  method CollectHistory(replies: seq<PageReply>) returns (r: Collected)
    ensures r == Collect(replies, [], None)
  {
    var entries: seq<Entry> := [];
    var historyId: Option<nat> := None;
    var i := 0;
    while i < |replies|
      invariant 0 <= i <= |replies|
      invariant Collect(replies, [], None) == Collect(replies[i..], entries, historyId)
    {
      match replies[i] {
        case CursorExpired => return Collected(Batch([], None, true));
        case PageError => return CollectFailed;
        case PageOk(page) =>
          entries := entries + page.history.UnwrapOr([]);
          if page.historyId.Some? {
            historyId := page.historyId;
          }
          if !Announces(page) {
            return Collected(Batch(entries, historyId, false));
          }
      }
      i := i + 1;
    }
    return StillPaging;
  }

  ghost function Collect(replies: seq<PageReply>, entries: seq<Entry>, historyId: Option<nat>): Collected {
    if replies == [] then StillPaging else
      match replies[0]
      case CursorExpired => Collected(Batch([], None, true))
      case PageError => CollectFailed
      case PageOk(page) =>
        var all := entries + page.history.UnwrapOr([]);
        var id := if page.historyId.Some? then page.historyId else historyId;
        if Announces(page) then Collect(replies[1..], all, id) else Collected(Batch(all, id, false))
  }

  /** `pages` is a way for a server to send `log`: any cut into pages, announced by
      non-empty tokens on all pages but the last, the last one naming `id`. */
  ghost predicate Serves(pages: seq<Page>, log: seq<Entry>, id: nat) {
    && pages != []
    && (forall i :: 0 <= i < |pages| ==>
          (pages[i].nextToken.Some? && pages[i].nextToken.value != "" <==> i < |pages| - 1))
    && pages[|pages| - 1].historyId == Some(id)
    && Joined(pages) == log
  }

  ghost function Joined(pages: seq<Page>): seq<Entry> {
    if pages == [] then [] else pages[0].history.UnwrapOr([]) + Joined(pages[1..])
  }

  ghost function Replies(pages: seq<Page>): seq<PageReply> {
    seq(|pages|, i requires 0 <= i < |pages| => PageOk(pages[i]))
  }

  /** However a server cuts its log into pages, collecting them gives the whole log. */
  lemma {:induction false} CollectRestoresLog(pages: seq<Page>, log: seq<Entry>, id: nat,
                                              entries: seq<Entry>, historyId: Option<nat>)
    requires Serves(pages, log, id)
    ensures Collect(Replies(pages), entries, historyId) == Collected(Batch(entries + log, Some(id), false))
  {
    var head := pages[0].history.UnwrapOr([]);
    assert Replies(pages)[1..] == Replies(pages[1..]);
    if |pages| == 1 {
      assert Joined(pages) == head;
    } else {
      var next := if pages[0].historyId.Some? then pages[0].historyId else historyId;
      assert entries + log == (entries + head) + Joined(pages[1..]);
      CollectRestoresLog(pages[1..], Joined(pages[1..]), id, entries + head, next);
    }
  }

  /** A page that reports an expired cursor discards every page read before it,
      and a failing page fails the whole collection. */
  lemma {:induction false} CollectAllOrNothing(pages: seq<Page>, bad: PageReply, rest: seq<PageReply>,
                                               entries: seq<Entry>, historyId: Option<nat>)
    requires forall p :: p in pages ==> p.nextToken.Some? && p.nextToken.value != ""
    requires !bad.PageOk?
    ensures Collect(Replies(pages) + [bad] + rest, entries, historyId)
         == if bad.CursorExpired? then Collected(Batch([], None, true)) else CollectFailed
  {
    var all := Replies(pages) + [bad] + rest;
    if pages == [] {
    } else {
      var next := if pages[0].historyId.Some? then pages[0].historyId else historyId;
      assert all[1..] == Replies(pages[1..]) + [bad] + rest;
      assert pages[0] in pages;
      CollectAllOrNothing(pages[1..], bad, rest, entries + pages[0].history.UnwrapOr([]), next);
    }
  }
}
