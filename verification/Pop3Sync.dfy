/** POP3 synchronisation (crates/pebble-mail/src/pop3_sync.rs): newest unknown messages
    first, up to a limit, with a list of UIDs seen before. */
module Pop3Sync {
  import opened Basics
  import opened Sequences
  import opened Pop3Wire

  const CIRCUIT_THRESHOLD := 5
  const POLL_LIMIT := 50

  /** A live local message, found by its UID. */
  datatype Row = Row(inInbox: bool, incomplete: bool)

  type Rows = map<string, Row>

  datatype State = State(rows: Rows, seen: set<string>)

  /** Where a round fails, if it does. */
  datatype Fault =
    | NoFault
    | ListFails
    | RetrieveFails
    | StoreFails(index: nat)
    | PersistFails

  function Uids(messages: seq<MessageRef>): set<string> {
    set i | 0 <= i < |messages| :: messages[i].uid
  }

  // ---------------------------------------------------------------- what is known

  predicate IsIncomplete(rows: Rows, uid: string) { uid in rows && rows[uid].inInbox && rows[uid].incomplete }

  predicate InInbox(rows: Rows, uid: string) { uid in rows && rows[uid].inInbox }

  /** Listed UIDs with a message in the inbox and UIDs seen before, without the listed ones
      whose message lacks its attachments. */
  function Known(s: State, mailbox: seq<MessageRef>): set<string> {
    (set uid | uid in Uids(mailbox) && InInbox(s.rows, uid)) + s.seen
    - set uid | uid in Uids(mailbox) && IsIncomplete(s.rows, uid)
  }

  function Unless(known: set<string>): MessageRef -> bool { (m: MessageRef) => m.uid !in known }

  function Newest(m: MessageRef): int { 0 - m.number }

  function Unknown(s: State, mailbox: seq<MessageRef>): seq<MessageRef> {
    Keep(mailbox, Unless(Known(s, mailbox)))
  }

  function NewestFirst(messages: seq<MessageRef>, known: set<string>): seq<MessageRef> {
    SortByKey(Keep(messages, Unless(known)), Newest)
  }

  function Selected(messages: seq<MessageRef>, known: set<string>, limit: nat): seq<MessageRef> {
    var newest := NewestFirst(messages, known);
    SortByKey(newest[..Min(limit, |newest|)], Number)
  }

  function Skipped(messages: seq<MessageRef>, known: set<string>, limit: nat): seq<MessageRef> {
    var newest := NewestFirst(messages, known);
    newest[Min(limit, |newest|)..]
  }

  /** Cutting a sequence sorted by descending number: nothing after the cut is higher. */
  lemma CutDescending(newest: seq<MessageRef>, k: nat)
    requires k <= |newest| && SortedBy(newest, Newest)
    ensures forall a, b :: a in newest[..k] && b in newest[k..] ==> a.number >= b.number
  {
    forall a, b | a in newest[..k] && b in newest[k..] ensures a.number >= b.number {
      var i :| 0 <= i < k && newest[i] == a;
      var j :| k <= j < |newest| && newest[j] == b;
      assert Newest(newest[i]) <= Newest(newest[j]);
    }
  }

  /** The selection is `limit` unknown messages, or all there are, in ascending order, and
      none that is left out has a higher number than one that is in. */
  lemma SelectsNewest(messages: seq<MessageRef>, known: set<string>, limit: nat)
    ensures var unknown := Keep(messages, Unless(known));
            var selected, skipped := Selected(messages, known, limit), Skipped(messages, known, limit);
            && |selected| == Min(limit, |unknown|)
            && multiset(selected) + multiset(skipped) == multiset(unknown)
            && SortedBy(selected, Number)
            && forall a, b :: a in selected && b in skipped ==> a.number >= b.number
  {
    var newest := NewestFirst(messages, known);
    var k := Min(limit, |newest|);
    assert newest == newest[..k] + newest[k..];
    SortByKeySorted(newest[..k], Number);
    SortByKeySorted(Keep(messages, Unless(known)), Newest);
    CutDescending(newest, k);
    forall a ensures a in Selected(messages, known, limit) <==> a in newest[..k] {
      InSameMultiset(Selected(messages, known, limit), newest[..k], a);
    }
  }

  // ---------------------------------------------------------------- one round

  /** A live message is only stored over if it is the inbox's and lacks its attachments. */
  predicate Storable(rows: Rows, uid: string) { uid in rows ==> IsIncomplete(rows, uid) }

  function Stored(rows: Rows, uid: string): Rows { rows[uid := Row(true, false)] }

  datatype StoreRun = StoreRun(rows: Rows, ok: bool)

  /** Messages are stored one after the other up to the first failure. */
  function StoreAll(rows: Rows, messages: seq<MessageRef>, fault: Fault): StoreRun {
    if messages == [] then StoreRun(rows, true)
    else
      var n := |messages| - 1;
      var run := StoreAll(rows, messages[..n], fault);
      if !run.ok then run
      else if fault == StoreFails(n) || !Storable(run.rows, messages[n].uid) then run.(ok := false)
      else StoreRun(Stored(run.rows, messages[n].uid), true)
  }

  datatype Round = Round(state: State, ok: bool, fetched: seq<MessageRef>)

  function SyncOnce(s: State, mailbox: seq<MessageRef>, limit: nat, fault: Fault): Round {
    if fault.ListFails? || fault.RetrieveFails? then Round(s, false, [])
    else
      var selected := Selected(mailbox, Known(s, mailbox), limit);
      var run := StoreAll(s.rows, selected, fault);
      var stored := s.(rows := run.rows);
      if !run.ok || fault.PersistFails? then Round(stored, false, selected)
      else Round(stored.(seen := Known(stored, mailbox) + Uids(selected)), true, selected)
  }

  // ---------------------------------------------------------------- the worker

  class Pop3SyncWorker {
    var rows: Rows
    var seen: set<string>
    var failures: nat

    function Abs(): State
      reads this
    {
      State(rows, seen)
    }

    constructor (rows: Rows, seen: set<string>)
      ensures Abs() == State(rows, seen) && failures == 0
    {
      this.rows, this.seen, failures := rows, seen, 0;
    }

    method KnownUidls(mailbox: seq<MessageRef>) returns (known: set<string>)
      ensures known == Known(Abs(), mailbox)
    {
      known := set uid | uid in Uids(mailbox) && InInbox(rows, uid);
      known := known + seen;
      known := set uid | uid in known && !(uid in Uids(mailbox) && IsIncomplete(rows, uid));
    }

    method StoreMessage(uid: string, fails: bool) returns (ok: bool)
      modifies this`rows
      ensures ok == (!fails && Storable(old(rows), uid))
      ensures rows == if ok then Stored(old(rows), uid) else old(rows)
    {
      if fails {
        return false;
      }
      if uid in rows && !(rows[uid].inInbox && rows[uid].incomplete) {
        return false;
      }
      rows := rows[uid := Row(true, false)];
      ok := true;
    }

    method StoreFetched(messages: seq<MessageRef>, fault: Fault) returns (ok: bool)
      modifies this`rows
      ensures StoreRun(rows, ok) == StoreAll(old(rows), messages, fault)
    {
      for i := 0 to |messages|
        invariant StoreAll(old(rows), messages[..i], fault) == StoreRun(rows, true)
      {
        assert messages[..i + 1][..i] == messages[..i];
        StoreStops(old(rows), messages, fault, i + 1);
        ok := StoreMessage(messages[i].uid, fault == StoreFails(i));
        if !ok {
          return;
        }
      }
      assert messages[..|messages|] == messages;
      ok := true;
    }

    method SyncRound(mailbox: seq<MessageRef>, limit: nat, fault: Fault) returns (ok: bool)
      modifies this`rows, this`seen
      ensures var round := SyncOnce(old(Abs()), mailbox, limit, fault);
              Abs() == round.state && ok == round.ok
    {
      if fault.ListFails? {
        return false;
      }
      var known := KnownUidls(mailbox);
      var selected := Selected(mailbox, known, limit);
      if fault.RetrieveFails? {
        return false;
      }
      ok := StoreFetched(selected, fault);
      if !ok {
        return;
      }
      known := KnownUidls(mailbox);
      if fault.PersistFails? {
        return false;
      }
      seen := known + Uids(selected);
    }

    /** A poll does nothing while the circuit is open. */
    method RunPollCycle(mailbox: seq<MessageRef>, fault: Fault)
      modifies this
      ensures Poller(Abs(), failures) == PollCycle(Poller(old(Abs()), old(failures)), mailbox, fault)
    {
      if failures >= CIRCUIT_THRESHOLD {
        return;
      }
      var ok := SyncRound(mailbox, POLL_LIMIT, fault);
      failures := if ok then 0 else failures + 1;
    }
  }

  lemma {:induction false} StoreStops(rows: Rows, messages: seq<MessageRef>, fault: Fault, n: nat)
    requires n <= |messages|
    ensures !StoreAll(rows, messages[..n], fault).ok ==>
              StoreAll(rows, messages, fault) == StoreAll(rows, messages[..n], fault)
  {
    if n == |messages| {
      assert messages[..n] == messages;
    } else {
      StoreStops(rows, messages[..|messages| - 1], fault, n);
      assert messages[..|messages| - 1][..n] == messages[..n];
    }
  }

  // ---------------------------------------------------------------- draining a mailbox

  ghost predicate SameRow(a: Rows, b: Rows, uid: string) { (uid in a <==> uid in b) && (uid in a ==> a[uid] == b[uid]) }

  /** What storing does to each row. */
  lemma {:induction false} StoreAllRows(rows: Rows, messages: seq<MessageRef>, fault: Fault, uid: string)
    ensures var run := StoreAll(rows, messages, fault);
            && (uid !in Uids(messages) ==> SameRow(run.rows, rows, uid))
            && (uid in run.rows && (uid !in rows || run.rows[uid] != rows[uid]) ==> run.rows[uid] == Row(true, false))
            && (uid in rows ==> uid in run.rows)
            && (run.ok && uid in Uids(messages) ==> uid in run.rows && run.rows[uid] == Row(true, false))
  {
    if messages == [] {
    } else {
      var n := |messages| - 1;
      StoreAllRows(rows, messages[..n], fault, uid);
      assert forall i :: 0 <= i < n ==> messages[..n][i] == messages[i];
      assert Uids(messages) == Uids(messages[..n]) + {messages[n].uid};
    }
  }

  /** A successful round makes known exactly what it fetched. */
  lemma RoundLearns(s: State, mailbox: seq<MessageRef>, limit: nat, fault: Fault, uid: string)
    requires SyncOnce(s, mailbox, limit, fault).ok && uid in Uids(mailbox)
    ensures var round := SyncOnce(s, mailbox, limit, fault);
            && round.fetched == Selected(mailbox, Known(s, mailbox), limit)
            && (uid in Known(round.state, mailbox) <==> uid in Known(s, mailbox) || uid in Uids(round.fetched))
            && (uid in Uids(round.fetched) ==> uid in round.state.rows && round.state.rows[uid] == Row(true, false))
  {
    StoreAllRows(s.rows, Selected(mailbox, Known(s, mailbox), limit), fault, uid);
  }

  ghost predicate UniqueUids(mailbox: seq<MessageRef>) {
    forall i, j :: 0 <= i < j < |mailbox| ==> mailbox[i].uid != mailbox[j].uid
  }

  lemma {:induction false} KeepDistinct(messages: seq<MessageRef>, p: MessageRef -> bool)
    requires UniqueUids(messages)
    ensures UniqueUids(Keep(messages, p))
  {
    if messages == [] {
    } else {
      KeepDistinct(messages[1..], p);
      var rest := Keep(messages[1..], p);
      forall i | 0 <= i < |rest| ensures rest[i].uid != messages[0].uid {
        assert rest[i] in rest;
      }
    }
  }

  lemma UniqueIsDistinct(messages: seq<MessageRef>)
    requires UniqueUids(messages)
    ensures forall m :: multiset(messages)[m] <= 1
  {
    DistinctMultiplicity(messages);
  }

  /** Of messages with unique UIDs, those outside a part are the other part. */
  lemma OutsidePart(all: seq<MessageRef>, part: seq<MessageRef>, other: seq<MessageRef>, m: MessageRef)
    requires UniqueUids(all) && multiset(part) + multiset(other) == multiset(all)
    ensures m in all && m.uid !in Uids(part) <==> m in other
  {
    UniqueIsDistinct(all);
    assert m in all <==> m in multiset(all);
    assert m in part <==> m in multiset(part);
    assert m in other <==> m in multiset(other);
    if m in all && m.uid in Uids(part) {
      var i :| 0 <= i < |part| && part[i].uid == m.uid;
      assert part[i] in multiset(part);
      assert part[i] in multiset(all) && part[i] in all;
      assert part[i] == m;
    }
    if m in part {
      var i :| 0 <= i < |part| && part[i] == m;
      assert part[i].uid in Uids(part);
    }
  }

  /** Sequences without repetition that hold the same elements are equally long. */
  lemma SameElementsSameLength(a: seq<MessageRef>, b: seq<MessageRef>)
    requires (forall m :: multiset(a)[m] <= 1) && (forall m :: multiset(b)[m] <= 1)
    requires forall m :: m in a <==> m in b
    ensures |a| == |b|
  {
    forall m ensures multiset(a)[m] == multiset(b)[m] {
      assert m in a <==> m in multiset(a);
      assert m in b <==> m in multiset(b);
    }
    assert multiset(a) == multiset(b);
    assert |multiset(a)| == |a| && |multiset(b)| == |b|;
  }

  /** What is unknown after a successful round is what its limit left out. */
  lemma LeftUnknown(s: State, mailbox: seq<MessageRef>, limit: nat, fault: Fault, m: MessageRef)
    requires UniqueUids(mailbox) && SyncOnce(s, mailbox, limit, fault).ok
    ensures m in Unknown(SyncOnce(s, mailbox, limit, fault).state, mailbox)
            <==> m in Skipped(mailbox, Known(s, mailbox), limit)
  {
    var known := Known(s, mailbox);
    if m in mailbox {
      var i :| 0 <= i < |mailbox| && mailbox[i] == m;
      assert m.uid in Uids(mailbox);
      RoundLearns(s, mailbox, limit, fault, m.uid);
    }
    NotSelected(mailbox, known, limit, m);
  }

  lemma NotSelected(mailbox: seq<MessageRef>, known: set<string>, limit: nat, m: MessageRef)
    requires UniqueUids(mailbox)
    ensures m in mailbox && m.uid !in known && m.uid !in Uids(Selected(mailbox, known, limit))
            <==> m in Skipped(mailbox, known, limit)
  {
    SelectsNewest(mailbox, known, limit);
    KeepDistinct(mailbox, Unless(known));
    OutsidePart(Keep(mailbox, Unless(known)), Selected(mailbox, known, limit), Skipped(mailbox, known, limit), m);
  }

  /** A successful round leaves as many messages unknown as its limit left out. */
  lemma RoundShrinks(s: State, mailbox: seq<MessageRef>, limit: nat, fault: Fault)
    requires UniqueUids(mailbox) && SyncOnce(s, mailbox, limit, fault).ok
    ensures var n := |Unknown(s, mailbox)|;
            |Unknown(SyncOnce(s, mailbox, limit, fault).state, mailbox)| == n - Min(limit, n)
  {
    var known, after := Known(s, mailbox), SyncOnce(s, mailbox, limit, fault).state;
    var selected, skipped := Selected(mailbox, known, limit), Skipped(mailbox, known, limit);
    SelectsNewest(mailbox, known, limit);
    KeepDistinct(mailbox, Unless(known));
    KeepDistinct(mailbox, Unless(Known(after, mailbox)));
    UniqueIsDistinct(Unknown(s, mailbox));
    UniqueIsDistinct(Unknown(after, mailbox));
    forall m ensures m in Unknown(after, mailbox) <==> m in skipped { LeftUnknown(s, mailbox, limit, fault, m); }
    forall m ensures multiset(skipped)[m] <= 1 { assert multiset(Unknown(s, mailbox))[m] <= 1; }
    SameElementsSameLength(Unknown(after, mailbox), skipped);
    assert |multiset(selected)| + |multiset(skipped)| == |multiset(Unknown(s, mailbox))|;
  }

  /** Rounds over one mailbox, each with its limit, up to the first failure. */
  function Rounds(s: State, mailbox: seq<MessageRef>, limits: seq<nat>): Round {
    if limits == [] then Round(s, true, [])
    else
      var n := |limits| - 1;
      var done := Rounds(s, mailbox, limits[..n]);
      if !done.ok then done else SyncOnce(done.state, mailbox, limits[n], NoFault)
  }

  function Sum(limits: seq<nat>): nat {
    if limits == [] then 0 else Sum(limits[..|limits| - 1]) + limits[|limits| - 1]
  }

  lemma {:induction false} RoundsShrink(s: State, mailbox: seq<MessageRef>, limits: seq<nat>)
    requires UniqueUids(mailbox) && Rounds(s, mailbox, limits).ok
    ensures var n := |Unknown(s, mailbox)|;
            |Unknown(Rounds(s, mailbox, limits).state, mailbox)| == n - Min(Sum(limits), n)
  {
    if limits == [] {
    } else {
      var k := |limits| - 1;
      RoundsShrink(s, mailbox, limits[..k]);
      RoundShrinks(Rounds(s, mailbox, limits[..k]).state, mailbox, limits[k], NoFault);
    }
  }

  lemma {:induction false} SumOfEqual(limits: seq<nat>, limit: nat)
    requires forall i :: 0 <= i < |limits| ==> limits[i] == limit
    ensures Sum(limits) == |limits| * limit
  {
    if limits == [] {
    } else {
      SumOfEqual(limits[..|limits| - 1], limit);
      assert |limits| * limit == (|limits| - 1) * limit + limit;
    }
  }

  /** `k` is n divided by d, rounded up. */
  ghost predicate IsCeiling(k: nat, n: nat, d: nat) { (k - 1) * d < n <= k * d }

  predicate StoredComplete(s: State, uid: string) { uid in s.rows && s.rows[uid] == Row(true, false) }

  /** What was unknown and is known now has been stored in the inbox, complete. */
  lemma {:induction false} RoundsStore(s: State, mailbox: seq<MessageRef>, limits: seq<nat>, uid: string)
    requires Rounds(s, mailbox, limits).ok && uid in Uids(mailbox) && uid !in Known(s, mailbox)
    ensures var r := Rounds(s, mailbox, limits).state;
            uid in Known(r, mailbox) ==> StoredComplete(r, uid)
  {
    if limits == [] {
    } else {
      var k := |limits| - 1;
      var before := Rounds(s, mailbox, limits[..k]).state;
      RoundsStore(s, mailbox, limits[..k], uid);
      RoundLearns(before, mailbox, limits[k], NoFault, uid);
      StoreAllRows(before.rows, Selected(mailbox, Known(before, mailbox), limits[k]), NoFault, uid);
    }
  }

  lemma NoneUnknown(s: State, mailbox: seq<MessageRef>, m: MessageRef)
    requires Unknown(s, mailbox) == [] && m in mailbox
    ensures m.uid in Known(s, mailbox)
  {
    assert m !in Keep(mailbox, Unless(Known(s, mailbox)));
  }

  /** Successful rounds over a fixed mailbox with unique UIDs, of limits that add up to at
      least its unknown messages, store all of them. */
  lemma MailboxDrains(s: State, mailbox: seq<MessageRef>, limits: seq<nat>)
    requires UniqueUids(mailbox) && Rounds(s, mailbox, limits).ok
    requires Sum(limits) >= |Unknown(s, mailbox)|
    ensures var r := Rounds(s, mailbox, limits).state;
            && Unknown(r, mailbox) == []
            && forall m :: m in Unknown(s, mailbox) ==> StoredComplete(r, m.uid)
  {
    RoundsShrink(s, mailbox, limits);
    forall m | m in Unknown(s, mailbox) ensures StoredComplete(Rounds(s, mailbox, limits).state, m.uid) {
      DrainedOne(s, mailbox, limits, m);
    }
  }

  lemma DrainedOne(s: State, mailbox: seq<MessageRef>, limits: seq<nat>, m: MessageRef)
    requires Rounds(s, mailbox, limits).ok && Unknown(Rounds(s, mailbox, limits).state, mailbox) == []
    requires m in Unknown(s, mailbox)
    ensures StoredComplete(Rounds(s, mailbox, limits).state, m.uid)
  {
    assert m in mailbox && m.uid !in Known(s, mailbox);
    var i :| 0 <= i < |mailbox| && mailbox[i] == m;
    assert m.uid in Uids(mailbox);
    NoneUnknown(Rounds(s, mailbox, limits).state, mailbox, m);
    RoundsStore(s, mailbox, limits, m.uid);
  }

  // ---------------------------------------------------------------- what is marked seen

  lemma SelectedAreListed(mailbox: seq<MessageRef>, known: set<string>, limit: nat, uid: string)
    requires uid in Uids(Selected(mailbox, known, limit))
    ensures uid in Uids(mailbox) && uid !in known
  {
    var selected := Selected(mailbox, known, limit);
    var i :| 0 <= i < |selected| && selected[i].uid == uid;
    SelectsNewest(mailbox, known, limit);
    assert selected[i] in multiset(selected);
    assert selected[i] in multiset(Keep(mailbox, Unless(known)));
    assert selected[i] in Keep(mailbox, Unless(known));
    var j :| 0 <= j < |mailbox| && mailbox[j] == selected[i];
  }

  /** A round marks as seen exactly what was known before it and what it fetched, and only
      if it succeeds; it fetches only listed messages that were not known. */
  lemma SeenIsKnownOrFetched(s: State, mailbox: seq<MessageRef>, limit: nat, fault: Fault)
    ensures var round := SyncOnce(s, mailbox, limit, fault);
            && (forall uid :: uid in Uids(round.fetched) ==> uid in Uids(mailbox) && uid !in Known(s, mailbox))
            && round.state.seen == if round.ok then Known(s, mailbox) + Uids(round.fetched) else s.seen
  {
    var round, known := SyncOnce(s, mailbox, limit, fault), Known(s, mailbox);
    forall uid | uid in Uids(round.fetched) ensures uid in Uids(mailbox) && uid !in known {
      SelectedAreListed(mailbox, known, limit, uid);
    }
    if round.ok {
      forall uid ensures uid in round.state.seen <==> uid in known || uid in Uids(round.fetched) {
        StoreAllRows(s.rows, Selected(mailbox, known, limit), fault, uid);
      }
    }
  }

  /** Rounds, and changes the user makes to local messages. */
  datatype Event =
    | Sync(mailbox: seq<MessageRef>, limit: nat, fault: Fault)
    | RowGoes(uid: string)
    | RowBecomes(uid: string, row: Row)

  function Step(s: State, e: Event): Round {
    match e
    case Sync(mailbox, limit, fault) => SyncOnce(s, mailbox, limit, fault)
    case RowGoes(uid) => Round(s.(rows := s.rows - {uid}), true, [])
    case RowBecomes(uid, row) => Round(s.(rows := s.rows[uid := row]), true, [])
  }

  function Run(s: State, events: seq<Event>): State {
    if events == [] then s else Step(Run(s, events[..|events| - 1]), events[|events| - 1]).state
  }

  /** The UIDs fetched by the event at position `i`. */
  function FetchedAt(s: State, events: seq<Event>, i: nat): set<string>
    requires i < |events|
  {
    Uids(Step(Run(s, events[..i]), events[i]).fetched)
  }

  lemma StepKeepsSeen(s: State, e: Event, uid: string)
    requires uid in s.seen && !IsIncomplete(s.rows, uid)
    requires e.RowBecomes? && e.uid == uid ==> !(e.row.inInbox && e.row.incomplete)
    ensures uid in Step(s, e).state.seen && !IsIncomplete(Step(s, e).state.rows, uid)
    ensures uid !in Uids(Step(s, e).fetched)
  {
    if e.Sync? {
      SeenIsKnownOrFetched(s, e.mailbox, e.limit, e.fault);
      StoreAllRows(s.rows, Selected(e.mailbox, Known(s, e.mailbox), e.limit), e.fault, uid);
    }
  }

  lemma {:induction false} StaysSeen(s: State, events: seq<Event>, uid: string, n: nat)
    requires uid in s.seen && !IsIncomplete(s.rows, uid) && n <= |events|
    requires forall e :: e in events && e.RowBecomes? && e.uid == uid ==> !(e.row.inInbox && e.row.incomplete)
    ensures uid in Run(s, events[..n]).seen && !IsIncomplete(Run(s, events[..n]).rows, uid)
  {
    if n == 0 {
    } else {
      StaysSeen(s, events, uid, n - 1);
      assert events[..n][..n - 1] == events[..n - 1];
      StepKeepsSeen(Run(s, events[..n - 1]), events[n - 1], uid);
    }
  }

  /** Main result: a UID that has been seen and whose message never lacks its attachments is
      not fetched again, whatever fails and even if its local message goes away. */
  lemma SeenIsNotFetchedAgain(s: State, events: seq<Event>, uid: string, i: nat)
    requires uid in s.seen && !IsIncomplete(s.rows, uid) && i < |events|
    requires forall e :: e in events && e.RowBecomes? && e.uid == uid ==> !(e.row.inInbox && e.row.incomplete)
    ensures uid !in FetchedAt(s, events, i)
  {
    StaysSeen(s, events, uid, i);
    StepKeepsSeen(Run(s, events[..i]), events[i], uid);
  }

  // ---------------------------------------------------------------- when a round can succeed

  lemma {:induction false} StoresAllIff(rows: Rows, messages: seq<MessageRef>)
    requires UniqueUids(messages)
    ensures StoreAll(rows, messages, NoFault).ok <==> forall m :: m in messages ==> Storable(rows, m.uid)
  {
    if messages == [] {
    } else {
      var n := |messages| - 1;
      var last := messages[n];
      StoresAllIff(rows, messages[..n]);
      assert last.uid !in Uids(messages[..n]);
      StoreAllRows(rows, messages[..n], NoFault, last.uid);
      assert forall m :: m in messages <==> m in messages[..n] || m == last;
    }
  }

  lemma SelectedAreUnique(mailbox: seq<MessageRef>, known: set<string>, limit: nat)
    requires UniqueUids(mailbox)
    ensures UniqueUids(Selected(mailbox, known, limit))
  {
    var unknown, selected := Keep(mailbox, Unless(known)), Selected(mailbox, known, limit);
    KeepDistinct(mailbox, Unless(known));
    SelectsNewest(mailbox, known, limit);
    UniqueIsDistinct(unknown);
    forall m ensures multiset(selected)[m] <= 1 { assert multiset(selected)[m] <= multiset(unknown)[m]; }
    DistinctMultiplicity(selected);
    forall i, j | 0 <= i < j < |selected| ensures selected[i].uid != selected[j].uid {
      assert selected[i] in multiset(selected) && selected[j] in multiset(selected);
      assert selected[i] in multiset(unknown) && selected[j] in multiset(unknown);
      assert selected[i] in unknown && selected[j] in unknown;
    }
  }

  /** Without a fault a round succeeds if and only if no selected message has a live local
      message outside the inbox or with its attachments. */
  lemma RoundSucceedsIff(s: State, mailbox: seq<MessageRef>, limit: nat)
    requires UniqueUids(mailbox)
    ensures SyncOnce(s, mailbox, limit, NoFault).ok <==>
              forall m :: m in Selected(mailbox, Known(s, mailbox), limit) ==> Storable(s.rows, m.uid)
  {
    SelectedAreUnique(mailbox, Known(s, mailbox), limit);
    StoresAllIff(s.rows, Selected(mailbox, Known(s, mailbox), limit));
  }

  // ---------------------------------------------------------------- when a mailbox drains

  lemma IsUnknown(s: State, mailbox: seq<MessageRef>, m: MessageRef)
    ensures m in Unknown(s, mailbox) <==> m in mailbox && m.uid !in Known(s, mailbox)
    ensures m in mailbox ==> m.uid in Uids(mailbox)
  {
    if m in mailbox { UidIsListed(mailbox, m); }
  }

  /** What successful rounds leave unknown was unknown before them, and they leave its row alone. */
  lemma {:induction false} LeftAlone(s: State, mailbox: seq<MessageRef>, limits: seq<nat>, m: MessageRef)
    requires Rounds(s, mailbox, limits).ok && m in Unknown(Rounds(s, mailbox, limits).state, mailbox)
    ensures m in Unknown(s, mailbox) && SameRow(Rounds(s, mailbox, limits).state.rows, s.rows, m.uid)
  {
    if limits == [] {
    } else {
      var k := |limits| - 1;
      var before := Rounds(s, mailbox, limits[..k]).state;
      IsUnknown(Rounds(s, mailbox, limits).state, mailbox, m);
      IsUnknown(before, mailbox, m);
      RoundLearns(before, mailbox, limits[k], NoFault, m.uid);
      StoreAllRows(before.rows, Selected(mailbox, Known(before, mailbox), limits[k]), NoFault, m.uid);
      LeftAlone(s, mailbox, limits[..k], m);
    }
  }

  /** What successful rounds have made known could be stored at the start. */
  lemma {:induction false} LearntWasStorable(s: State, mailbox: seq<MessageRef>, limits: seq<nat>, m: MessageRef)
    requires UniqueUids(mailbox) && Rounds(s, mailbox, limits).ok
    requires m in Unknown(s, mailbox) && m !in Unknown(Rounds(s, mailbox, limits).state, mailbox)
    ensures Storable(s.rows, m.uid)
  {
    var k := |limits| - 1;
    var before := Rounds(s, mailbox, limits[..k]).state;
    if m in Unknown(before, mailbox) {
      var selected := Selected(mailbox, Known(before, mailbox), limits[k]);
      IsUnknown(Rounds(s, mailbox, limits).state, mailbox, m);
      IsUnknown(before, mailbox, m);
      RoundLearns(before, mailbox, limits[k], NoFault, m.uid);
      RoundSucceedsIff(before, mailbox, limits[k]);
      var i :| 0 <= i < |selected| && selected[i].uid == m.uid;
      assert Storable(before.rows, selected[i].uid);
      LeftAlone(s, mailbox, limits[..k], m);
    } else {
      LearntWasStorable(s, mailbox, limits[..k], m);
    }
  }

  lemma {:induction false} StorableRoundsSucceed(s: State, mailbox: seq<MessageRef>, limits: seq<nat>)
    requires UniqueUids(mailbox) && forall m :: m in Unknown(s, mailbox) ==> Storable(s.rows, m.uid)
    ensures Rounds(s, mailbox, limits).ok
  {
    if limits == [] {
    } else {
      var k := |limits| - 1;
      StorableRoundsSucceed(s, mailbox, limits[..k]);
      var before := Rounds(s, mailbox, limits[..k]).state;
      var selected := Selected(mailbox, Known(before, mailbox), limits[k]);
      forall m | m in selected ensures Storable(before.rows, m.uid) {
        SelectedOrSkipped(mailbox, Known(before, mailbox), limits[k], m);
        IsUnknown(before, mailbox, m);
        LeftAlone(s, mailbox, limits[..k], m);
      }
      RoundSucceedsIff(before, mailbox, limits[k]);
    }
  }

  /** Main result: faultless rounds whose limits add up to at least the unknown messages
      drain a mailbox with unique UIDs if and only if every unknown message can be stored at
      the start, and otherwise one of them fails. */
  lemma DrainsIff(s: State, mailbox: seq<MessageRef>, limits: seq<nat>)
    requires UniqueUids(mailbox) && Sum(limits) >= |Unknown(s, mailbox)|
    ensures var r := Rounds(s, mailbox, limits);
            && (r.ok <==> forall m :: m in Unknown(s, mailbox) ==> Storable(s.rows, m.uid))
            && (r.ok ==> Unknown(r.state, mailbox) == []
                         && forall m :: m in Unknown(s, mailbox) ==> StoredComplete(r.state, m.uid))
  {
    if Rounds(s, mailbox, limits).ok {
      MailboxDrains(s, mailbox, limits);
      forall m | m in Unknown(s, mailbox) ensures Storable(s.rows, m.uid) {
        LearntWasStorable(s, mailbox, limits, m);
      }
    } else if forall m :: m in Unknown(s, mailbox) ==> Storable(s.rows, m.uid) {
      StorableRoundsSucceed(s, mailbox, limits);
    }
  }

  /** With one limit, ceil(n / limit) rounds are enough. */
  lemma DrainsInCeiling(s: State, mailbox: seq<MessageRef>, limit: nat, limits: seq<nat>)
    requires UniqueUids(mailbox) && limit > 0
    requires forall m :: m in Unknown(s, mailbox) ==> Storable(s.rows, m.uid)
    requires forall i :: 0 <= i < |limits| ==> limits[i] == limit
    requires IsCeiling(|limits|, |Unknown(s, mailbox)|, limit)
    ensures Rounds(s, mailbox, limits).ok && Unknown(Rounds(s, mailbox, limits).state, mailbox) == []
  {
    SumOfEqual(limits, limit);
    DrainsIff(s, mailbox, limits);
  }

  // ---------------------------------------------------------------- draining despite failures

  lemma KnownIff(s: State, mailbox: seq<MessageRef>, uid: string)
    ensures uid in Known(s, mailbox) <==>
              if uid in Uids(mailbox) && InInbox(s.rows, uid) then !s.rows[uid].incomplete else uid in s.seen
  {
  }

  lemma RoundState(s: State, mailbox: seq<MessageRef>, limit: nat, fault: Fault, uid: string)
    ensures var r := SyncOnce(s, mailbox, limit, fault).state;
            && (SameRow(r.rows, s.rows, uid) || StoredComplete(r, uid))
            && (uid in s.seen && uid !in r.seen ==> IsIncomplete(s.rows, uid))
            && (uid in r.seen && uid !in s.seen && uid in Uids(mailbox) ==>
                  uid in Known(s, mailbox) || StoredComplete(r, uid))
  {
    StoreAllRows(s.rows, Selected(mailbox, Known(s, mailbox), limit), fault, uid);
  }

  /** A round makes nothing unknown that was known, even if it fails; what it makes known is
      stored in the inbox, complete, and stays so. */
  lemma KnownGrows(s: State, mailbox: seq<MessageRef>, limit: nat, fault: Fault, uid: string)
    ensures var r := SyncOnce(s, mailbox, limit, fault).state;
            && (uid in Known(s, mailbox) ==> uid in Known(r, mailbox))
            && (StoredComplete(s, uid) ==> StoredComplete(r, uid))
            && (uid in Uids(mailbox) && uid in Known(r, mailbox) && uid !in Known(s, mailbox)
                ==> StoredComplete(r, uid))
  {
    var r := SyncOnce(s, mailbox, limit, fault).state;
    KnownIff(s, mailbox, uid);
    KnownIff(r, mailbox, uid);
    RoundState(s, mailbox, limit, fault, uid);
    SeenIsKnownOrFetched(s, mailbox, limit, fault);
  }

  lemma {:induction false} KeepFewer(messages: seq<MessageRef>, p: MessageRef -> bool, q: MessageRef -> bool)
    requires forall m :: p(m) ==> q(m)
    ensures |Keep(messages, p)| <= |Keep(messages, q)|
  {
    if messages == [] {
    } else {
      KeepFewer(messages[1..], p, q);
    }
  }

  ghost predicate RoundsOver(mailbox: seq<MessageRef>, events: seq<Event>) {
    forall e :: e in events ==> e.Sync? && e.mailbox == mailbox
  }

  /** The limits of the rounds that succeed, added up. */
  ghost function Fetchable(s: State, events: seq<Event>): nat {
    if events == [] then 0 else
      var n := |events| - 1;
      var e := events[n];
      Fetchable(s, events[..n]) + if e.Sync? && Step(Run(s, events[..n]), e).ok then e.limit else 0
  }

  /** Over any rounds, some of which fail: at most as many messages stay unknown as the
      limits of the successful rounds leave, so failures in between lose no progress. */
  lemma {:induction false} FailuresLoseNothing(s: State, mailbox: seq<MessageRef>, events: seq<Event>)
    requires UniqueUids(mailbox) && RoundsOver(mailbox, events)
    ensures var n := |Unknown(s, mailbox)|;
            |Unknown(Run(s, events), mailbox)| <= n - Min(Fetchable(s, events), n)
  {
    if events == [] {
    } else {
      var k := |events| - 1;
      var before, e := Run(s, events[..k]), events[k];
      FailuresLoseNothing(s, mailbox, events[..k]);
      if SyncOnce(before, mailbox, e.limit, e.fault).ok {
        RoundShrinks(before, mailbox, e.limit, e.fault);
      } else {
        forall uid | uid in Known(before, mailbox) ensures uid in Known(Run(s, events), mailbox) {
          KnownGrows(before, mailbox, e.limit, e.fault, uid);
        }
        KeepFewer(mailbox, Unless(Known(Run(s, events), mailbox)), Unless(Known(before, mailbox)));
      }
    }
  }

  /** What was unknown and has become known over such rounds is stored, complete. */
  lemma {:induction false} LearntIsStored(s: State, mailbox: seq<MessageRef>, events: seq<Event>, uid: string)
    requires RoundsOver(mailbox, events) && uid in Uids(mailbox) && uid !in Known(s, mailbox)
    ensures uid in Known(Run(s, events), mailbox) ==> StoredComplete(Run(s, events), uid)
  {
    if events == [] {
    } else {
      var k := |events| - 1;
      LearntIsStored(s, mailbox, events[..k], uid);
      KnownGrows(Run(s, events[..k]), mailbox, events[k].limit, events[k].fault, uid);
    }
  }

  /** Hence the mailbox drains as soon as the successful rounds' limits reach what was
      unknown, whatever failed in between. */
  lemma DrainsDespiteFailures(s: State, mailbox: seq<MessageRef>, events: seq<Event>)
    requires UniqueUids(mailbox) && RoundsOver(mailbox, events)
    requires Fetchable(s, events) >= |Unknown(s, mailbox)|
    ensures var r := Run(s, events);
            && Unknown(r, mailbox) == []
            && forall m :: m in Unknown(s, mailbox) ==> StoredComplete(r, m.uid)
  {
    FailuresLoseNothing(s, mailbox, events);
    forall m | m in Unknown(s, mailbox) ensures StoredComplete(Run(s, events), m.uid) {
      IsUnknown(s, mailbox, m);
      NoneUnknown(Run(s, events), mailbox, m);
      LearntIsStored(s, mailbox, events, m.uid);
    }
  }

  /** Storing the message at position `i` fails. */
  ghost predicate FailsAt(rows: Rows, messages: seq<MessageRef>, fault: Fault, i: nat)
    requires i < |messages|
  {
    fault == StoreFails(i) || (messages[i].uid in rows && !IsIncomplete(rows, messages[i].uid))
  }

  /** The row is stored, complete, if it is one of the first `k`, and as it was otherwise. */
  ghost predicate StoredBelow(rows: Rows, messages: seq<MessageRef>, k: int, r: Rows, uid: string)
    requires k <= |messages|
  {
    if exists i :: 0 <= i < k && messages[i].uid == uid then uid in r && r[uid] == Row(true, false)
    else SameRow(r, rows, uid)
  }

  lemma {:induction false} StoresWhile(rows: Rows, messages: seq<MessageRef>, fault: Fault, k: nat, uid: string)
    requires UniqueUids(messages) && k <= |messages|
    requires forall i :: 0 <= i < k ==> !FailsAt(rows, messages, fault, i)
    ensures StoreAll(rows, messages[..k], fault).ok
    ensures StoredBelow(rows, messages, k, StoreAll(rows, messages[..k], fault).rows, uid)
  {
    if k == 0 {
    } else {
      StoresWhile(rows, messages, fault, k - 1, uid);
      StoresWhile(rows, messages, fault, k - 1, messages[k - 1].uid);
      assert !FailsAt(rows, messages, fault, k - 1);
      StoreOneMore(rows, messages, fault, k - 1);
      StoredBelowSnoc(rows, messages, k - 1, StoreAll(rows, messages[..k - 1], fault).rows, uid);
    }
  }

  lemma StoredBelowSnoc(rows: Rows, messages: seq<MessageRef>, k: nat, r: Rows, uid: string)
    requires k < |messages| && StoredBelow(rows, messages, k, r, uid)
    ensures StoredBelow(rows, messages, k + 1, Stored(r, messages[k].uid), uid)
  {
  }

  lemma StoreOneMore(rows: Rows, messages: seq<MessageRef>, fault: Fault, k: nat)
    requires UniqueUids(messages) && k < |messages| && StoreAll(rows, messages[..k], fault).ok
    requires StoredBelow(rows, messages, k, StoreAll(rows, messages[..k], fault).rows, messages[k].uid)
    ensures var before, uid := StoreAll(rows, messages[..k], fault), messages[k].uid;
            StoreAll(rows, messages[..k + 1], fault)
            == if FailsAt(rows, messages, fault, k) then before.(ok := false)
               else StoreRun(Stored(before.rows, uid), true)
  {
    assert messages[..k + 1][..k] == messages[..k];
  }

  /** Storing stops at the first message that fails, at `k`: the ones before it have been
      stored, complete, and all other rows are as they were. */
  lemma StoresUpToFailure(rows: Rows, messages: seq<MessageRef>, fault: Fault, k: nat, uid: string)
    requires UniqueUids(messages) && k <= |messages|
    requires forall i :: 0 <= i < k ==> !FailsAt(rows, messages, fault, i)
    requires k < |messages| ==> FailsAt(rows, messages, fault, k)
    ensures var run := StoreAll(rows, messages, fault);
            (run.ok <==> k == |messages|) && StoredBelow(rows, messages, k, run.rows, uid)
  {
    StoresWhile(rows, messages, fault, k, uid);
    if k < |messages| {
      StoresWhile(rows, messages, fault, k, messages[k].uid);
      StoreOneMore(rows, messages, fault, k);
      StoreStops(rows, messages, fault, k + 1);
    } else {
      assert messages[..k] == messages;
    }
  }

  /** A listed UID that was never marked seen and whose message has left the inbox, as when
      the user archives it after a round that stored it and then failed. */
  predicate Blocked(s: State, mailbox: seq<MessageRef>, uid: string) {
    uid in Uids(mailbox) && uid !in s.seen && uid in s.rows && !s.rows[uid].inInbox
  }

  lemma {:induction false} StoreStaysBlocked(rows: Rows, messages: seq<MessageRef>, fault: Fault, uid: string)
    requires uid in rows && !rows[uid].inInbox
    ensures var run := StoreAll(rows, messages, fault);
            && uid in run.rows && run.rows[uid] == rows[uid]
            && (uid in Uids(messages) ==> !run.ok)
  {
    if messages == [] {
    } else {
      var n := |messages| - 1;
      StoreStaysBlocked(rows, messages[..n], fault, uid);
      assert Uids(messages) == Uids(messages[..n]) + {messages[n].uid};
    }
  }

  // ---------------------------------------------------------------- what a limit reaches

  ghost predicate UniqueNumbers(mailbox: seq<MessageRef>) {
    forall a, b :: a in mailbox && b in mailbox && a.number == b.number ==> a == b
  }

  lemma {:induction false} ElementsCount(messages: seq<MessageRef>)
    requires UniqueUids(messages)
    ensures |Elements(messages)| == |messages|
  {
    if messages == [] {
    } else {
      var n := |messages| - 1;
      ElementsCount(messages[..n]);
      assert messages[n] !in messages[..n];
      assert Elements(messages) == Elements(messages[..n]) + {messages[n]};
    }
  }

  lemma SelectedOrSkipped(mailbox: seq<MessageRef>, known: set<string>, limit: nat, m: MessageRef)
    ensures m in mailbox && m.uid !in known <==>
              m in Selected(mailbox, known, limit) || m in Skipped(mailbox, known, limit)
  {
    var selected, skipped := Selected(mailbox, known, limit), Skipped(mailbox, known, limit);
    SelectsNewest(mailbox, known, limit);
    InSameMultiset(selected + skipped, Keep(mailbox, Unless(known)), m);
  }

  /** A selected message is not skipped, and with unique numbers a skipped one has a lower
      number than every selected one. */
  lemma SkippedAreLower(mailbox: seq<MessageRef>, known: set<string>, limit: nat,
                        selected: MessageRef, skipped: MessageRef)
    requires UniqueUids(mailbox) && UniqueNumbers(mailbox)
    requires selected in Selected(mailbox, known, limit) && skipped in Skipped(mailbox, known, limit)
    ensures selected.number > skipped.number
  {
    SelectsNewest(mailbox, known, limit);
    SelectedOrSkipped(mailbox, known, limit, selected);
    SelectedOrSkipped(mailbox, known, limit, skipped);
    NotSelected(mailbox, known, limit, skipped);
    UidIsListed(Selected(mailbox, known, limit), selected);
  }

  lemma UidIsListed(messages: seq<MessageRef>, m: MessageRef)
    requires m in messages
    ensures m.uid in Uids(messages)
  {
    var i :| 0 <= i < |messages| && messages[i] == m;
  }

  /** A message that the limit reaches and that stays unknown stays within reach when more
      becomes known. */
  lemma StaysSelected(mailbox: seq<MessageRef>, known: set<string>, more: set<string>, limit: nat, m: MessageRef)
    requires UniqueUids(mailbox) && UniqueNumbers(mailbox)
    requires known <= more && m.uid !in more && m in Selected(mailbox, known, limit)
    ensures m in Selected(mailbox, more, limit)
  {
    SelectedOrSkipped(mailbox, known, limit, m);
    SelectedOrSkipped(mailbox, more, limit, m);
    if m in Skipped(mailbox, more, limit) {
      var before, after := Selected(mailbox, known, limit), Selected(mailbox, more, limit);
      assert |after| == limit by { SelectsNewest(mailbox, more, limit); SkippedMeansFull(mailbox, more, limit, m); }
      assert |before| <= limit by { SelectsNewest(mailbox, known, limit); }
      forall x | x in after ensures x in before && x != m {
        SkippedAreLower(mailbox, more, limit, x, m);
        SelectedOrSkipped(mailbox, more, limit, x);
        SelectedOrSkipped(mailbox, known, limit, x);
        if x in Skipped(mailbox, known, limit) { SkippedAreLower(mailbox, known, limit, m, x); }
      }
      SelectedAreUnique(mailbox, known, limit);
      SelectedAreUnique(mailbox, more, limit);
      ElementsCount(before);
      ElementsCount(after);
      OneMore(Elements(after), Elements(before), m);
    }
  }

  lemma SkippedMeansFull(mailbox: seq<MessageRef>, known: set<string>, limit: nat, m: MessageRef)
    requires m in Skipped(mailbox, known, limit)
    ensures |Selected(mailbox, known, limit)| == limit
  {
  }

  lemma OneMore(a: set<MessageRef>, b: set<MessageRef>, m: MessageRef)
    requires a <= b && m in b && m !in a
    ensures |a| < |b|
  {
    assert b == a + (b - a) && m in b - a;
  }

  // ---------------------------------------------------------------- blocked for ever

  /** A round that selects a blocked message fails, marks nothing seen, leaves the message
      blocked, and makes nothing unknown that was known. */
  lemma BlockedOnce(s: State, mailbox: seq<MessageRef>, limit: nat, fault: Fault, m: MessageRef)
    requires Blocked(s, mailbox, m.uid) && m in Selected(mailbox, Known(s, mailbox), limit)
    ensures var round := SyncOnce(s, mailbox, limit, fault);
            && !round.ok && round.state.seen == s.seen && Blocked(round.state, mailbox, m.uid)
            && Known(s, mailbox) <= Known(round.state, mailbox)
  {
    var selected := Selected(mailbox, Known(s, mailbox), limit);
    UidIsListed(selected, m);
    StoreStaysBlocked(s.rows, selected, fault, m.uid);
    forall uid | uid in Known(s, mailbox) ensures uid in Known(SyncOnce(s, mailbox, limit, fault).state, mailbox) {
      StoreAllRows(s.rows, selected, fault, uid);
    }
  }

  lemma BlockedIsUnknown(s: State, mailbox: seq<MessageRef>, uid: string)
    requires Blocked(s, mailbox, uid)
    ensures uid !in Known(s, mailbox)
  {
  }

  /** A round over the mailbox would select the blocked message `m`. */
  ghost predicate Reaches(s: State, mailbox: seq<MessageRef>, limit: nat, m: MessageRef) {
    && UniqueUids(mailbox) && UniqueNumbers(mailbox)
    && Blocked(s, mailbox, m.uid) && m in Selected(mailbox, Known(s, mailbox), limit)
  }

  /** A blocked message within the limit's reach stays there through every round over the
      mailbox, each of which fails. */
  lemma ReachedOnce(s: State, mailbox: seq<MessageRef>, limit: nat, fault: Fault, m: MessageRef)
    requires Reaches(s, mailbox, limit, m)
    ensures var round := SyncOnce(s, mailbox, limit, fault);
            !round.ok && round.state.seen == s.seen && Reaches(round.state, mailbox, limit, m)
  {
    var r := SyncOnce(s, mailbox, limit, fault).state;
    BlockedOnce(s, mailbox, limit, fault, m);
    BlockedIsUnknown(r, mailbox, m.uid);
    StaysSelected(mailbox, Known(s, mailbox), Known(r, mailbox), limit, m);
  }

  function SyncAll(mailbox: seq<MessageRef>, limit: nat, faults: seq<Fault>): seq<Event> {
    seq(|faults|, i requires 0 <= i < |faults| => Sync(mailbox, limit, faults[i]))
  }

  /** Main result: a blocked message that a round would select makes that round and all later
      ones over the mailbox fail, for any limit and any further faults, and nothing is marked
      seen any more. */
  lemma {:induction false} BlockedForEver(s: State, mailbox: seq<MessageRef>, limit: nat, faults: seq<Fault>,
                                          m: MessageRef)
    requires Reaches(s, mailbox, limit, m)
    ensures var r := Run(s, SyncAll(mailbox, limit, faults));
            && Reaches(r, mailbox, limit, m) && r.seen == s.seen
            && forall fault :: !SyncOnce(r, mailbox, limit, fault).ok
  {
    var events := SyncAll(mailbox, limit, faults);
    if faults == [] {
      assert events == [];
    } else {
      var n := |faults| - 1;
      BlockedForEver(s, mailbox, limit, faults[..n], m);
      SyncAllPrefix(mailbox, limit, faults);
      ReachedOnce(Run(s, events[..n]), mailbox, limit, faults[n], m);
    }
    AllFaultsFail(Run(s, events), mailbox, limit, m);
  }

  lemma SyncAllPrefix(mailbox: seq<MessageRef>, limit: nat, faults: seq<Fault>)
    requires faults != []
    ensures SyncAll(mailbox, limit, faults)[..|faults| - 1] == SyncAll(mailbox, limit, faults[..|faults| - 1])
  {
  }

  lemma AllFaultsFail(s: State, mailbox: seq<MessageRef>, limit: nat, m: MessageRef)
    requires Reaches(s, mailbox, limit, m)
    ensures forall fault :: !SyncOnce(s, mailbox, limit, fault).ok
  {
    forall fault ensures !SyncOnce(s, mailbox, limit, fault).ok { ReachedOnce(s, mailbox, limit, fault, m); }
  }

  // ---------------------------------------------------------------- the circuit breaker

  datatype Poller = Poller(state: State, failures: nat)

  function Counted(p: Poller, round: Round): Poller {
    if p.failures >= CIRCUIT_THRESHOLD then p
    else Poller(round.state, if round.ok then 0 else p.failures + 1)
  }

  function PollCycle(p: Poller, mailbox: seq<MessageRef>, fault: Fault): Poller {
    Counted(p, SyncOnce(p.state, mailbox, POLL_LIMIT, fault))
  }

  function PollCycles(p: Poller, polls: seq<(seq<MessageRef>, Fault)>): Poller {
    if polls == [] then p
    else PollCycle(PollCycles(p, polls[..|polls| - 1]), polls[|polls| - 1].0, polls[|polls| - 1].1)
  }

  /** Once open, the circuit stays open: no later poll synchronises anything. */
  lemma {:induction false} CircuitIsAbsorbing(p: Poller, polls: seq<(seq<MessageRef>, Fault)>)
    requires p.failures >= CIRCUIT_THRESHOLD
    ensures PollCycles(p, polls) == p
  {
    if polls == [] {
    } else {
      CircuitIsAbsorbing(p, polls[..|polls| - 1]);
    }
  }

  /** The results of the rounds of the polls, as far as the circuit lets them have one. */
  function Outcomes(p: Poller, polls: seq<(seq<MessageRef>, Fault)>): seq<bool> {
    if polls == [] then []
    else
      var n := |polls| - 1;
      Outcomes(p, polls[..n]) + [SyncOnce(PollCycles(p, polls[..n]).state, polls[n].0, POLL_LIMIT, polls[n].1).ok]
  }

  ghost predicate FiveFail(outcomes: seq<bool>, n: nat) {
    5 <= n <= |outcomes| && forall i :: n - 5 <= i < n ==> !outcomes[i]
  }

  /** While the circuit is closed the counter is the number of rounds that failed last. */
  ghost predicate EndsInFailures(outcomes: seq<bool>, failures: nat) {
    && failures <= |outcomes|
    && (forall i :: |outcomes| - failures <= i < |outcomes| ==> !outcomes[i])
    && (failures < |outcomes| ==> outcomes[|outcomes| - failures - 1])
  }

  /** What the counter says of the outcomes so far. */
  ghost predicate CounterOk(outcomes: seq<bool>, failures: nat) {
    if failures < 5 then EndsInFailures(outcomes, failures) && forall n :: !FiveFail(outcomes, n)
    else exists n :: FiveFail(outcomes, n)
  }

  lemma CounterStep(outcomes: seq<bool>, failures: nat, ok: bool)
    requires CounterOk(outcomes, failures)
    ensures CounterOk(outcomes + [ok], if failures >= 5 then failures else if ok then 0 else failures + 1)
  {
    var all, k := outcomes + [ok], |outcomes|;
    forall n: nat | n <= k ensures FiveFail(all, n) <==> FiveFail(outcomes, n) {
      assert forall i :: 0 <= i < k ==> all[i] == outcomes[i];
    }
    if failures >= 5 {
      var n :| FiveFail(outcomes, n);
      assert FiveFail(all, n);
    } else if !ok && failures == 4 {
      assert FiveFail(all, k + 1);
    } else if !ok {
      forall n: nat ensures !FiveFail(all, n) {
        if n <= k {
          assert !FiveFail(outcomes, n);
        } else if n == k + 1 && n >= 5 {
          assert outcomes[k - failures - 1] && all[k - failures - 1] && n - 5 <= k - failures - 1 < n;
        }
      }
    }
  }

  lemma CountedFailures(p: Poller, round: Round)
    ensures Counted(p, round).failures
            == if p.failures >= 5 then p.failures else if round.ok then 0 else p.failures + 1
  {
  }

  lemma OutcomeAdded(p: Poller, polls: seq<(seq<MessageRef>, Fault)>) returns (ok: bool)
    requires polls != []
    ensures var before := polls[..|polls| - 1];
            var failures := PollCycles(p, before).failures;
            && Outcomes(p, polls) == Outcomes(p, before) + [ok]
            && PollCycles(p, polls).failures == if failures >= 5 then failures else if ok then 0 else failures + 1
  {
    var n := |polls| - 1;
    var round := SyncOnce(PollCycles(p, polls[..n]).state, polls[n].0, POLL_LIMIT, polls[n].1);
    CountedFailures(PollCycles(p, polls[..n]), round);
    ok := round.ok;
  }

  lemma {:induction false} CounterIs(p: Poller, polls: seq<(seq<MessageRef>, Fault)>)
    requires p.failures == 0
    ensures |Outcomes(p, polls)| == |polls| && CounterOk(Outcomes(p, polls), PollCycles(p, polls).failures)
  {
    if polls == [] {
    } else {
      var n := |polls| - 1;
      CounterIs(p, polls[..n]);
      var ok := OutcomeAdded(p, polls);
      CounterStep(Outcomes(p, polls[..n]), PollCycles(p, polls[..n]).failures, ok);
    }
  }

  /** The circuit of a fresh worker is open exactly if at some time five rounds in a row have
      failed. */
  lemma CircuitOpensIff(state: State, polls: seq<(seq<MessageRef>, Fault)>)
    ensures var p := Poller(state, 0);
            PollCycles(p, polls).failures >= 5 <==> exists n :: FiveFail(Outcomes(p, polls), n)
  {
    CounterIs(Poller(state, 0), polls);
  }

  function Polls(mailbox: seq<MessageRef>, faults: seq<Fault>): seq<(seq<MessageRef>, Fault)> {
    seq(|faults|, i requires 0 <= i < |faults| => (mailbox, faults[i]))
  }

  lemma PollsPrefix(mailbox: seq<MessageRef>, faults: seq<Fault>)
    requires faults != []
    ensures Polls(mailbox, faults)[..|faults| - 1] == Polls(mailbox, faults[..|faults| - 1])
  {
  }

  lemma BlockedPollCounts(p: Poller, mailbox: seq<MessageRef>, fault: Fault, m: MessageRef)
    requires Reaches(p.state, mailbox, POLL_LIMIT, m)
    ensures var r := PollCycle(p, mailbox, fault);
            && Reaches(r.state, mailbox, POLL_LIMIT, m) && r.state.seen == p.state.seen
            && r.failures == if p.failures >= CIRCUIT_THRESHOLD then p.failures else p.failures + 1
  {
    ReachedOnce(p.state, mailbox, POLL_LIMIT, fault, m);
    FailureCounts(p, SyncOnce(p.state, mailbox, POLL_LIMIT, fault));
  }

  lemma FailureCounts(p: Poller, round: Round)
    requires !round.ok && round.state.seen == p.state.seen
    ensures var r := Counted(p, round);
            && r.state.seen == p.state.seen && (r.state == p.state || r.state == round.state)
            && r.failures == if p.failures >= CIRCUIT_THRESHOLD then p.failures else p.failures + 1
  {
  }

  /** Polls that reach a blocked message open the circuit: one failure each, up to five. */
  lemma {:induction false} BlockedPollsCount(p: Poller, mailbox: seq<MessageRef>, faults: seq<Fault>, m: MessageRef)
    requires Reaches(p.state, mailbox, POLL_LIMIT, m)
    ensures var r := PollCycles(p, Polls(mailbox, faults));
            && Reaches(r.state, mailbox, POLL_LIMIT, m) && r.state.seen == p.state.seen
            && (r.failures >= CIRCUIT_THRESHOLD || r.failures == p.failures + |faults|)
  {
    var polls := Polls(mailbox, faults);
    if faults == [] {
      assert polls == [];
    } else {
      var n := |faults| - 1;
      BlockedPollsCount(p, mailbox, faults[..n], m);
      PollsPrefix(mailbox, faults);
      BlockedPollCounts(PollCycles(p, polls[..n]), mailbox, faults[n], m);
    }
  }

  lemma {:induction false} PollCyclesConcat(p: Poller, a: seq<(seq<MessageRef>, Fault)>,
                                            b: seq<(seq<MessageRef>, Fault)>)
    ensures PollCycles(p, a + b) == PollCycles(PollCycles(p, a), b)
  {
    if b == [] {
      assert a + b == a;
    } else {
      assert (a + b)[..|a + b| - 1] == a + b[..|b| - 1];
      PollCyclesConcat(p, a, b[..|b| - 1]);
    }
  }

  /** After five polls that reach a blocked message nothing synchronises again, whatever the
      server lists from then on. */
  lemma BlockedOpensCircuit(p: Poller, mailbox: seq<MessageRef>, faults: seq<Fault>, m: MessageRef,
                            later: seq<(seq<MessageRef>, Fault)>)
    requires Reaches(p.state, mailbox, POLL_LIMIT, m) && |faults| >= CIRCUIT_THRESHOLD
    ensures var stuck := PollCycles(p, Polls(mailbox, faults));
            && stuck.failures >= CIRCUIT_THRESHOLD && stuck.state.seen == p.state.seen
            && PollCycles(p, Polls(mailbox, faults) + later) == stuck
  {
    var polls := Polls(mailbox, faults);
    BlockedPollsCount(p, mailbox, faults, m);
    PollCyclesConcat(p, polls, later);
    CircuitIsAbsorbing(PollCycles(p, polls), later);
  }
}
