/** The kanban board's store (src/stores/kanban.store.ts): optimistic card changes with
    rollback, and notes guarded by edit and fetch generations.

    A request in flight is cut at its await: one event issues it, another brings its
    reply. Replies are arbitrary and may come in any order or not at all. */
module KanbanStore {
  import opened Basics
  import opened Sequences

  datatype Card = Card(messageId: string, column: string, position: int)

  type Notes = map<string, string>

  /** A note edit in flight, with what it found before it. */
  datatype Edit = Edit(messageId: string, note: string, previous: Option<string>)

  datatype Fetch = Fetch(noteGenerationAtStart: nat, pendingAtStart: set<string>)

  datatype State = State(
    cards: seq<Card>,
    cardIdSet: set<string>,
    notes: Notes,
    loading: bool,
    nextNoteGeneration: nat,
    latestGeneration: map<string, nat>,
    mutationGeneration: map<string, nat>,
    nextFetchGeneration: nat,
    latestFetch: nat,
    edits: map<nat, Edit>,             // by generation
    fetches: map<nat, Fetch>,          // by generation
    changes: map<nat, seq<Card>>,      // card changes in flight, with the cards before them
    nextChange: nat)

  datatype Event =
    | FetchStarts
    | FetchReplies(generation: nat, cards: seq<Card>, notes: Notes)
    | FetchFails(generation: nat)
    | MoveCard(messageId: string, column: string, position: int)
    | RemoveCard(messageId: string)
    | ReorderColumn(column: string, orderedIds: seq<string>)
    | ChangeReplies(change: nat)
    | ChangeFails(change: nat)
    | EditStarts(messageId: string, note: string)
    | EditReplies(generation: nat, saved: Notes)
    | EditFails(generation: nat)

  function Initial(): State {
    State([], {}, map[], false, 0, map[], map[], 0, 0, map[], map[], map[], 0)
  }

  function Shown(notes: Notes, messageId: string): Option<string> {
    if messageId in notes then Some(notes[messageId]) else None
  }

  function WithNote(notes: Notes, messageId: string, note: Option<string>): Notes {
    if note.Some? then notes[messageId := note.value] else notes - {messageId}
  }

  /** An empty note is no note. */
  function Text(note: string): Option<string> { if note == "" then None else Some(note) }

  function BuildIdSet(cards: seq<Card>): set<string> {
    set i | 0 <= i < |cards| :: cards[i].messageId
  }

  function Moved(cards: seq<Card>, messageId: string, column: string, position: int): seq<Card> {
    seq(|cards|, i requires 0 <= i < |cards| =>
      if cards[i].messageId == messageId then cards[i].(column := column, position := position) else cards[i])
  }

  function FindCard(cards: seq<Card>, messageId: string): Option<Card> {
    if cards == [] then None
    else if cards[0].messageId == messageId then Some(cards[0])
    else FindCard(cards[1..], messageId)
  }

  /** The listed cards that exist, each placed at its index in the list. */
  function Reordered(cards: seq<Card>, orderedIds: seq<string>): seq<Card> {
    if orderedIds == [] then []
    else
      var n := |orderedIds| - 1;
      var found := FindCard(cards, orderedIds[n]);
      Reordered(cards, orderedIds[..n]) + if found.Some? then [found.value.(position := n)] else []
  }

  function Elsewhere(column: string): Card -> bool { (c: Card) => c.column != column }

  function Other(messageId: string): Card -> bool { (c: Card) => c.messageId != messageId }

  function WithCards(s: State, cards: seq<Card>): State {
    s.(cards := cards, cardIdSet := BuildIdSet(cards))
  }

  /** An optimistic change remembers the cards it replaces. */
  function ChangeCards(s: State, cards: seq<Card>): State {
    WithCards(s, cards).(changes := s.changes[s.nextChange := s.cards], nextChange := s.nextChange + 1)
  }

  /** The notes a landing fetch leaves as they are. */
  function ToPreserve(s: State, f: Fetch): set<string> {
    f.pendingAtStart + s.latestGeneration.Keys
    + set m | m in s.mutationGeneration && s.mutationGeneration[m] > f.noteGenerationAtStart
  }

  function MergeNotes(reply: Notes, shown: Notes, preserve: set<string>): Notes {
    map m | m in reply.Keys + shown.Keys && (if m in preserve then m in shown else m in reply) ::
      if m in preserve then shown[m] else reply[m]
  }

  /** A fetch lands with these cards and merged notes. */
  function Landed(s: State, cards: seq<Card>, merged: Notes, g: nat): State {
    WithCards(s, cards).(notes := merged, loading := false, fetches := s.fetches - {g})
  }

  /** Fetching the board. Events that cannot happen in a state change nothing. */
  function FetchStep(s: State, e: Event): State {
    match e
    case FetchStarts =>
      var g := s.nextFetchGeneration + 1;
      s.(nextFetchGeneration := g, latestFetch := g, loading := true,
         fetches := s.fetches[g := Fetch(s.nextNoteGeneration, s.latestGeneration.Keys)])
    case FetchReplies(g, cards, notes) =>
      if g !in s.fetches then s
      else if s.latestFetch != g then s.(fetches := s.fetches - {g})
      else
        Landed(s, cards, MergeNotes(notes, s.notes, ToPreserve(s, s.fetches[g])), g)
    case FetchFails(g) =>
      if g !in s.fetches then s
      else s.(fetches := s.fetches - {g}, loading := s.loading && s.latestFetch != g)
    case _ => s
  }

  /** Changing cards. */
  function CardStep(s: State, e: Event): State {
    match e
    case MoveCard(m, column, position) => ChangeCards(s, Moved(s.cards, m, column, position))
    case RemoveCard(m) => ChangeCards(s, Keep(s.cards, Other(m)))
    case ReorderColumn(column, orderedIds) =>
      ChangeCards(s, Keep(s.cards, Elsewhere(column)) + Reordered(s.cards, orderedIds))
    case ChangeReplies(c) => s.(changes := s.changes - {c})
    case ChangeFails(c) =>
      if c in s.changes then WithCards(s, s.changes[c]).(changes := s.changes - {c}) else s
    case _ => s
  }

  /** Editing notes. */
  function NoteStep(s: State, e: Event): State {
    match e
    case EditStarts(m, note) =>
      var g := s.nextNoteGeneration + 1;
      s.(nextNoteGeneration := g, latestGeneration := s.latestGeneration[m := g],
         mutationGeneration := s.mutationGeneration[m := g],
         notes := WithNote(s.notes, m, Text(note)),
         edits := s.edits[g := Edit(m, note, Shown(s.notes, m))])
    case EditReplies(g, saved) =>
      if g in s.edits then SettleEdit(s, g, Shown(saved, s.edits[g].messageId)) else s
    case EditFails(g) =>
      if g in s.edits then SettleEdit(s, g, s.edits[g].previous) else s
    case _ => s
  }

  predicate IsFetch(e: Event) { e.FetchStarts? || e.FetchReplies? || e.FetchFails? }

  predicate IsNote(e: Event) { e.EditStarts? || e.EditReplies? || e.EditFails? }

  function Step(s: State, e: Event): State {
    if IsFetch(e) then FetchStep(s, e) else if IsNote(e) then NoteStep(s, e) else CardStep(s, e)
  }

  predicate IsLatest(s: State, g: nat) {
    g in s.edits && s.edits[g].messageId in s.latestGeneration && s.latestGeneration[s.edits[g].messageId] == g
  }

  /** An edit that is still the latest of its note decides what is shown. */
  function SettleEdit(s: State, g: nat, value: Option<string>): State
    requires g in s.edits
  {
    var done := s.(edits := s.edits - {g});
    if IsLatest(s, g)
    then done.(notes := WithNote(s.notes, s.edits[g].messageId, value),
               latestGeneration := s.latestGeneration - {s.edits[g].messageId})
    else done
  }

  ghost predicate Steps(states: seq<State>, events: seq<Event>, i: nat)
    requires i + 1 < |states| && i < |events|
  {
    states[i + 1] == Step(states[i], events[i])
  }

  /** The states of a run, from the initial one: each event leads from one to the next. */
  ghost predicate IsRun(states: seq<State>, events: seq<Event>) {
    && |states| == |events| + 1 && states[0] == Initial()
    && forall i :: 0 <= i < |events| ==> Steps(states, events, i)
  }

  /** The parts of a state that card changes do not touch. */
  ghost predicate SameNotes(s: State, r: State) {
    && r.notes == s.notes && r.edits == s.edits && r.nextNoteGeneration == s.nextNoteGeneration
    && r.latestGeneration == s.latestGeneration && r.mutationGeneration == s.mutationGeneration
    && r.loading == s.loading && r.fetches == s.fetches
    && r.nextFetchGeneration == s.nextFetchGeneration && r.latestFetch == s.latestFetch
  }

  lemma ChangeFrame(s: State, cards: seq<Card>)
    ensures SameNotes(s, ChangeCards(s, cards)) && SameNotes(s, WithCards(s, cards))
  {
  }

  lemma CardStepFrame(s: State, e: Event)
    ensures SameNotes(s, CardStep(s, e))
  {
    match e {
      case MoveCard(m, column, position) => ChangeFrame(s, Moved(s.cards, m, column, position));
      case RemoveCard(m) => ChangeFrame(s, Keep(s.cards, Other(m)));
      case ReorderColumn(column, orderedIds) =>
        ChangeFrame(s, Keep(s.cards, Elsewhere(column)) + Reordered(s.cards, orderedIds));
      case ChangeFails(c) => if c in s.changes { ChangeFrame(s, s.changes[c]); }
      case _ =>
    }
  }

  /** The parts of a state that edits of notes do not touch. */
  ghost predicate SameBoard(s: State, r: State) {
    && r.cards == s.cards && r.cardIdSet == s.cardIdSet && r.changes == s.changes && r.nextChange == s.nextChange
    && r.loading == s.loading && r.fetches == s.fetches
    && r.nextFetchGeneration == s.nextFetchGeneration && r.latestFetch == s.latestFetch
  }

  lemma SettleFrame(s: State, g: nat, value: Option<string>)
    requires g in s.edits
    ensures SameBoard(s, SettleEdit(s, g, value))
    ensures var r := SettleEdit(s, g, value);
            && r.edits == s.edits - {g} && r.nextNoteGeneration == s.nextNoteGeneration
            && r.mutationGeneration == s.mutationGeneration
  {
  }

  lemma NoteStepFrame(s: State, e: Event)
    ensures SameBoard(s, NoteStep(s, e))
  {
    match e {
      case EditReplies(g, saved) =>
        if g in s.edits { SettleFrame(s, g, Shown(saved, s.edits[g].messageId)); }
      case EditFails(g) =>
        if g in s.edits { SettleFrame(s, g, s.edits[g].previous); }
      case _ =>
    }
  }

  /** The parts of a state that fetches do not touch. */
  ghost predicate SameEdits(s: State, r: State) {
    && r.changes == s.changes && r.nextChange == s.nextChange && r.edits == s.edits
    && r.nextNoteGeneration == s.nextNoteGeneration && r.latestGeneration == s.latestGeneration
    && r.mutationGeneration == s.mutationGeneration
  }

  lemma LandedFrame(s: State, cards: seq<Card>, merged: Notes, g: nat)
    ensures SameEdits(s, Landed(s, cards, merged, g))
  {
  }

  lemma FetchStepFrame(s: State, e: Event)
    ensures SameEdits(s, FetchStep(s, e))
  {
    match e {
      case FetchReplies(g, cards, notes) =>
        if g in s.fetches && s.latestFetch == g {
          LandedFrame(s, cards, MergeNotes(notes, s.notes, ToPreserve(s, s.fetches[g])), g);
        }
      case _ =>
    }
  }

  // ---------------------------------------------------------------- the invariant

  /** A pending note shows exactly the text of its latest edit, which is in flight. */
  ghost predicate PendingShown(s: State, m: string) {
    m in s.latestGeneration ==>
      var g := s.latestGeneration[m];
      g in s.edits && s.edits[g].messageId == m && Shown(s.notes, m) == Text(s.edits[g].note)
  }

  ghost predicate GenerationOk(s: State, m: string) {
    && (m in s.latestGeneration ==>
          s.latestGeneration[m] <= s.nextNoteGeneration
          && m in s.mutationGeneration && s.mutationGeneration[m] == s.latestGeneration[m])
    && (m in s.mutationGeneration ==> s.mutationGeneration[m] <= s.nextNoteGeneration)
  }

  /** The id set is the cards' ids, and the loading flag says whether the latest fetch is in flight. */
  ghost predicate BoardOk(s: State) {
    && s.cardIdSet == BuildIdSet(s.cards)
    && (s.loading <==> s.latestFetch in s.fetches)
    && s.latestFetch == s.nextFetchGeneration
    && (forall g :: g in s.fetches ==> g <= s.nextFetchGeneration)
    && (forall c :: c in s.changes ==> c < s.nextChange)
  }

  ghost predicate EditsNumbered(s: State) {
    forall g :: g in s.edits ==> g <= s.nextNoteGeneration
  }

  ghost predicate Inv(s: State) {
    BoardOk(s) && EditsNumbered(s) && (forall m :: PendingShown(s, m)) && (forall m :: GenerationOk(s, m))
  }

  lemma MergedNote(reply: Notes, shown: Notes, preserve: set<string>, m: string)
    ensures Shown(MergeNotes(reply, shown, preserve), m)
            == if m in preserve then Shown(shown, m) else Shown(reply, m)
  {
  }

  lemma StepKeepsBoard(s: State, e: Event)
    requires BoardOk(s)
    ensures BoardOk(Step(s, e))
  {
    if IsNote(e) {
      NoteStepFrame(s, e);
    } else if !IsFetch(e) {
      CardStepKeepsBoard(s, e);
    }
  }

  lemma CardStepKeepsBoard(s: State, e: Event)
    requires BoardOk(s)
    ensures BoardOk(CardStep(s, e))
  {
    CardStepFrame(s, e);
  }

  lemma SettleKeepsNote(s: State, g: nat, value: Option<string>, m: string)
    requires g in s.edits && PendingShown(s, m) && GenerationOk(s, m)
    ensures PendingShown(SettleEdit(s, g, value), m) && GenerationOk(SettleEdit(s, g, value), m)
  {
  }

  lemma StepKeepsNote(s: State, e: Event, m: string)
    requires PendingShown(s, m) && GenerationOk(s, m) && EditsNumbered(s)
    ensures PendingShown(Step(s, e), m) && GenerationOk(Step(s, e), m)
  {
    if IsFetch(e) {
      FetchStepFrame(s, e);
      if e.FetchReplies? && e.generation in s.fetches {
        MergedNote(e.notes, s.notes, ToPreserve(s, s.fetches[e.generation]), m);
      }
    } else if e.EditReplies? && e.generation in s.edits {
      SettleKeepsNote(s, e.generation, Shown(e.saved, s.edits[e.generation].messageId), m);
    } else if e.EditFails? && e.generation in s.edits {
      SettleKeepsNote(s, e.generation, s.edits[e.generation].previous, m);
    } else if !IsNote(e) {
      CardStepFrame(s, e);
    }
  }

  lemma StepKeepsNumbers(s: State, e: Event)
    requires EditsNumbered(s)
    ensures EditsNumbered(Step(s, e))
  {
    if IsFetch(e) {
      FetchStepFrame(s, e);
    } else if !IsNote(e) {
      CardStepFrame(s, e);
    }
  }

  lemma StepKeepsInv(s: State, e: Event)
    requires Inv(s)
    ensures Inv(Step(s, e))
  {
    StepKeepsBoard(s, e);
    StepKeepsNumbers(s, e);
    var r := Step(s, e);
    forall m ensures PendingShown(r, m) && GenerationOk(r, m) {
      assert PendingShown(s, m) && GenerationOk(s, m);
      StepKeepsNote(s, e, m);
    }
  }

  lemma {:induction false} InvInEveryRun(states: seq<State>, events: seq<Event>, n: nat)
    requires IsRun(states, events) && n < |states|
    ensures Inv(states[n])
  {
    if n == 0 {
    } else {
      InvInEveryRun(states, events, n - 1);
      assert Steps(states, events, n - 1);
      StepKeepsInv(states[n - 1], events[n - 1]);
    }
  }

  // ---------------------------------------------------------------- main results

  /** In every run: while the latest edit of a note is pending the note shows exactly its
      text, the id set is the ids of the cards, and the board is loading exactly while
      its latest fetch is in flight. */
  lemma PendingEditIsShown(states: seq<State>, events: seq<Event>, n: nat, m: string)
    requires IsRun(states, events) && n < |states|
    ensures var s := states[n];
            && (m in s.latestGeneration ==>
                  IsLatest(s, s.latestGeneration[m])
                  && Shown(s.notes, m) == Text(s.edits[s.latestGeneration[m]].note))
            && s.cardIdSet == (set c | c in s.cards :: c.messageId)
            && (s.loading <==> s.latestFetch in s.fetches)
  {
    InvInEveryRun(states, events, n);
    var s := states[n];
    assert PendingShown(s, m);
    var ids := set c | c in s.cards :: c.messageId;
    assert forall i :: 0 <= i < |s.cards| ==> s.cards[i] in s.cards;
    assert s.cardIdSet == ids;
  }

  /** The reply or failure of a superseded edit or fetch changes nothing but the list of
      requests in flight. */
  lemma SupersededChangesNothing(s: State, e: Event)
    requires match e
             case EditReplies(g, _) => !IsLatest(s, g)
             case EditFails(g) => !IsLatest(s, g)
             case FetchReplies(g, _, _) => g != s.latestFetch
             case FetchFails(g) => g != s.latestFetch
             case _ => false
    ensures Step(s, e) == s.(edits := Step(s, e).edits, fetches := Step(s, e).fetches)
  {
    match e {
      case EditReplies(_, _) =>
      case EditFails(_) =>
      case _ =>
    }
  }

  predicate Editing(e: Event, m: string) { e.EditStarts? && e.messageId == m }

  /** Generations only grow, and an edit issued in between is remembered. */
  lemma {:induction false} EditRemembered(states: seq<State>, events: seq<Event>, i: nat, n: nat, m: string)
    requires IsRun(states, events) && i <= n <= |events|
    ensures states[i].nextNoteGeneration <= states[n].nextNoteGeneration
    ensures m in states[n].mutationGeneration
            && states[n].mutationGeneration[m] > states[i].nextNoteGeneration
            <==> (exists k :: i <= k < n && Editing(events[k], m))
  {
    if i == n {
      InvInEveryRun(states, events, i);
      assert GenerationOk(states[i], m);
    } else {
      EditRemembered(states, events, i, n - 1, m);
      assert Steps(states, events, n - 1);
      EditStep(states[n - 1], events[n - 1], m);
    }
  }

  lemma EditStep(s: State, e: Event, m: string)
    ensures s.nextNoteGeneration <= Step(s, e).nextNoteGeneration
    ensures Generation(Step(s, e).mutationGeneration, m)
            == if Editing(e, m) then Some(s.nextNoteGeneration + 1) else Generation(s.mutationGeneration, m)
  {
    if IsFetch(e) {
      FetchStepFrame(s, e);
    } else if !IsNote(e) {
      CardStepFrame(s, e);
    }
  }

  function Generation(m: map<string, nat>, key: string): Option<nat> {
    if key in m then Some(m[key]) else None
  }

  /** A fetch in flight is as it was when it started. */
  lemma {:induction false} FetchRemembered(states: seq<State>, events: seq<Event>, i: nat, n: nat)
    requires IsRun(states, events) && i < n <= |events| && events[i].FetchStarts?
    ensures var g := states[i + 1].latestFetch;
            && g <= states[n].nextFetchGeneration
            && (g in states[n].fetches ==>
                  states[n].fetches[g] == Fetch(states[i].nextNoteGeneration, states[i].latestGeneration.Keys))
    decreases n
  {
    assert Steps(states, events, n - 1);
    if i < n - 1 {
      FetchRemembered(states, events, i, n - 1);
      FetchKept(states[n - 1], events[n - 1], states[i + 1].latestFetch);
    }
  }

  /** Fetch `g` is, if still in flight, as it was, and generations have not gone back. */
  ghost predicate KeepsFetch(s: State, r: State, g: nat) {
    && (g in r.fetches ==> g in s.fetches && r.fetches[g] == s.fetches[g])
    && s.nextFetchGeneration <= r.nextFetchGeneration
  }

  lemma LandedKeepsFetch(s: State, cards: seq<Card>, merged: Notes, landing: nat, g: nat)
    ensures KeepsFetch(s, Landed(s, cards, merged, landing), g)
  {
  }

  lemma FetchKept(s: State, e: Event, g: nat)
    requires g <= s.nextFetchGeneration
    ensures KeepsFetch(s, Step(s, e), g)
  {
    if IsNote(e) {
      NoteStepFrame(s, e);
    } else if !IsFetch(e) {
      CardStepFrame(s, e);
    } else if e.FetchReplies? && e.generation in s.fetches && s.latestFetch == e.generation {
      LandedKeepsFetch(s, e.cards, MergeNotes(e.notes, s.notes, ToPreserve(s, s.fetches[e.generation])),
                       e.generation, g);
    }
  }

  /** What a landing fetch shows of a note: the note as it was if an edit of it was pending
      when the fetch started, is pending now, or was issued in between; the fetched note
      otherwise. */
  lemma LandingFetch(states: seq<State>, events: seq<Event>, i: nat, j: nat, m: string)
    requires IsRun(states, events) && i < j < |events| && events[i].FetchStarts? && events[j].FetchReplies?
    requires events[j].generation == states[i + 1].latestFetch
    requires events[j].generation in states[j].fetches && states[j].latestFetch == events[j].generation
    ensures var untouched := || m in states[i].latestGeneration
                             || m in states[j].latestGeneration
                             || exists k :: i <= k < j && Editing(events[k], m);
            Shown(states[j + 1].notes, m)
            == if untouched then Shown(states[j].notes, m) else Shown(events[j].notes, m)
  {
    assert Steps(states, events, j);
    FetchRemembered(states, events, i, j);
    EditRemembered(states, events, i, j, m);
    var s := states[j];
    MergedNote(events[j].notes, s.notes, ToPreserve(s, s.fetches[events[j].generation]), m);
  }

  // ---------------------------------------------------------------- rollback of notes

  /** What a note showed when it last had no edit pending. */
  ghost function SettledNote(states: seq<State>, n: nat, m: string): Option<string>
    requires n < |states|
  {
    if n == 0 || m !in states[n].latestGeneration then Shown(states[n].notes, m)
    else SettledNote(states, n - 1, m)
  }

  lemma LatestStep(s: State, e: Event, m: string, g: nat)
    requires g <= s.nextNoteGeneration && Generation(Step(s, e).latestGeneration, m) == Some(g)
    ensures Generation(s.latestGeneration, m) == Some(g)
  {
    if IsFetch(e) {
      FetchStepFrame(s, e);
    } else if !IsNote(e) {
      CardStepFrame(s, e);
    }
  }

  lemma EditKept(s: State, e: Event, g: nat)
    requires g <= s.nextNoteGeneration && g in Step(s, e).edits
    ensures g in s.edits && Step(s, e).edits[g] == s.edits[g]
  {
    if IsFetch(e) {
      FetchStepFrame(s, e);
    } else if e.EditReplies? && e.generation in s.edits {
      SettleFrame(s, e.generation, Shown(e.saved, s.edits[e.generation].messageId));
    } else if e.EditFails? && e.generation in s.edits {
      SettleFrame(s, e.generation, s.edits[e.generation].previous);
    } else if !IsNote(e) {
      CardStepFrame(s, e);
    }
  }

  /** The edit is in flight as it was issued. */
  ghost predicate InFlightAs(s: State, g: nat, edit: Edit) {
    g in s.edits && s.edits[g] == edit
  }

  lemma EditIssued(s: State, m: string, note: string)
    ensures InFlightAs(Step(s, EditStarts(m, note)), s.nextNoteGeneration + 1, Edit(m, note, Shown(s.notes, m)))
    ensures Step(s, EditStarts(m, note)).nextNoteGeneration == s.nextNoteGeneration + 1
  {
  }

  /** While an edit stays the latest of its note, the note's settled value does not change
      and the edit is as it was issued. */
  lemma {:induction false} PendingSince(states: seq<State>, events: seq<Event>, i: nat, n: nat)
    requires IsRun(states, events) && i < n <= |events| && events[i].EditStarts?
    requires Generation(states[n].latestGeneration, events[i].messageId) == Some(states[i].nextNoteGeneration + 1)
    ensures InFlightAs(states[n], states[i].nextNoteGeneration + 1,
                       Edit(events[i].messageId, events[i].note, Shown(states[i].notes, events[i].messageId)))
    ensures SettledNote(states, n, events[i].messageId) == SettledNote(states, i, events[i].messageId)
    decreases n
  {
    var m, g := events[i].messageId, states[i].nextNoteGeneration + 1;
    assert Steps(states, events, i);
    EditIssued(states[i], m, events[i].note);
    if i < n - 1 {
      assert Steps(states, events, n - 1);
      EditRemembered(states, events, i + 1, n - 1, m);
      LatestStep(states[n - 1], events[n - 1], m, g);
      PendingSince(states, events, i, n - 1);
      LatestInFlight(states, events, n, m);
      EditKept(states[n - 1], events[n - 1], g);
    }
  }

  lemma LatestInFlight(states: seq<State>, events: seq<Event>, n: nat, m: string)
    requires IsRun(states, events) && n < |states| && m in states[n].latestGeneration
    ensures states[n].latestGeneration[m] in states[n].edits
  {
    InvInEveryRun(states, events, n);
    assert PendingShown(states[n], m);
  }

  /** The text of the note's pending edit. */
  ghost function PendingText(s: State, m: string): Option<string> {
    if m in s.latestGeneration && s.latestGeneration[m] in s.edits
    then Text(s.edits[s.latestGeneration[m]].note) else None
  }

  /** When the latest edit of a note fails, the note shows again what it showed when the
      edit was issued. That is the note's settled value if and only if no edit of it was
      pending then, or the text of that pending edit happened to be the settled value. */
  lemma FailedEditRestoresIff(states: seq<State>, events: seq<Event>, i: nat, n: nat)
    requires IsRun(states, events) && i < n <= |events| && events[i].EditStarts?
    requires Generation(states[n].latestGeneration, events[i].messageId) == Some(states[i].nextNoteGeneration + 1)
    ensures var m, issue := events[i].messageId, states[i];
            var r := Step(states[n], EditFails(issue.nextNoteGeneration + 1));
            && Shown(r.notes, m) == Shown(issue.notes, m) && m !in r.latestGeneration
            && (Shown(r.notes, m) == SettledNote(states, n, m) <==>
                  m !in issue.latestGeneration || PendingText(issue, m) == SettledNote(states, i, m))
  {
    var m, issue := events[i].messageId, states[i];
    PendingSince(states, events, i, n);
    InvInEveryRun(states, events, i);
    assert PendingShown(issue, m);
  }

  /** Two overlapping edits that both fail leave the text of the first, which was never saved. */
  lemma OverlappingFailures(states: seq<State>, m: string, first: string, second: string)
    requires IsRun(states, [EditStarts(m, first), EditStarts(m, second), EditFails(1), EditFails(2)]) && first != ""
    ensures Shown(states[0].notes, m) == None
    ensures states[4].edits == map[] && Shown(states[4].notes, m) == Some(first)
  {
    var events := [EditStarts(m, first), EditStarts(m, second), EditFails(1), EditFails(2)];
    assert Steps(states, events, 0) && Steps(states, events, 1) && Steps(states, events, 2) && Steps(states, events, 3);
    TwoEdits(m, first, second);
    BothFail(states[2], m, first, second);
  }

  lemma TwoEdits(m: string, first: string, second: string)
    requires first != ""
    ensures var s := NoteStep(NoteStep(Initial(), EditStarts(m, first)), EditStarts(m, second));
            && s.edits == map[1 := Edit(m, first, None), 2 := Edit(m, second, Some(first))]
            && s.latestGeneration == map[m := 2]
  {
  }

  lemma BothFail(s: State, m: string, first: string, second: string)
    requires s.edits == map[1 := Edit(m, first, None), 2 := Edit(m, second, Some(first))]
    requires s.latestGeneration == map[m := 2]
    ensures var r := NoteStep(NoteStep(s, EditFails(1)), EditFails(2));
            r.edits == map[] && Shown(r.notes, m) == Some(first)
  {
    assert !IsLatest(s, 1);
    var one := NoteStep(s, EditFails(1));
    assert one == s.(edits := map[2 := Edit(m, second, Some(first))]);
    assert IsLatest(one, 2);
  }

  // ---------------------------------------------------------------- what edits and fetches show

  /** Another note, and the edits pending on it, are as they were. */
  ghost predicate LeavesNote(s: State, r: State, x: string) {
    Shown(r.notes, x) == Shown(s.notes, x) && Generation(r.latestGeneration, x) == Generation(s.latestGeneration, x)
  }

  /** An edit shows its text at once, and no other note changes. */
  lemma EditShows(s: State, m: string, note: string)
    ensures var r := Step(s, EditStarts(m, note));
            && (if note == "" then m !in r.notes else m in r.notes && r.notes[m] == note)
            && Generation(r.latestGeneration, m) == Some(s.nextNoteGeneration + 1)
            && forall x :: x != m ==> LeavesNote(s, r, x)
  {
    forall x | x != m ensures LeavesNote(s, Step(s, EditStarts(m, note)), x) {}
  }

  /** In every run: when the latest edit of a note is saved, the note shows exactly what the
      reply says it is, or none if the reply lacks it. That ends the pending edit and changes
      no other note. */
  lemma SavedEditShowsReply(states: seq<State>, events: seq<Event>, i: nat, n: nat, saved: Notes)
    requires IsRun(states, events) && i < n <= |events| && events[i].EditStarts?
    requires Generation(states[n].latestGeneration, events[i].messageId) == Some(states[i].nextNoteGeneration + 1)
    ensures var m, g := events[i].messageId, states[i].nextNoteGeneration + 1;
            var r := Step(states[n], EditReplies(g, saved));
            && (if m in saved then m in r.notes && r.notes[m] == saved[m] else m !in r.notes)
            && m !in r.latestGeneration && g !in r.edits
            && SameBoard(states[n], r)
            && forall x :: x != m ==> LeavesNote(states[n], r, x)
  {
    var m, g := events[i].messageId, states[i].nextNoteGeneration + 1;
    PendingSince(states, events, i, n);
    SettledNoteShown(states[n], g, m, Shown(saved, m));
    SettleFrame(states[n], g, Shown(saved, m));
  }

  /** Likewise a failing edit changes no other note. */
  lemma FailedEditLeavesOthers(states: seq<State>, events: seq<Event>, i: nat, n: nat, x: string)
    requires IsRun(states, events) && i < n <= |events| && events[i].EditStarts? && x != events[i].messageId
    requires Generation(states[n].latestGeneration, events[i].messageId) == Some(states[i].nextNoteGeneration + 1)
    ensures LeavesNote(states[n], Step(states[n], EditFails(states[i].nextNoteGeneration + 1)), x)
  {
    var m, g := events[i].messageId, states[i].nextNoteGeneration + 1;
    PendingSince(states, events, i, n);
    SettledNoteShown(states[n], g, m, states[n].edits[g].previous);
  }

  lemma SettledNoteShown(s: State, g: nat, m: string, value: Option<string>)
    requires g in s.edits && s.edits[g].messageId == m && Generation(s.latestGeneration, m) == Some(g)
    ensures var r := SettleEdit(s, g, value);
            && Shown(r.notes, m) == value && m !in r.latestGeneration
            && forall x :: x != m ==> LeavesNote(s, r, x)
  {
    var r := SettleEdit(s, g, value);
    assert IsLatest(s, g);
    forall x | x != m ensures LeavesNote(s, r, x) {}
  }

  /** In every run: the reply of the latest fetch puts the fetched cards on the board, its
      failure leaves the board and the notes, and either ends the loading. */
  lemma FetchEnds(states: seq<State>, events: seq<Event>, n: nat, cards: seq<Card>, notes: Notes)
    requires IsRun(states, events) && n < |states| && states[n].loading
    ensures var s := states[n];
            var landed := Step(s, FetchReplies(s.latestFetch, cards, notes));
            var failed := Step(s, FetchFails(s.latestFetch));
            && landed.cards == cards && landed.cardIdSet == BuildIdSet(cards) && !landed.loading
            && failed.cards == s.cards && failed.notes == s.notes && !failed.loading
  {
    InvInEveryRun(states, events, n);
  }

  // ---------------------------------------------------------------- what card changes show

  /** A move gives the card its column and position and touches no other. */
  lemma MoveShows(s: State, m: string, column: string, position: int)
    ensures var r := Step(s, MoveCard(m, column, position));
            && |r.cards| == |s.cards| && r.cardIdSet == BuildIdSet(s.cards)
            && forall i :: 0 <= i < |s.cards| ==>
                 r.cards[i] == if s.cards[i].messageId == m then Card(m, column, position) else s.cards[i]
  {
    var r := Step(s, MoveCard(m, column, position));
    assert forall i :: 0 <= i < |s.cards| ==> r.cards[i].messageId == s.cards[i].messageId;
  }

  /** A removal takes exactly the card's entries off the board, and a saved change keeps it. */
  lemma RemoveShows(s: State, m: string, change: nat)
    ensures forall c :: c in Step(s, RemoveCard(m)).cards <==> c in s.cards && c.messageId != m
    ensures var r := Step(s, ChangeReplies(change));
            r.cards == s.cards && r.cardIdSet == s.cardIdSet && r.changes == s.changes - {change}
  {
  }

  lemma {:induction false} FoundCard(cards: seq<Card>, m: string)
    ensures var found := FindCard(cards, m);
            && (found.Some? <==> exists c :: c in cards && c.messageId == m)
            && (found.Some? ==> found.value in cards && found.value.messageId == m)
  {
    if cards == [] {
    } else {
      FoundCard(cards[1..], m);
      assert cards == [cards[0]] + cards[1..];
    }
  }

  /** The reordered cards are the listed ones that exist, each at its index in the list. */
  lemma {:induction false} ReorderedCards(cards: seq<Card>, orderedIds: seq<string>)
    ensures forall c :: c in Reordered(cards, orderedIds) <==>
              exists k :: 0 <= k < |orderedIds| && Replaced(cards, orderedIds[k], k, c)
    ensures (forall k :: 0 <= k < |orderedIds| ==> FindCard(cards, orderedIds[k]).Some?) ==>
              && |Reordered(cards, orderedIds)| == |orderedIds|
              && forall k :: 0 <= k < |orderedIds| ==>
                   Replaced(cards, orderedIds[k], k, Reordered(cards, orderedIds)[k])
  {
    if orderedIds == [] {
    } else {
      var n := |orderedIds| - 1;
      var before, all := Reordered(cards, orderedIds[..n]), Reordered(cards, orderedIds);
      ReorderedCards(cards, orderedIds[..n]);
      assert forall k :: 0 <= k < n ==> orderedIds[..n][k] == orderedIds[k];
      forall c ensures c in all <==> exists k :: 0 <= k < |orderedIds| && Replaced(cards, orderedIds[k], k, c) {
        assert c in all <==> c in before || Replaced(cards, orderedIds[n], n, c);
        if c in before {
          var k :| 0 <= k < n && Replaced(cards, orderedIds[..n][k], k, c);
          assert Replaced(cards, orderedIds[k], k, c);
        }
        if k :| 0 <= k < n && Replaced(cards, orderedIds[k], k, c) {
          assert Replaced(cards, orderedIds[..n][k], k, c);
        }
      }
    }
  }

  /** `c` is the first card with the id, put at position `k` of its column. */
  ghost predicate Replaced(cards: seq<Card>, id: string, k: int, c: Card) {
    FindCard(cards, id).Some? && c == FindCard(cards, id).value.(position := k)
  }

  /** `c` is a card of the board with this id, in its column, at position `k`. */
  ghost predicate PlacedAt(cards: seq<Card>, id: string, k: int, c: Card) {
    c.messageId == id && c.position == k && exists d :: d in cards && d.messageId == id && d.column == c.column
  }

  lemma ReplacedIsPlaced(cards: seq<Card>, id: string, k: int, c: Card)
    requires Replaced(cards, id, k, c)
    ensures PlacedAt(cards, id, k, c)
  {
    FoundCard(cards, id);
    var found := FindCard(cards, id).value;
    assert found in cards && found.messageId == id && found.column == c.column;
  }

  /** A reordering of cards that all exist: the cards of other columns stay as they are, in
      their order, and after them come the listed ones, in the order of the list, each in its
      column at its index. */
  lemma ReorderShows(s: State, column: string, orderedIds: seq<string>)
    requires forall id :: id in orderedIds ==> OnBoard(s.cards, id)
    ensures var r := Step(s, ReorderColumn(column, orderedIds));
            var rest := Keep(s.cards, Elsewhere(column));
            && |r.cards| == |rest| + |orderedIds| && r.cards[..|rest|] == rest
            && forall k :: 0 <= k < |orderedIds| ==> PlacedAt(s.cards, orderedIds[k], k, r.cards[|rest| + k])
  {
    var rest, listed := Keep(s.cards, Elsewhere(column)), Reordered(s.cards, orderedIds);
    forall k | 0 <= k < |orderedIds| ensures FindCard(s.cards, orderedIds[k]).Some? {
      assert orderedIds[k] in orderedIds;
      FoundCard(s.cards, orderedIds[k]);
    }
    ReorderedCards(s.cards, orderedIds);
    forall k | 0 <= k < |orderedIds| ensures PlacedAt(s.cards, orderedIds[k], k, (rest + listed)[|rest| + k]) {
      ReplacedIsPlaced(s.cards, orderedIds[k], k, listed[k]);
    }
    ReorderedBoard(s, column, orderedIds);
  }

  lemma ReorderedBoard(s: State, column: string, orderedIds: seq<string>)
    ensures Step(s, ReorderColumn(column, orderedIds)).cards
            == Keep(s.cards, Elsewhere(column)) + Reordered(s.cards, orderedIds)
  {
  }

  ghost predicate OnBoard(cards: seq<Card>, m: string) { exists c :: c in cards && c.messageId == m }

  /** A reordering keeps a message on the board if and only if it is listed, or has a card in
      another column: a card of the column that the list leaves out goes away. */
  lemma ReorderKeepsIff(s: State, column: string, orderedIds: seq<string>, m: string)
    requires OnBoard(s.cards, m)
    ensures OnBoard(Step(s, ReorderColumn(column, orderedIds)).cards, m) <==>
              m in orderedIds || exists c :: c in s.cards && c.messageId == m && c.column != column
  {
    var rest, listed := Keep(s.cards, Elsewhere(column)), Reordered(s.cards, orderedIds);
    ReorderedBoard(s, column, orderedIds);
    ReorderedCards(s.cards, orderedIds);
    FoundCard(s.cards, m);
    if m in orderedIds {
      var k :| 0 <= k < |orderedIds| && orderedIds[k] == m;
      var c := FindCard(s.cards, m).value.(position := k);
      assert Replaced(s.cards, orderedIds[k], k, c) && c in rest + listed;
    }
    if c :| c in s.cards && c.messageId == m && c.column != column { assert c in rest && c in rest + listed; }
    if c: Card :| c in rest + listed && c.messageId == m {
      if c in listed {
        var k :| 0 <= k < |orderedIds| && Replaced(s.cards, orderedIds[k], k, c);
        FoundCard(s.cards, orderedIds[k]);
      }
    }
  }

  // ---------------------------------------------------------------- rollback of cards

  predicate ChangesCards(e: Event) { e.MoveCard? || e.RemoveCard? || e.ReorderColumn? }

  lemma ChangeKept(s: State, e: Event, c: nat)
    requires c < s.nextChange
    ensures c in Step(s, e).changes ==> c in s.changes && Step(s, e).changes[c] == s.changes[c]
    ensures s.nextChange <= Step(s, e).nextChange
  {
    if IsNote(e) {
      NoteStepFrame(s, e);
    } else if IsFetch(e) {
      FetchStepFrame(s, e);
    }
  }

  lemma {:induction false} ChangeRemembered(states: seq<State>, events: seq<Event>, i: nat, n: nat)
    requires IsRun(states, events) && i < n <= |events| && ChangesCards(events[i])
    ensures var c := states[i].nextChange;
            && c < states[n].nextChange
            && (c in states[n].changes ==> states[n].changes[c] == states[i].cards)
    decreases n
  {
    assert Steps(states, events, n - 1);
    if i < n - 1 {
      ChangeRemembered(states, events, i, n - 1);
      ChangeKept(states[n - 1], events[n - 1], states[i].nextChange);
    }
  }

  /** A card change that fails puts back the whole board from before it, and with it undoes
      every change and every fetched board that came in between. */
  lemma FailedChangeRestoresBoard(states: seq<State>, events: seq<Event>, i: nat, n: nat)
    requires IsRun(states, events) && i < n <= |events| && ChangesCards(events[i])
    requires states[i].nextChange in states[n].changes
    ensures var r := Step(states[n], ChangeFails(states[i].nextChange));
            r.cards == states[i].cards && r.cardIdSet == states[i].cardIdSet
  {
    ChangeRemembered(states, events, i, n);
    InvInEveryRun(states, events, i);
  }

  /** The events that put another board in place. */
  predicate ReplacesBoard(s: State, e: Event) {
    || ChangesCards(e)
    || (e.ChangeFails? && e.change in s.changes)
    || (e.FetchReplies? && e.generation in s.fetches && e.generation == s.latestFetch)
  }

  lemma OthersKeepBoard(s: State, e: Event)
    requires !ReplacesBoard(s, e)
    ensures Step(s, e).cards == s.cards
  {
    if IsNote(e) { NoteStepFrame(s, e); }
  }

  ghost predicate QuietBoard(states: seq<State>, events: seq<Event>, i: nat, n: nat)
    requires |states| == |events| + 1 && n <= |events|
  {
    forall k :: i < k < n ==> !ReplacesBoard(states[k], events[k])
  }

  lemma {:induction false} QuietBoardStays(states: seq<State>, events: seq<Event>, i: nat, n: nat)
    requires IsRun(states, events) && i < n <= |events| && QuietBoard(states, events, i, n)
    ensures states[n].cards == states[i + 1].cards
    decreases n
  {
    if n == i + 1 {
    } else {
      QuietBoardStays(states, events, i, n - 1);
      assert Steps(states, events, n - 1);
      OthersKeepBoard(states[n - 1], events[n - 1]);
    }
  }

  lemma SameChangeSameCards(s: State, r: State, e: Event)
    requires s.cards == r.cards && ChangesCards(e)
    ensures Step(s, e).cards == Step(r, e).cards
  {
  }

  /** A failing change undoes nothing but itself, so that making it again would give back
      the board as it was, if and only if the board was still the one the change had made:
      with the board restored to the one before the change, which is FailedChangeRestoresBoard,
      both sides are one equality. It holds if no change, no other failure and no landing
      fetch came in between. */
  lemma FailureUndoesOnlyItselfIff(states: seq<State>, events: seq<Event>, i: nat, n: nat)
    requires IsRun(states, events) && i < n <= |events| && ChangesCards(events[i])
    requires states[i].nextChange in states[n].changes
    ensures var restored := Step(states[n], ChangeFails(states[i].nextChange));
            && (Step(restored, events[i]).cards == states[n].cards <==> states[n].cards == states[i + 1].cards)
            && (QuietBoard(states, events, i, n) ==> states[n].cards == states[i + 1].cards)
  {
    var restored := Step(states[n], ChangeFails(states[i].nextChange));
    FailedChangeRestoresBoard(states, events, i, n);
    SameChangeSameCards(restored, states[i], events[i]);
    assert Steps(states, events, i);
    if QuietBoard(states, events, i, n) { QuietBoardStays(states, events, i, n); }
  }

  /** Two overlapping changes that fail in the order they were made leave the board of the
      first, which was never saved. */
  lemma OverlappingChangesFail(states: seq<State>, events: seq<Event>, i: nat, j: nat, m: nat, n: nat)
    requires IsRun(states, events) && i < j < m < n < |events|
    requires ChangesCards(events[i]) && ChangesCards(events[j]) && QuietBoard(states, events, i, j)
    requires events[m] == ChangeFails(states[i].nextChange) && states[i].nextChange in states[m].changes
    requires events[n] == ChangeFails(states[j].nextChange) && states[j].nextChange in states[n].changes
    ensures states[m + 1].cards == states[i].cards && states[n + 1].cards == states[i + 1].cards
  {
    assert Steps(states, events, m) && Steps(states, events, n);
    FailedChangeRestoresBoard(states, events, i, m);
    FailedChangeRestoresBoard(states, events, j, n);
    QuietBoardStays(states, events, i, j);
  }

  lemma ChangeIssued(s: State, e: Event)
    requires ChangesCards(e)
    ensures Step(s, e).nextChange == s.nextChange + 1
    ensures Step(s, e).changes == s.changes[s.nextChange := s.cards]
  {
  }

  /** Two changes made one after the other, which then fail in that order. */
  lemma OverlapBookkeeping(states: seq<State>, events: seq<Event>, i: nat)
    requires IsRun(states, events) && i + 3 < |events|
    requires ChangesCards(events[i]) && ChangesCards(events[i + 1])
    requires events[i + 2] == ChangeFails(states[i].nextChange)
    requires events[i + 3] == ChangeFails(states[i].nextChange + 1)
    ensures states[i + 1].nextChange == states[i].nextChange + 1
    ensures states[i].nextChange in states[i + 2].changes && states[i].nextChange + 1 in states[i + 3].changes
    ensures states[i].nextChange !in states[i + 4].changes && states[i].nextChange + 1 !in states[i + 4].changes
  {
    assert Steps(states, events, i) && Steps(states, events, i + 1);
    assert Steps(states, events, i + 2) && Steps(states, events, i + 3);
    ChangeIssued(states[i], events[i]);
    ChangeIssued(states[i + 1], events[i + 1]);
    FailureForgets(states[i + 2], states[i].nextChange);
    FailureForgets(states[i + 3], states[i].nextChange + 1);
  }

  lemma FailureForgets(s: State, change: nat)
    requires change in s.changes
    ensures Step(s, ChangeFails(change)).changes == s.changes - {change}
  {
  }

  lemma KeptLacks(cards: seq<Card>, x: string)
    ensures forall k :: 0 <= k < |Keep(cards, Other(x))| ==> Keep(cards, Other(x))[k].messageId != x
  {
    var kept := Keep(cards, Other(x));
    forall k | 0 <= k < |kept| ensures kept[k].messageId != x { assert kept[k] in kept; }
  }

  /** A card whose removal failed is gone from the board after another failure. */
  lemma FailedRemovalStays(states: seq<State>, x: string, y: string, column: string, position: int,
                           events: seq<Event>, i: nat)
    requires IsRun(states, events) && i + 3 < |events| && x in states[i].cardIdSet
    requires events[i] == RemoveCard(x) && events[i + 1] == MoveCard(y, column, position)
    requires events[i + 2] == ChangeFails(states[i].nextChange)
    requires events[i + 3] == ChangeFails(states[i].nextChange + 1)
    ensures x !in states[i + 4].cardIdSet && states[i + 4].cards == Keep(states[i].cards, Other(x))
    ensures states[i].nextChange !in states[i + 4].changes && states[i].nextChange + 1 !in states[i + 4].changes
  {
    OverlapBookkeeping(states, events, i);
    assert Steps(states, events, i);
    OverlappingChangesFail(states, events, i, i + 1, i + 2, i + 3);
    InvInEveryRun(states, events, i + 4);
    KeptLacks(states[i].cards, x);
  }

  // ---------------------------------------------------------------- the store

  class Store {
    var cards: seq<Card>
    var cardIdSet: set<string>
    var contextNotes: Notes
    var loading: bool
    var nextContextNoteGeneration: nat
    var latestContextNoteGeneration: map<string, nat>
    var contextNoteMutationGeneration: map<string, nat>
    var nextFetchGeneration: nat
    var latestFetchGeneration: nat
    var edits: map<nat, Edit>
    var fetches: map<nat, Fetch>
    var changes: map<nat, seq<Card>>
    var nextChange: nat

    function Abs(): State
      reads this
    {
      State(cards, cardIdSet, contextNotes, loading, nextContextNoteGeneration, latestContextNoteGeneration,
            contextNoteMutationGeneration, nextFetchGeneration, latestFetchGeneration, edits, fetches, changes,
            nextChange)
    }

    constructor ()
      ensures Abs() == Initial()
    {
      cards, cardIdSet, contextNotes, loading := [], {}, map[], false;
      nextContextNoteGeneration, latestContextNoteGeneration, contextNoteMutationGeneration := 0, map[], map[];
      nextFetchGeneration, latestFetchGeneration, nextChange := 0, 0, 0;
      edits, fetches, changes := map[], map[], map[];
    }

    method SetCards(newCards: seq<Card>)
      modifies this`cards, this`cardIdSet
      ensures cards == newCards && cardIdSet == BuildIdSet(newCards)
    {
      cards, cardIdSet := newCards, BuildIdSet(newCards);
    }

    method FetchCards() returns (generation: nat)
      modifies this
      ensures generation == latestFetchGeneration && Abs() == FetchStep(old(Abs()), FetchStarts)
    {
      nextFetchGeneration := nextFetchGeneration + 1;
      generation := nextFetchGeneration;
      latestFetchGeneration := generation;
      fetches := fetches[generation := Fetch(nextContextNoteGeneration, latestContextNoteGeneration.Keys)];
      loading := true;
    }

    method LandFetch(fetch: Fetch, newCards: seq<Card>, notes: Notes)
      modifies this`cards, this`cardIdSet, this`contextNotes, this`loading
      ensures cards == newCards && cardIdSet == BuildIdSet(newCards) && !loading
      ensures contextNotes == MergeNotes(notes, old(contextNotes), ToPreserve(old(Abs()), fetch))
    {
      var preserve := fetch.pendingAtStart + latestContextNoteGeneration.Keys
        + set m | m in contextNoteMutationGeneration
                  && contextNoteMutationGeneration[m] > fetch.noteGenerationAtStart;
      contextNotes := PreserveNotes(notes, contextNotes, preserve);
      SetCards(newCards);
      loading := false;
    }

    method FetchReturned(generation: nat, newCards: seq<Card>, notes: Notes)
      requires generation in fetches
      modifies this
      ensures Abs() == FetchStep(old(Abs()), FetchReplies(generation, newCards, notes))
    {
      if latestFetchGeneration == generation {
        LandFetch(fetches[generation], newCards, notes);
      }
      fetches := fetches - {generation};
    }

    method FetchThrew(generation: nat)
      requires generation in fetches
      modifies this
      ensures Abs() == FetchStep(old(Abs()), FetchFails(generation))
    {
      fetches := fetches - {generation};
      if latestFetchGeneration == generation {
        loading := false;
      }
    }

    method ApplyChange(updated: seq<Card>)
      modifies this
      ensures Abs() == ChangeCards(old(Abs()), updated)
    {
      changes := changes[nextChange := cards];
      nextChange := nextChange + 1;
      SetCards(updated);
    }

    method ChangeThrew(change: nat)
      requires change in changes
      modifies this
      ensures Abs() == CardStep(old(Abs()), ChangeFails(change))
    {
      SetCards(changes[change]);
      changes := changes - {change};
    }

    method IssueGeneration(messageId: string) returns (generation: nat)
      modifies this`nextContextNoteGeneration, this`latestContextNoteGeneration, this`contextNoteMutationGeneration
      ensures generation == nextContextNoteGeneration == old(nextContextNoteGeneration) + 1
      ensures latestContextNoteGeneration == old(latestContextNoteGeneration)[messageId := generation]
      ensures contextNoteMutationGeneration == old(contextNoteMutationGeneration)[messageId := generation]
    {
      nextContextNoteGeneration := nextContextNoteGeneration + 1;
      generation := nextContextNoteGeneration;
      latestContextNoteGeneration := latestContextNoteGeneration[messageId := generation];
      contextNoteMutationGeneration := contextNoteMutationGeneration[messageId := generation];
    }

    method SetContextNote(messageId: string, note: string) returns (generation: nat)
      modifies this
      ensures generation == nextContextNoteGeneration && Abs() == NoteStep(old(Abs()), EditStarts(messageId, note))
    {
      var previous := Shown(contextNotes, messageId);
      generation := IssueGeneration(messageId);
      edits := edits[generation := Edit(messageId, note, previous)];
      contextNotes := WithNote(contextNotes, messageId, Text(note));
    }

    method NoteReturned(generation: nat, saved: Notes)
      requires generation in edits
      modifies this
      ensures Abs() == NoteStep(old(Abs()), EditReplies(generation, saved))
    {
      var messageId := edits[generation].messageId;
      edits := edits - {generation};
      if messageId in latestContextNoteGeneration && latestContextNoteGeneration[messageId] == generation {
        contextNotes := WithNote(contextNotes, messageId, Shown(saved, messageId));
        latestContextNoteGeneration := latestContextNoteGeneration - {messageId};
      }
    }

    method NoteThrew(generation: nat)
      requires generation in edits
      modifies this
      ensures Abs() == NoteStep(old(Abs()), EditFails(generation))
    {
      var edit := edits[generation];
      edits := edits - {generation};
      if edit.messageId in latestContextNoteGeneration && latestContextNoteGeneration[edit.messageId] == generation {
        contextNotes := WithNote(contextNotes, edit.messageId, edit.previous);
        latestContextNoteGeneration := latestContextNoteGeneration - {edit.messageId};
      }
    }
  }

  /** The merge loop of a landing fetch. */
  method PreserveNotes(reply: Notes, shown: Notes, preserve: set<string>) returns (merged: Notes)
    ensures merged == MergeNotes(reply, shown, preserve)
    ensures forall m :: Shown(merged, m) == if m in preserve then Shown(shown, m) else Shown(reply, m)
  {
    merged := reply;
    var todo := preserve;
    while todo != {}
      invariant todo <= preserve
      invariant forall m :: Shown(merged, m) == if m in preserve - todo then Shown(shown, m) else Shown(reply, m)
    {
      var m :| m in todo;
      merged := WithNote(merged, m, Shown(shown, m));
      todo := todo - {m};
    }
    var expected := MergeNotes(reply, shown, preserve);
    forall m ensures (m in merged <==> m in expected) && (m in merged ==> merged[m] == expected[m]) {
      assert Shown(merged, m) == if m in preserve then Shown(shown, m) else Shown(reply, m);
      MergedNote(reply, shown, preserve, m);
      assert Shown(merged, m) == Shown(expected, m);
    }
  }
}
