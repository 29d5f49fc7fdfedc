/** The change feed (cmd/server/main.go handleFeed, internal/works/feed.go, the counters of
    internal/store): a cursor of two sequence counters, read before the data with writers
    going on between the reads. */
module ChangeFeed {
  import opened Options

  type ItemId = nat
  type WorkKey = string
  type Content = nat

  /** A library row: the work its identity puts it in, what it says, and its stamp. */
  datatype Item = Item(work: WorkKey, content: Content, seq_: nat)

  /** A playback row, of one profile in one item. */
  datatype Position = Position(place: nat, seq_: nat)

  type PositionKey = (ItemId, string)

  /** The two databases: the library with its counter and deletion mark, the state with its own. */
  datatype Store = Store(
    items: map<ItemId, Item>, libSeq: nat, deletionSeq: nat,
    positions: map<PositionKey, Position>, stateSeq: nat)

  datatype Cursor = Cursor(lib: nat, state: nat)

  /** One work as the feed says it: its member rows and every playback row on them. */
  datatype WorkDoc = WorkDoc(items: map<ItemId, Item>, positions: map<PositionKey, Position>)

  // ── the writers ───────────────────────────────────────────────────────

  datatype Write =
    | Upsert(id: ItemId, work: WorkKey, content: Content)
    | Delete(ids: set<ItemId>)
    | SetPlace(key: PositionKey, place: nat)
    | ClearPlace(key: PositionKey)

  /** One transaction. A deletion that finds nothing stamps nothing; a cleared place never does. */
  function Apply(db: Store, w: Write): Store {
    match w
    case Upsert(id, work, content) =>
      db.(items := db.items[id := Item(work, content, db.libSeq + 1)], libSeq := db.libSeq + 1)
    case Delete(ids) =>
      if ids * db.items.Keys == {} then db
      else db.(items := db.items - ids, libSeq := db.libSeq + 1, deletionSeq := db.libSeq + 1)
    case SetPlace(key, place) =>
      db.(positions := db.positions[key := Position(place, db.stateSeq + 1)], stateSeq := db.stateSeq + 1)
    case ClearPlace(key) => db.(positions := db.positions - {key})
  }

  // ── the answer ────────────────────────────────────────────────────────

  function WorkOf(items: map<ItemId, Item>, positions: map<PositionKey, Position>, work: WorkKey): WorkDoc {
    var members := items - (set id | id in items && items[id].work != work);
    WorkDoc(members, positions - (set key | key in positions && key.0 !in members))
  }

  predicate Full(since: Option<Cursor>, deletionSeq: nat) {
    since.None? || deletionSeq > since.value.lib
  }

  predicate Changed(doc: WorkDoc, since: Cursor) {
    || (exists id :: id in doc.items && doc.items[id].seq_ > since.lib)
    || (exists key :: key in doc.positions && doc.positions[key].seq_ > since.state)
  }

  function Works(items: map<ItemId, Item>): set<WorkKey> {
    set id | id in items :: items[id].work
  }

  /** works.Feed: the works the answer carries. */
  function Feed(
    items: map<ItemId, Item>, positions: map<PositionKey, Position>, since: Option<Cursor>, deletionSeq: nat):
    map<WorkKey, WorkDoc>
  {
    map w | w in Works(items) && (Full(since, deletionSeq) || Changed(WorkOf(items, positions, w), since.value))
      :: WorkOf(items, positions, w)
  }

  /** A work is in the answer when it has a member, and the answer is full, or a member or a place
      on one is stamped past the cursor; and it comes with every member there is and every place on
      one, as they are. */
  lemma AnswerExactly(
    items: map<ItemId, Item>, positions: map<PositionKey, Position>, since: Option<Cursor>, deletionSeq: nat, w: WorkKey)
    ensures var answer := Feed(items, positions, since, deletionSeq);
      var past := since == None || deletionSeq > since.value.lib
        || (exists id :: id in items && items[id].work == w && items[id].seq_ > since.value.lib)
        || (exists key :: key in positions && key.0 in items && items[key.0].work == w && positions[key].seq_ > since.value.state);
      && (w in answer <==> past && exists id :: id in items && items[id].work == w)
      && (w in answer ==>
            && (forall id :: id in answer[w].items <==> id in items && items[id].work == w)
            && (forall id :: id in answer[w].items ==> answer[w].items[id] == items[id])
            && (forall key :: key in answer[w].positions <==> key in positions && key.0 in items && items[key.0].work == w)
            && (forall key :: key in answer[w].positions ==> answer[w].positions[key] == positions[key]))
  {
    var doc := WorkOf(items, positions, w);
    assert forall id :: id in doc.items <==> id in items && items[id].work == w;
    assert forall key :: key in doc.positions <==> key in positions && key.0 in items && items[key.0].work == w;
    assert w in Works(items) <==> exists id :: id in items && items[id].work == w;
  }

  // ── one fetch, read by read ───────────────────────────────────────────

  /** How far a fetch has read: the library counter, the state counter, the deletion mark,
      the items; the positions come last, with the answer. */
  datatype Fetch =
    | Idle
    | GotLib(lib: nat)
    | GotState(lib: nat, state: nat)
    | GotDeletion(lib: nat, state: nat, deletionSeq: nat)
    | GotItems(lib: nat, state: nat, deletionSeq: nat, items: map<ItemId, Item>)

  /** A client keeps the last cursor it was answered with and a copy of each work. The answer does
      not say whether it is full: `told` is of a client that somehow knows, and every other can
      only lay the works it is sent over the ones it has. */
  datatype State = State(db: Store, cursor: Option<Cursor>, mirror: map<WorkKey, WorkDoc>, fetch: Fetch, told: bool)

  datatype Action = Writes(w: Write) | Reads | Abandons

  function Read(s: State): State {
    match s.fetch
    case Idle => s.(fetch := GotLib(s.db.libSeq))
    case GotLib(l) => s.(fetch := GotState(l, s.db.stateSeq))
    case GotState(l, st) => s.(fetch := GotDeletion(l, st, s.db.deletionSeq))
    case GotDeletion(l, st, d) => s.(fetch := GotItems(l, st, d, s.db.items))
    case GotItems(l, st, d, items) =>
      var answer := Feed(items, s.db.positions, s.cursor, d);
      s.(cursor := Some(Cursor(l, st)), fetch := Idle,
         mirror := if s.told && Full(s.cursor, d) then answer else s.mirror + answer)
  }

  function Step(s: State, a: Action): State {
    match a
    case Writes(w) => s.(db := Apply(s.db, w))
    case Reads => Read(s)
    case Abandons => s.(fetch := Idle)
  }

  function Run(s: State, actions: seq<Action>): State {
    if actions == [] then s else Step(Run(s, actions[..|actions| - 1]), actions[|actions| - 1])
  }

  /** A client that has never asked, of a store whose rows may be older than the stamps. */
  predicate Fresh(s: State) {
    s.cursor.None? && s.mirror == map[] && s.fetch == Idle && Stamped(s.db)
  }

  predicate Stamped(db: Store) {
    && db.deletionSeq <= db.libSeq
    && (forall id :: id in db.items ==> db.items[id].seq_ <= db.libSeq)
    && (forall key :: key in db.positions ==> db.positions[key].seq_ <= db.stateSeq)
  }

  // ── what is stored is what was written ────────────────────────────────

  /** The last write of the run that was about this row: its upsert, or a deletion it was in. */
  function LastOfRow(actions: seq<Action>, id: ItemId): Option<Write> {
    if actions == [] then None else
    var a := actions[|actions| - 1];
    if a.Writes? && ((a.w.Upsert? && a.w.id == id) || (a.w.Delete? && id in a.w.ids)) then Some(a.w)
    else LastOfRow(actions[..|actions| - 1], id)
  }

  /** The last write of the run that was about this place. */
  function LastOfPlace(actions: seq<Action>, key: PositionKey): Option<Write> {
    if actions == [] then None else
    var a := actions[|actions| - 1];
    if a.Writes? && ((a.w.SetPlace? && a.w.key == key) || (a.w.ClearPlace? && a.w.key == key)) then Some(a.w)
    else LastOfPlace(actions[..|actions| - 1], key)
  }

  /** In every run a row says what its last upsert said, a deleted one is gone, and one that no write
      was about is as it was, stamp and all; and whatever a write stamps comes after all the stamps
      there were. */
  lemma {:induction false} RowsAreAsWritten(s: State, actions: seq<Action>, id: ItemId)
    ensures var was, now := s.db.items, Run(s, actions).db.items;
      match LastOfRow(actions, id)
      case Some(Upsert(_, work, content)) =>
        id in now && now[id].work == work && now[id].content == content && s.db.libSeq < now[id].seq_ <= Run(s, actions).db.libSeq
      case Some(_) => id !in now
      case None => (id in now <==> id in was) && (id in was ==> now[id] == was[id])
    ensures s.db.libSeq <= Run(s, actions).db.libSeq
  {
    if actions != [] {
      RowsAreAsWritten(s, actions[..|actions| - 1], id);
      var db, a := Run(s, actions[..|actions| - 1]).db, actions[|actions| - 1];
      if a.Writes? && a.w.Delete? && id in a.w.ids && id in db.items {
        assert id in a.w.ids * db.items.Keys;
      }
    }
  }

  lemma {:induction false} PlacesAreAsWritten(s: State, actions: seq<Action>, key: PositionKey)
    ensures var was, now := s.db.positions, Run(s, actions).db.positions;
      match LastOfPlace(actions, key)
      case Some(SetPlace(_, place)) =>
        key in now && now[key].place == place && s.db.stateSeq < now[key].seq_ <= Run(s, actions).db.stateSeq
      case Some(_) => key !in now
      case None => (key in now <==> key in was) && (key in was ==> now[key] == was[key])
    ensures s.db.stateSeq <= Run(s, actions).db.stateSeq
  {
    if actions != [] {
      PlacesAreAsWritten(s, actions[..|actions| - 1], key);
    }
  }

  // ── no gaps ───────────────────────────────────────────────────────────

  /** The mirror holds this library row as it is. */
  predicate MirrorsItem(s: State, id: ItemId)
    requires id in s.db.items
  {
    var w := s.db.items[id].work;
    w in s.mirror && id in s.mirror[w].items && s.mirror[w].items[id] == s.db.items[id]
  }

  predicate MirrorsPosition(s: State, key: PositionKey)
    requires key in s.db.positions && key.0 in s.db.items
  {
    var w := s.db.items[key.0].work;
    w in s.mirror && key in s.mirror[w].positions && s.mirror[w].positions[key] == s.db.positions[key]
  }

  /** Every live row stamped at or before the cursor is in the mirror exactly as it stands,
      under the work it is in now. */
  ghost predicate NoGaps(s: State) {
    s.cursor.Some? ==>
      && (forall id :: id in s.db.items && s.db.items[id].seq_ <= s.cursor.value.lib ==> MirrorsItem(s, id))
      && (forall key :: key in s.db.positions && key.0 in s.db.items
            && s.db.items[key.0].seq_ <= s.cursor.value.lib && s.db.positions[key].seq_ <= s.cursor.value.state
            ==> MirrorsPosition(s, key))
  }

  /** What a fetch under way has read is at or before what there is now, and its items hold
      every live row stamped at or before the counter it read first. */
  predicate FetchSound(s: State) {
    match s.fetch
    case Idle => true
    case GotLib(l) => l <= s.db.libSeq
    case GotState(l, st) => l <= s.db.libSeq && st <= s.db.stateSeq
    case GotDeletion(l, st, d) => l <= s.db.libSeq && st <= s.db.stateSeq
    case GotItems(l, st, d, items) =>
      && l <= s.db.libSeq && st <= s.db.stateSeq
      && forall id :: id in s.db.items && s.db.items[id].seq_ <= l ==> id in items && items[id] == s.db.items[id]
  }

  ghost predicate Inv(s: State) {
    && Stamped(s.db) && FetchSound(s) && NoGaps(s)
    && (s.cursor.Some? ==> s.cursor.value.lib <= s.db.libSeq && s.cursor.value.state <= s.db.stateSeq)
  }

  lemma WriteKeepsInv(s: State, w: Write)
    requires Inv(s)
    ensures Inv(s.(db := Apply(s.db, w)))
  {
  }

  /** A row stamped at or before the new cursor is either in the answer or was already held. */
  lemma AnswerLeavesNoGap(s: State)
    requires Inv(s) && s.fetch.GotItems?
    ensures NoGaps(Read(s))
  {
    var GotItems(l, st, d, items) := s.fetch;
    var t, answer := Read(s), Feed(items, s.db.positions, s.cursor, d);
    forall id | id in s.db.items && s.db.items[id].seq_ <= l
      ensures MirrorsItem(t, id)
      ensures forall key :: key in s.db.positions && key.0 == id && s.db.positions[key].seq_ <= st ==> MirrorsPosition(t, key)
    {
      var w := items[id].work;
      var doc := WorkOf(items, s.db.positions, w);
      assert id in doc.items && w in Works(items);
      if w !in answer {
        assert !Changed(doc, s.cursor.value);
        assert MirrorsItem(s, id);
      }
      forall key | key in s.db.positions && key.0 == id && s.db.positions[key].seq_ <= st
        ensures MirrorsPosition(t, key)
      {
        assert key in doc.positions;
        if w !in answer { assert MirrorsPosition(s, key); }
      }
    }
  }

  lemma ReadKeepsInv(s: State)
    requires Inv(s)
    ensures Inv(Read(s))
  {
    if s.fetch.GotItems? { AnswerLeavesNoGap(s); }
  }

  /** For every interleaving of item, position and deletion writes with the handler's own
      reads, from a client that starts with no cursor: no live row is ever missed. */
  lemma {:induction false} NoGapInAnyRun(s: State, actions: seq<Action>)
    requires Fresh(s)
    ensures Inv(Run(s, actions))
  {
    if actions != [] {
      NoGapInAnyRun(s, actions[..|actions| - 1]);
      var t, a := Run(s, actions[..|actions| - 1]), actions[|actions| - 1];
      match a {
        case Writes(w) => WriteKeepsInv(t, w);
        case Reads => ReadKeepsInv(t);
        case Abandons =>
      }
    }
  }

  // ── deletions ─────────────────────────────────────────────────────────

  /** A deletion stamped `mark` is seen by every fetch whose counter is read after it. */
  predicate DeletionSeen(s: State, mark: nat) {
    && mark <= s.db.deletionSeq
    && match s.fetch
       case GotDeletion(l, _, d) => mark <= l ==> mark <= d
       case GotItems(l, _, d, _) => mark <= l ==> mark <= d
       case _ => true
  }

  lemma StepKeepsDeletionSeen(s: State, a: Action, mark: nat)
    requires Stamped(s.db) && DeletionSeen(s, mark)
    ensures Stamped(Step(s, a).db) && DeletionSeen(Step(s, a), mark)
  {
  }

  lemma {:induction false} DeletionStaysSeen(s: State, actions: seq<Action>, mark: nat)
    requires Stamped(s.db) && DeletionSeen(s, mark)
    ensures Stamped(Run(s, actions).db) && DeletionSeen(Run(s, actions), mark)
  {
    if actions != [] {
      DeletionStaysSeen(s, actions[..|actions| - 1], mark);
      StepKeepsDeletionSeen(Run(s, actions[..|actions| - 1]), actions[|actions| - 1], mark);
    }
  }

  /** The answer carries every work there is, and a client that is told so holds no other. */
  predicate AnsweredInFull(t: State)
    requires t.fetch.GotItems?
  {
    && Feed(t.fetch.items, t.db.positions, t.cursor, t.fetch.deletionSeq).Keys == Works(t.fetch.items)
    && Read(t).mirror.Keys == (if t.told then {} else t.mirror.Keys) + Works(t.fetch.items)
  }

  /** The first fetch begun after a deletion is answered in full, whatever is written and
      however many older fetches are answered in between: a fetch with a counter read at or
      after the deletion's stamp, sent with a cursor from before it. */
  lemma FirstFetchAfterDeletionIsFull(s: State, ids: set<ItemId>, actions: seq<Action>)
    requires Inv(s) && ids * s.db.items.Keys != {}
    ensures var gone := Step(s, Writes(Delete(ids)));
      var t := Run(gone, actions);
      (t.fetch.GotItems? && gone.db.libSeq <= t.fetch.lib && (t.cursor.Some? ==> t.cursor.value.lib < gone.db.libSeq)) ==>
        Full(t.cursor, t.fetch.deletionSeq) && AnsweredInFull(t)
  {
    var gone := Step(s, Writes(Delete(ids)));
    WriteKeepsInv(s, Delete(ids));
    DeletionStaysSeen(gone, actions, gone.db.libSeq);
  }

  /** The action begins a fetch, or is the read that answers one. */
  predicate Begins(s: State, a: Action) {
    a.Reads? && s.fetch.Idle?
  }

  predicate Answers(s: State, a: Action) {
    a.Reads? && s.fetch.GotItems?
  }

  function At(s: State, actions: seq<Action>, i: nat): State
    requires i <= |actions|
  {
    Run(s, actions[..i])
  }

  /** Some fetch has begun among the first `n` actions. */
  predicate Begun(s: State, actions: seq<Action>, n: nat)
    requires n <= |actions|
  {
    exists i: nat :: i < n && Begins(At(s, actions, i), actions[i])
  }

  /** No fetch begun in this run has been answered in it. */
  ghost predicate NoneAnswered(s: State, actions: seq<Action>) {
    forall j: nat :: j < |actions| && Answers(At(s, actions, j), actions[j]) ==> !Begun(s, actions, j)
  }

  /** Where the counters stand while that is so, of a deletion stamped `mark`. */
  predicate OnEitherSide(t: State, begun: bool, mark: nat) {
    && (t.cursor.Some? ==> t.cursor.value.lib < mark)
    && match t.fetch
       case Idle => true
       case GotLib(l) => begun <==> mark <= l
       case GotState(l, _) => begun <==> mark <= l
       case GotDeletion(l, _, _) => begun <==> mark <= l
       case GotItems(l, _, _, _) => begun <==> mark <= l
  }

  lemma PrefixesOf(s: State, actions: seq<Action>)
    requires actions != []
    ensures var before, n := actions[..|actions| - 1], |actions| - 1;
      && (forall i: nat :: i <= n ==> At(s, before, i) == At(s, actions, i))
      && At(s, actions, n) == Run(s, before) && Run(s, actions) == Step(Run(s, before), actions[n])
      && (forall j: nat :: j <= n ==> (Begun(s, before, j) <==> Begun(s, actions, j)))
      && (Begun(s, actions, n + 1) <==> Begun(s, actions, n) || Begins(Run(s, before), actions[n]))
  {
    var before, n := actions[..|actions| - 1], |actions| - 1;
    assert forall i: nat :: i <= n ==> before[..i] == actions[..i];
    assert before[..n] == before;
    forall j: nat | j <= n
      ensures Begun(s, before, j) <==> Begun(s, actions, j)
    {
      if i: nat :| i < j && Begins(At(s, before, i), before[i]) {
        assert Begins(At(s, actions, i), actions[i]);
      }
      if i: nat :| i < j && Begins(At(s, actions, i), actions[i]) {
        assert Begins(At(s, before, i), before[i]);
      }
    }
  }

  lemma {:induction false} CountersOnEitherSide(s: State, actions: seq<Action>, mark: nat)
    requires Stamped(s.db) && mark <= s.db.libSeq && OnEitherSide(s, false, mark) && NoneAnswered(s, actions)
    ensures Stamped(Run(s, actions).db) && mark <= Run(s, actions).db.libSeq
    ensures OnEitherSide(Run(s, actions), Begun(s, actions, |actions|), mark)
  {
    if actions != [] {
      var before, n := actions[..|actions| - 1], |actions| - 1;
      PrefixesOf(s, actions);
      forall j: nat | j < n && Answers(At(s, before, j), before[j])
        ensures !Begun(s, before, j)
      {
        assert Answers(At(s, actions, j), actions[j]);
      }
      CountersOnEitherSide(s, before, mark);
      assert Answers(At(s, actions, n), actions[n]) ==> !Begun(s, actions, n);
      SideAfterStep(Run(s, before), actions[n], Begun(s, actions, n), mark);
    }
  }

  lemma SideAfterStep(t: State, a: Action, begun: bool, mark: nat)
    requires Stamped(t.db) && mark <= t.db.libSeq && OnEitherSide(t, begun, mark)
    requires Answers(t, a) ==> !begun
    ensures Stamped(Step(t, a).db) && mark <= Step(t, a).db.libSeq
    ensures OnEitherSide(Step(t, a), begun || Begins(t, a), mark)
  {
  }

  /** Whatever goes on after a deletion, the first fetch begun after it to be answered is
      answered in full: a fetch is about to be, some fetch has begun since the deletion, and none
      begun since has been answered. */
  lemma FirstAnswerAfterDeletionIsFull(s: State, ids: set<ItemId>, actions: seq<Action>)
    requires Inv(s) && ids * s.db.items.Keys != {}
    ensures var gone := Step(s, Writes(Delete(ids)));
      var t := Run(gone, actions);
      NoneAnswered(gone, actions) && Begun(gone, actions, |actions|) && t.fetch.GotItems? ==>
        Full(t.cursor, t.fetch.deletionSeq) && AnsweredInFull(t)
  {
    var gone := Step(s, Writes(Delete(ids)));
    WriteKeepsInv(s, Delete(ids));
    if NoneAnswered(gone, actions) {
      CountersOnEitherSide(gone, actions, gone.db.libSeq);
      FirstFetchAfterDeletionIsFull(s, ids, actions);
    }
  }

  /** The mirror's copy of a member is of a row still in that work. */
  predicate Live(db: Store, work: WorkKey, id: ItemId) {
    id in db.items && db.items[id].work == work
  }

  /** Something of the work is stamped past the cursor. */
  predicate OnItsWay(db: Store, work: WorkKey, lib: nat) {
    exists id :: id in db.items && db.items[id].work == work && db.items[id].seq_ > lib
  }

  /** What a client that is told nothing may go on holding: a work with no members any more, or
      one that the next answer brings anew. */
  predicate Unheard(s: State, work: WorkKey)
    requires s.cursor.Some?
  {
    !s.told && (work !in Works(s.db.items) || OnItsWay(s.db, work, s.cursor.value.lib))
  }

  /** Nothing is held that is not there, unless a full answer is owed for it, or nobody says. */
  ghost predicate NoGhosts(s: State) {
    && (s.cursor.Some? ==>
        forall w, id :: w in s.mirror && id in s.mirror[w].items ==>
          Live(s.db, w, id) || s.db.deletionSeq > s.cursor.value.lib || Unheard(s, w))
    && (s.cursor.None? ==> s.mirror == map[])
    && match s.fetch
       case GotDeletion(l, _, d) => s.db.deletionSeq <= l ==> d == s.db.deletionSeq
       case GotItems(l, _, d, items) =>
         && (s.db.deletionSeq <= l ==> d == s.db.deletionSeq)
         && (forall id :: id in items ==> Live(s.db, items[id].work, id) || s.db.deletionSeq > l)
       case _ => true
  }

  /** No write moves a row that is there to another work. */
  predicate Settled(db: Store, a: Action) {
    a.Writes? && a.w.Upsert? && a.w.id in db.items ==> db.items[a.w.id].work == a.w.work
  }

  lemma WriteLeavesNoGhost(s: State, w: Write)
    requires Inv(s) && NoGhosts(s) && Settled(s.db, Writes(w))
    ensures NoGhosts(Step(s, Writes(w)))
  {
    var t := Step(s, Writes(w));
    forall work, id | t.cursor.Some? && work in t.mirror && id in t.mirror[work].items && !Live(t.db, work, id)
      ensures t.db.deletionSeq > t.cursor.value.lib || Unheard(t, work)
    {
      if t.db.deletionSeq <= t.cursor.value.lib {
        WriteLeavesUnheard(s, w, work);
      }
    }
  }

  /** Short of a deletion, a work with no members gets none but new ones. */
  lemma WriteLeavesUnheard(s: State, w: Write, work: WorkKey)
    requires Inv(s) && s.cursor.Some? && Settled(s.db, Writes(w)) && Unheard(s, work)
    requires Step(s, Writes(w)).db.deletionSeq <= s.cursor.value.lib
    ensures Unheard(Step(s, Writes(w)), work)
  {
    var t := Step(s, Writes(w));
    if w.Upsert? {
      assert forall id :: id in t.db.items && id != w.id ==> id in s.db.items && t.db.items[id] == s.db.items[id];
      if work in Works(t.db.items) {
        if work in Works(s.db.items) {
          var id :| id in s.db.items && s.db.items[id].work == work && s.db.items[id].seq_ > s.cursor.value.lib;
          assert t.db.items[id].work == work && t.db.items[id].seq_ > s.cursor.value.lib;
        } else {
          assert t.db.items[w.id].work == work && t.db.items[w.id].seq_ > s.cursor.value.lib;
        }
      }
    } else {
      assert t.db.items == s.db.items;
    }
  }

  lemma AnswerLeavesNoGhost(s: State)
    requires Inv(s) && NoGhosts(s) && s.fetch.GotItems?
    ensures NoGhosts(Read(s))
  {
    var GotItems(l, st, d, items) := s.fetch;
    var t, answer := Read(s), Feed(items, s.db.positions, s.cursor, d);
    forall w, id | w in t.mirror && id in t.mirror[w].items
      ensures Live(s.db, w, id) || s.db.deletionSeq > l || Unheard(t, w)
    {
      if w in answer {
        assert id in items && items[id].work == w;
      } else if s.db.deletionSeq <= l && !Live(s.db, w, id) {
        NotSentIsUnheard(s, w);
      }
    }
  }

  /** A work that an answer does not carry, though something of it may be gone. */
  lemma NotSentIsUnheard(s: State, w: WorkKey)
    requires Inv(s) && s.fetch.GotItems? && !s.told && s.cursor.Some?
    requires w !in Feed(s.fetch.items, s.db.positions, s.cursor, s.fetch.deletionSeq)
    requires Full(s.cursor, s.fetch.deletionSeq) || Unheard(s, w)
    ensures Unheard(Read(s), w)
  {
    var GotItems(l, st, d, items) := s.fetch;
    var doc := WorkOf(items, s.db.positions, w);
    if w in Works(s.db.items) {
      if w in Works(items) {
        var id :| id in s.db.items && s.db.items[id].work == w && s.db.items[id].seq_ > s.cursor.value.lib;
        assert s.db.items[id].seq_ <= l ==> id in doc.items;
        assert s.db.items[id].seq_ > l;
      } else {
        var id :| id in s.db.items && s.db.items[id].work == w;
        assert s.db.items[id].seq_ > l;
      }
    }
  }

  lemma StepLeavesNoGhost(s: State, a: Action)
    requires Inv(s) && NoGhosts(s) && Settled(s.db, a)
    ensures NoGhosts(Step(s, a))
  {
    match a {
      case Writes(w) => WriteLeavesNoGhost(s, w);
      case Reads => if s.fetch.GotItems? { AnswerLeavesNoGhost(s); }
      case Abandons =>
    }
  }

  /** In every run that regroups nothing, a work member the client still holds is really there, or
      the next fetch to begin is a full answer that takes it away. A client that is not told an
      answer is full may hold one besides: of a work that has no members left, or that is about to
      be sent anew. */
  lemma {:induction false} NoGhostInAnyRun(s: State, actions: seq<Action>)
    requires Fresh(s)
    requires forall i :: 0 <= i < |actions| ==> Settled(Run(s, actions[..i]).db, actions[i])
    ensures NoGhosts(Run(s, actions))
  {
    if actions != [] {
      var before := actions[..|actions| - 1];
      assert forall i :: 0 <= i < |before| ==> before[..i] == actions[..i];
      NoGhostInAnyRun(s, before);
      NoGapInAnyRun(s, before);
      StepLeavesNoGhost(Run(s, before), actions[|actions| - 1]);
    }
  }

  // ── places, whatever became of the row since ──────────────────────────

  /** A playback row stamped at or before the cursor, on a member the client holds. */
  predicate Due(s: State, key: PositionKey) {
    && s.cursor.Some? && key in s.db.positions && s.db.positions[key].seq_ <= s.cursor.value.state
    && key.0 in s.db.items && s.db.items[key.0].work in s.mirror
    && key.0 in s.mirror[s.db.items[key.0].work].items
  }

  /** The client is not told what is full, and the next answer brings the member's work anew. */
  predicate OnItsWayUntold(s: State, id: ItemId)
    requires s.cursor.Some? && id in s.db.items
  {
    !s.told && s.db.items[id].seq_ > s.cursor.value.lib
  }

  /** Every such row is held as it stands, unless a full answer is owed; and what a fetch has
      read of the items lacks nothing that is held, unless one is. */
  ghost predicate PlacesCovered(s: State) {
    && (forall key :: Due(s, key) ==>
          MirrorsPosition(s, key) || s.db.deletionSeq > s.cursor.value.lib || OnItsWayUntold(s, key.0))
    && (s.told && s.fetch.GotItems? ==> forall w, id :: w in s.mirror && id in s.mirror[w].items ==>
          (id in s.fetch.items && s.fetch.items[id].work == w) || s.db.deletionSeq > s.fetch.lib || Full(s.cursor, s.fetch.deletionSeq))
  }

  lemma WriteKeepsPlaces(s: State, w: Write)
    requires Inv(s) && NoGhosts(s) && PlacesCovered(s) && Settled(s.db, Writes(w))
    ensures PlacesCovered(s.(db := Apply(s.db, w)))
  {
    var t := s.(db := Apply(s.db, w));
    forall key | Due(t, key)
      ensures MirrorsPosition(t, key) || t.db.deletionSeq > t.cursor.value.lib || OnItsWayUntold(t, key.0)
    {
      if key.0 in s.db.items {
        assert Due(s, key);
      } else {
        assert !Live(s.db, t.db.items[key.0].work, key.0);
      }
    }
  }

  lemma AnswerKeepsPlaces(s: State)
    requires Inv(s) && NoGhosts(s) && PlacesCovered(s) && s.fetch.GotItems?
    ensures PlacesCovered(Read(s))
  {
    var GotItems(l, st, d, items) := s.fetch;
    var t, answer := Read(s), Feed(items, s.db.positions, s.cursor, d);
    forall key | Due(t, key)
      ensures MirrorsPosition(t, key) || t.db.deletionSeq > l || OnItsWayUntold(t, key.0)
    {
      var w := s.db.items[key.0].work;
      if w !in answer && s.db.deletionSeq <= l && (s.told || s.db.items[key.0].seq_ <= l) {
        assert key.0 in items && items[key.0].work == w;
        var doc := WorkOf(items, s.db.positions, w);
        assert key in doc.positions && w in Works(items) && !Changed(doc, s.cursor.value);
        assert Due(s, key);
      }
    }
  }

  lemma ReadKeepsPlaces(s: State)
    requires Inv(s) && NoGhosts(s) && PlacesCovered(s)
    ensures PlacesCovered(Read(s))
  {
    if s.fetch.GotItems? {
      AnswerKeepsPlaces(s);
    } else if s.fetch.GotDeletion? {
      forall w, id | s.told && w in s.mirror && id in s.mirror[w].items
        ensures Live(s.db, w, id) || s.db.deletionSeq > s.fetch.lib || Full(s.cursor, s.fetch.deletionSeq)
      {
      }
      assert forall key :: Due(Read(s), key) ==> Due(s, key);
    } else {
      assert forall key :: Due(Read(s), key) ==> Due(s, key);
    }
  }

  /** In every run that regroups nothing, a place stamped at or before the cursor is held as it
      stands on every member the client holds, however the member's own row has changed since;
      or the next fetch to begin is a full answer. */
  lemma {:induction false} NoPlaceMissedInAnyRun(s: State, actions: seq<Action>)
    requires Fresh(s)
    requires forall i :: 0 <= i < |actions| ==> Settled(Run(s, actions[..i]).db, actions[i])
    ensures PlacesCovered(Run(s, actions))
  {
    if actions != [] {
      var before := actions[..|actions| - 1];
      assert forall i :: 0 <= i < |before| ==> before[..i] == actions[..i];
      NoPlaceMissedInAnyRun(s, before);
      NoGapInAnyRun(s, before);
      NoGhostInAnyRun(s, before);
      var t, a := Run(s, before), actions[|actions| - 1];
      match a {
        case Writes(w) => WriteKeepsPlaces(t, w);
        case Reads => ReadKeepsPlaces(t);
        case Abandons => assert forall key :: Due(Step(t, a), key) ==> Due(t, key);
      }
    }
  }

  // ── what the counters do not see ──────────────────────────────────────

  function FetchOnce(s: State): State {
    Read(Read(Read(Read(Read(s)))))
  }

  predicate CaughtUp(s: State) {
    s.fetch == Idle && Stamped(s.db) && s.cursor == Some(Cursor(s.db.libSeq, s.db.stateSeq))
  }

  /** A cleared place stamps nothing, so a client that was caught up goes on holding it. */
  lemma ClearedPlaceIsUnheard(s: State, key: PositionKey)
    requires CaughtUp(s)
    ensures FetchOnce(Step(s, Writes(ClearPlace(key)))).mirror == s.mirror
  {
  }

  /** The next fetch, with nothing between its reads, leaves the client its copy of a work: when
      the work is not in the answer, and the client is not told that it should have been. */
  predicate LeftAlone(s: State, work: WorkKey)
    requires s.cursor.Some?
  {
    if work in Works(s.db.items) then
      !Full(s.cursor, s.db.deletionSeq) && !Changed(WorkOf(s.db.items, s.db.positions, work), s.cursor.value)
    else
      !s.told || !Full(s.cursor, s.db.deletionSeq)
  }

  /** Exactly when a client's next fetch tells it that a place it holds was cleared: when the
      answer is full, or something else of the work has changed since its cursor. A work without
      members is in no answer, and only a client that is told what is full loses it. */
  lemma ClearingIsHeardExactly(s: State, work: WorkKey, key: PositionKey)
    requires s.fetch == Idle && s.cursor.Some? && key !in s.db.positions
    requires work in s.mirror && key in s.mirror[work].positions
    ensures var t := FetchOnce(s);
      work in t.mirror && key in t.mirror[work].positions <==> LeftAlone(s, work)
  {
    assert forall id :: id in WorkOf(s.db.items, s.db.positions, work).items ==> work in Works(s.db.items);
  }

  /** And the same of a member that is in the work no longer, moved or gone. */
  lemma LeavingIsHeardExactly(s: State, work: WorkKey, id: ItemId)
    requires s.fetch == Idle && s.cursor.Some? && !Live(s.db, work, id)
    requires work in s.mirror && id in s.mirror[work].items
    ensures var t := FetchOnce(s);
      work in t.mirror && id in t.mirror[work].items <==> LeftAlone(s, work)
  {
  }

  // ── what the answer does not say ──────────────────────────────────────

  /** What goes over the wire. */
  datatype Answer = Answer(cursor: Cursor, works: map<WorkKey, WorkDoc>)

  function AnswerTo(since: Option<Cursor>, db: Store): Answer {
    Answer(Cursor(db.libSeq, db.stateSeq), Feed(db.items, db.positions, since, db.deletionSeq))
  }

  /** A fetch with nothing between its reads is that answer, laid over what the client holds. */
  lemma FetchIsTheAnswer(s: State)
    requires s.fetch == Idle
    ensures var t, answer := FetchOnce(s), AnswerTo(s.cursor, s.db);
      && t.cursor == Some(answer.cursor)
      && t.mirror == (if s.told && Full(s.cursor, s.db.deletionSeq) then answer.works else s.mirror + answer.works)
  {
  }

  /** A library of two works, one of them this one member. */
  predicate TwoWorks(db: Store, stays: ItemId, goes: ItemId) {
    && stays in db.items && goes in db.items && db.items[stays].work != db.items[goes].work
    && forall id :: id in db.items && id != goes ==> db.items[id].work == db.items[stays].work
  }

  function GoesAndChanges(db: Store, stays: ItemId, goes: ItemId, content: Content): Store
    requires stays in db.items
  {
    Apply(Apply(db, Delete({goes})), Upsert(stays, db.items[stays].work, content))
  }

  function ChangesTwice(db: Store, stays: ItemId, content: Content): Store
    requires stays in db.items
  {
    Apply(Apply(db, Upsert(stays, db.items[stays].work, content)), Upsert(stays, db.items[stays].work, content))
  }

  /** After either the same rows are left of the work that stays. */
  lemma SameWorkStays(db: Store, stays: ItemId, goes: ItemId, content: Content)
    requires TwoWorks(db, stays, goes)
    ensures var work, gone, changed := db.items[stays].work, GoesAndChanges(db, stays, goes, content), ChangesTwice(db, stays, content);
      WorkOf(gone.items, gone.positions, work) == WorkOf(changed.items, changed.positions, work)
  {
    var gone, changed := GoesAndChanges(db, stays, goes, content), ChangesTwice(db, stays, content);
    var work := db.items[stays].work;
    assert {goes} * db.items.Keys == {goes};
    assert gone.items[stays] == changed.items[stays];
    assert WorkOf(gone.items, gone.positions, work).items == WorkOf(changed.items, changed.positions, work).items;
  }

  /** And the other is gone after the one, and as it was after the other. */
  lemma OneWorkGoes(db: Store, stays: ItemId, goes: ItemId, content: Content)
    requires TwoWorks(db, stays, goes)
    ensures var gone, changed := GoesAndChanges(db, stays, goes, content), ChangesTwice(db, stays, content);
      && Works(gone.items) == {db.items[stays].work} && Works(changed.items) == {db.items[stays].work, db.items[goes].work}
      && goes !in gone.items && gone.deletionSeq > db.libSeq && changed.deletionSeq == db.deletionSeq
  {
    var gone, changed := GoesAndChanges(db, stays, goes, content), ChangesTwice(db, stays, content);
    assert {goes} * db.items.Keys == {goes};
    assert stays in gone.items && stays in changed.items && goes in changed.items;
  }

  lemma OtherWorkAsItWas(db: Store, stays: ItemId, goes: ItemId, content: Content)
    requires TwoWorks(db, stays, goes)
    ensures var work, left, changed := db.items[stays].work, db.items[goes].work, ChangesTwice(db, stays, content);
      && WorkOf(changed.items, changed.positions, left) == WorkOf(db.items, db.positions, left)
      && stays in WorkOf(changed.items, changed.positions, work).items && changed.items[stays].seq_ == db.libSeq + 2
  {
    var changed, left := ChangesTwice(db, stays, content), db.items[goes].work;
    assert WorkOf(changed.items, changed.positions, left).items == WorkOf(db.items, db.positions, left).items;
  }

  /** A full answer looks like any other. Of two works the one's only member goes and the other
      changes, or the other changes twice and nothing goes: the answers are the same, cursor and
      works. So whatever a caught-up client makes of the answers it is sent, it holds a member
      that has gone or has dropped one that is there. */
  lemma NoClientCanTell(
    s: State, stays: ItemId, goes: ItemId, content: Content,
    client: (map<WorkKey, WorkDoc>, Answer) -> map<WorkKey, WorkDoc>)
    requires CaughtUp(s) && TwoWorks(s.db, stays, goes)
    ensures var left, gone, changed := s.db.items[goes].work, GoesAndChanges(s.db, stays, goes, content), ChangesTwice(s.db, stays, content);
      && AnswerTo(s.cursor, gone) == AnswerTo(s.cursor, changed)
      && !Live(gone, left, goes) && Live(changed, left, goes)
      && var after, otherwise := client(s.mirror, AnswerTo(s.cursor, gone)), client(s.mirror, AnswerTo(s.cursor, changed));
         (left in after && goes in after[left].items) || !(left in otherwise && goes in otherwise[left].items)
  {
    var gone, changed := GoesAndChanges(s.db, stays, goes, content), ChangesTwice(s.db, stays, content);
    SameWorkStays(s.db, stays, goes, content);
    OneWorkGoes(s.db, stays, goes, content);
    OtherWorkAsItWas(s.db, stays, goes, content);
    assert !Changed(WorkOf(s.db.items, s.db.positions, s.db.items[goes].work), s.cursor.value);
    assert AnswerTo(s.cursor, gone).works == AnswerTo(s.cursor, changed).works;
  }

  /** Every place the client holds is a row of the store, as it stands or from before. */
  ghost predicate NoGhostPlaces(s: State) {
    forall w, key :: w in s.mirror && key in s.mirror[w].positions ==>
      key in s.db.positions
      && (s.mirror[w].positions[key] == s.db.positions[key] || s.mirror[w].positions[key].seq_ < s.db.positions[key].seq_)
  }

  /** And none of them is from after the store's counter. */
  predicate HeldStamped(s: State) {
    forall w, key :: w in s.mirror && key in s.mirror[w].positions ==> s.mirror[w].positions[key].seq_ <= s.db.stateSeq
  }

  lemma WriteLeavesNoGhostPlace(s: State, w: Write)
    requires Stamped(s.db) && NoGhostPlaces(s) && HeldStamped(s) && !w.ClearPlace?
    ensures NoGhostPlaces(s.(db := Apply(s.db, w))) && HeldStamped(s.(db := Apply(s.db, w)))
  {
  }

  lemma AnswerLeavesNoGhostPlace(s: State)
    requires Stamped(s.db) && NoGhostPlaces(s) && HeldStamped(s) && s.fetch.GotItems?
    ensures NoGhostPlaces(Read(s)) && HeldStamped(Read(s))
  {
    var t, answer := Read(s), Feed(s.fetch.items, s.db.positions, s.cursor, s.fetch.deletionSeq);
    forall w, key | w in t.mirror && key in t.mirror[w].positions
      ensures w in answer ==> key in s.db.positions && t.mirror[w].positions[key] == s.db.positions[key]
      ensures w !in answer ==> w in s.mirror && t.mirror[w] == s.mirror[w]
    {
    }
  }

  lemma StepLeavesNoGhostPlace(s: State, a: Action)
    requires Stamped(s.db) && NoGhostPlaces(s) && HeldStamped(s) && !(a.Writes? && a.w.ClearPlace?)
    ensures NoGhostPlaces(Step(s, a)) && HeldStamped(Step(s, a))
  {
    if a.Writes? {
      WriteLeavesNoGhostPlace(s, a.w);
    } else if a.Reads? && s.fetch.GotItems? {
      AnswerLeavesNoGhostPlace(s);
    } else {
      assert Step(s, a).mirror == s.mirror && Step(s, a).db == s.db;
    }
  }

  /** In every run in which no place is cleared, every place the client holds is a live row. */
  lemma {:induction false} NoGhostPlaceInAnyRun(s: State, actions: seq<Action>)
    requires Fresh(s)
    requires forall i :: 0 <= i < |actions| ==> !(actions[i].Writes? && actions[i].w.ClearPlace?)
    ensures NoGhostPlaces(Run(s, actions)) && HeldStamped(Run(s, actions))
  {
    if actions != [] {
      var before := actions[..|actions| - 1];
      assert forall i :: 0 <= i < |before| ==> before[i] == actions[i];
      NoGhostPlaceInAnyRun(s, before);
      NoGapInAnyRun(s, before);
      StepLeavesNoGhostPlace(Run(s, before), actions[|actions| - 1]);
    }
  }

  /** A row moved to another work stamps itself and not the work it left, so a client that
      was caught up goes on holding it there too. */
  lemma RegroupedRowIsHeldTwice(s: State, id: ItemId, work: WorkKey, content: Content)
    requires CaughtUp(s) && id in s.db.items && s.db.items[id].work != work && s.db.items[id].work in s.mirror
    ensures var t := FetchOnce(Step(s, Writes(Upsert(id, work, content))));
      && t.mirror[s.db.items[id].work] == s.mirror[s.db.items[id].work]
      && work in t.mirror && id in t.mirror[work].items
  {
    var db := Apply(s.db, Upsert(id, work, content));
    var left := s.db.items[id].work;
    assert work in Works(db.items) && Changed(WorkOf(db.items, db.positions, work), s.cursor.value) by {
      assert id in WorkOf(db.items, db.positions, work).items;
    }
    assert !Changed(WorkOf(db.items, db.positions, left), s.cursor.value);
  }
}
