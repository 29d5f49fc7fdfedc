/** What each request comes to when nothing else goes on meanwhile (cmd/server/session.go, main.go,
    continue.go): the whole of the state after it. */
module Requests {
  import opened Options
  import opened Marks
  import opened Registry
  import opened SittingMachine

  /** The request asked, and then so many steps of it. */
  function Served(lib: Library, s: State, r: RequestId, q: Request, turns: nat, newId: SessionId): State {
    if turns == 0 then Step(lib, s, Ask(r, q)) else Step(lib, Served(lib, s, r, q, turns - 1, newId), Go(r, newId))
  }

  /** Nothing but the clock of steps has changed. */
  predicate Idle(s: State, t: State) {
    t.places == s.places && t.threads == s.threads && t.now == s.now && t.born == s.born && t.reg.memos == s.reg.memos
  }

  /** A row that is there, as it was but for being touched now. */
  predicate Touched(s: State, t: State, id: SessionId) {
    id in s.reg.rows && t.reg.rows == s.reg.rows[id := s.reg.rows[id].(touched := s.now)]
  }

  /** A session's progress: refused while its passage is on, and otherwise stored as it was sent,
      for the row's own profile, or the body's when the row has none. */
  lemma ProgressComesTo(lib: Library, s: State, r: RequestId, id: SessionId, place: Place, body: string, newId: SessionId)
    requires r !in s.threads && id in s.reg.rows
    ensures var row, asked := s.reg.rows[id], Served(lib, s, r, Progress(id, place, body), 0, newId);
      var t := Served(lib, s, r, Progress(id, place, body), 1, newId);
      && (row.passage.Some? ==> Idle(s, asked) && Touched(s, asked, id))
      && (row.passage.None? ==>
            && t.places == s.places[(row.item, if row.client != "" then row.client else body) := place]
            && Idle(s, t.(places := s.places)) && Touched(s, t, id))
  {
  }

  /** A write outside sessions: refused while any session holds the pair under a passage, and
      otherwise stored, or taken away. */
  lemma BareComesTo(lib: Library, s: State, r: RequestId, item: ItemId, client: string, write: Option<Place>, newId: SessionId)
    requires r !in s.threads
    ensures var asked, t := Served(lib, s, r, Bare(item, client, write), 0, newId), Served(lib, s, r, Bare(item, client, write), 1, newId);
      var on := exists id ::
        id in s.reg.rows && s.reg.rows[id].item == item && s.reg.rows[id].client == client && s.reg.rows[id].passage.Some?;
      && (on ==> Idle(s, asked) && asked.reg == s.reg)
      && (!on ==>
            && t.places == (if write == None then s.places - {(item, client)} else s.places[(item, client) := write.value])
            && Idle(s, t.(places := s.places)) && t.reg == s.reg)
  {
  }

  /** Keep watching: the passage comes off the row, and nothing else changes. */
  lemma KeepComesTo(lib: Library, s: State, r: RequestId, id: SessionId, newId: SessionId)
    requires r !in s.threads && id in s.reg.rows
    ensures var t := Served(lib, s, r, Keep(id), 1, newId);
      Idle(s, t) && t.reg.rows == s.reg.rows[id := s.reg.rows[id].(passage := None, touched := s.now)]
  {
  }

  /** The marks a new row starts with: those remembered of its profile in its work, for two
      minutes. */
  function Bridged(s: State, client: string, work: string): MarkPair {
    if work != "" && (client, work) in s.reg.memos && s.now <= s.reg.memos[(client, work)].at + 120_000
    then s.reg.memos[(client, work)].marks else MarkPair(None, None)
  }

  function WorkNamed(lib: Library, item: ItemId, built: bool): string {
    if built && item in lib.work then lib.work[item] else ""
  }

  /** A row on its way in: its marks, and then the row itself. */
  lemma RowComesIn(lib: Library, s: State, r: RequestId, row: Row, newId: SessionId)
    requires r in s.threads && s.threads[r] == InheritMarks(row) && newId !in s.born
    ensures var t := Step(lib, Step(lib, s, Go(r, newId)), Go(r, newId));
      && t.places == s.places && t.threads == s.threads - {r} && t.now == s.now && t.reg.memos == s.reg.memos
      && t.born.Keys == s.born.Keys + {newId}
      && t.reg.rows == s.reg.rows[newId := row.(marks := Bridged(s, row.client, row.work), touched := s.now)]
  {
    assert Step(lib, s, Go(r, newId)).threads[r] == StartPut(row.(marks := Bridged(s, row.client, row.work)));
  }

  /** A play starts one row under a new id, with the passage asked for and the marks left over. */
  lemma PlayComesTo(
    lib: Library, s: State, r: RequestId, item: ItemId, client: string, passage: Option<SessionPassage>,
    pipeline: string, built: bool, newId: SessionId)
    requires r !in s.threads && newId !in s.born
    ensures var t, work := Served(lib, s, r, Play(item, client, passage, pipeline, built), 2, newId), WorkNamed(lib, item, built);
      && Idle(s, t.(born := s.born)) && t.born.Keys == s.born.Keys + {newId}
      && t.reg.rows == s.reg.rows[newId := Row(item, client, work, false, pipeline, passage, Bridged(s, client, work), s.now)]
  {
    var asked := Served(lib, s, r, Play(item, client, passage, pipeline, built), 0, newId);
    RowComesIn(lib, asked, r, asked.threads[r].row, newId);
    assert asked.threads - {r} == s.threads;
  }

  /** And reading a book one that reads, with no marks. */
  lemma ReadingComesTo(
    lib: Library, s: State, r: RequestId, item: ItemId, client: string, passage: Option<SessionPassage>, built: bool,
    newId: SessionId)
    requires r !in s.threads && newId !in s.born
    ensures var t, work := Served(lib, s, r, ReadBook(item, client, passage, built), 1, newId), WorkNamed(lib, item, built);
      && Idle(s, t.(born := s.born)) && t.born.Keys == s.born.Keys + {newId}
      && t.reg.rows == s.reg.rows[newId := Row(item, client, work, true, "", passage, MarkPair(None, None), s.now)]
  {
  }

  /** Next: a row for the same profile, whose passage keeps `until` and `end` alone; the row it is
      asked of stays, touched. */
  lemma NextComesTo(
    lib: Library, s: State, r: RequestId, id: SessionId, item: ItemId, pipeline: string, built: bool, newId: SessionId)
    requires r !in s.threads && newId !in s.born && id in s.reg.rows && id != newId
    ensures var t, row := Served(lib, s, r, Next(id, item, pipeline, built), 2, newId), s.reg.rows[id];
      var work := WorkNamed(lib, item, built);
      var passage := if row.passage.None? || row.passage.value.until.None? then None else
        var p := row.passage.value;
        Some(SessionPassage(None, p.end, p.until, "", "", if p.until == Some(item) then p.end else None));
      && Idle(s, t.(born := s.born)) && t.born.Keys == s.born.Keys + {newId}
      && t.reg.rows == s.reg.rows[id := row.(touched := s.now)]
           [newId := Row(item, row.client, work, false, pipeline, passage, Bridged(s, row.client, work), s.now)]
  {
    var asked := Served(lib, s, r, Next(id, item, pipeline, built), 0, newId);
    RowComesIn(lib, asked, r, asked.threads[r].row, newId);
    assert asked.threads - {r} == s.threads;
  }

  /** What is remembered once a row with these marks is: them, or nothing when it has none, and of
      no work nothing changes. */
  predicate RemembersOnly(s: State, t: State, client: string, work: string, marks: MarkPair) {
    t.reg.memos ==
      if work == "" then s.reg.memos
      else if marks == MarkPair(None, None) then s.reg.memos - {(client, work)}
      else s.reg.memos[(client, work) := Memo(marks, s.now)]
  }

  /** One end set or cleared. */
  function MarksAfter(m: MarkPair, kind: Kind, clear: bool, at: Mark, order: seq<ItemId>): MarkPair {
    if !clear then SetMark(m, kind, at, order)
    else if kind == In then MarkPair(None, m.markOut) else MarkPair(m.markIn, None)
  }

  lemma MarkIsOn(
    lib: Library, s: State, r: RequestId, id: SessionId, item: ItemId, kind: Kind, clear: bool, seconds: real,
    order: seq<ItemId>, newId: SessionId)
    requires r in s.threads && s.threads[r] == MarkUpdate(id, item, kind, clear, seconds, order) && id in s.reg.rows
    ensures var row := s.reg.rows[id].(marks := MarksAfter(s.reg.rows[id].marks, kind, clear, Mark(item, seconds), order), touched := s.now);
      Step(lib, s, Go(r, newId)) ==
        s.(steps := s.steps + 1, reg := s.reg.(rows := s.reg.rows[id := row]), threads := s.threads[r := MarkRemember(row)])
  {
  }

  lemma MarkGoesIn(
    lib: Library, s: State, r: RequestId, id: SessionId, item: ItemId, kind: Kind, clear: bool, seconds: real,
    order: seq<ItemId>, newId: SessionId)
    requires r in s.threads && s.threads[r] == MarkUpdate(id, item, kind, clear, seconds, order) && id in s.reg.rows
    ensures var t, row := Step(lib, Step(lib, s, Go(r, newId)), Go(r, newId)), s.reg.rows[id];
      var marks := MarksAfter(row.marks, kind, clear, Mark(item, seconds), order);
      && t.places == s.places && t.threads == s.threads - {r} && t.now == s.now && t.born == s.born
      && t.reg.rows == s.reg.rows[id := row.(marks := marks, touched := s.now)]
      && RemembersOnly(s, t, row.client, row.work, marks)
  {
    MarkIsOn(lib, s, r, id, item, kind, clear, seconds, order, newId);
  }

  /** A mark: on the row and in the memo, one end of the pair as SetMark has it, or cleared. */
  lemma MarkComesTo(
    lib: Library, s: State, r: RequestId, id: SessionId, kind: Kind, clear: bool, seconds: real, built: bool, newId: SessionId)
    requires r !in s.threads && id in s.reg.rows
    ensures var t, row := Served(lib, s, r, MarkEnd(id, kind, clear, seconds, built), 2, newId), s.reg.rows[id];
      var order := if built && row.item in lib.work && lib.work[row.item] in lib.members then lib.members[lib.work[row.item]] else [];
      var marks := MarksAfter(row.marks, kind, clear, Mark(row.item, seconds), order);
      && t.places == s.places && t.threads == s.threads && t.now == s.now && t.born == s.born
      && t.reg.rows == s.reg.rows[id := row.(marks := marks, touched := s.now)]
      && RemembersOnly(s, t, row.client, row.work, marks)
  {
    var asked := Served(lib, s, r, MarkEnd(id, kind, clear, seconds, built), 0, newId);
    var MarkUpdate(_, item, _, _, _, order) := asked.threads[r];
    MarkGoesIn(lib, asked, r, id, item, kind, clear, seconds, order, newId);
    assert asked.threads - {r} == s.threads;
  }

  /** A stop: the row goes, and its marks are remembered. */
  lemma StopComesTo(lib: Library, s: State, r: RequestId, id: SessionId, newId: SessionId)
    requires r !in s.threads && id in s.reg.rows
    ensures var t, row := Served(lib, s, r, Stop(id), 1, newId), s.reg.rows[id];
      && t.places == s.places && t.threads == s.threads && t.now == s.now && t.born == s.born
      && t.reg.rows == s.reg.rows - {id} && RemembersOnly(s, t, row.client, row.work, row.marks)
  {
  }

  /** Asking after a session touches it. */
  lemma DocComesTo(lib: Library, s: State, r: RequestId, id: SessionId)
    requires r !in s.threads && id in s.reg.rows
    ensures var t := Step(lib, s, Ask(r, Doc(id))); Idle(s, t) && Touched(s, t, id)
  {
  }

  /** The request was of a session that is not there. */
  predicate AsksOf(q: Request, id: SessionId) {
    match q
    case Doc(i) => i == id
    case Progress(i, _, _) => i == id
    case Keep(i) => i == id
    case Next(i, _, _, _) => i == id
    case MarkEnd(i, _, _, _, _) => i == id
    case Stop(i) => i == id
    case _ => false
  }

  lemma NoSuchSession(lib: Library, s: State, r: RequestId, q: Request, id: SessionId)
    requires r !in s.threads && AsksOf(q, id) && id !in s.reg.rows
    ensures var t := Step(lib, s, Ask(r, q)); Idle(s, t) && t.reg == s.reg
  {
    assert s.reg.rows - {id} == s.reg.rows;
  }

  /** What the reaper leaves: a transcode while its stream is live, a book for four hours from the
      last touch, anything else for five minutes; and everything it leaves as it was. */
  lemma ReapedExactly(reg: Registry, now: int, live: set<string>, id: SessionId)
    ensures var left := Reap(reg, now, live);
      && left.memos == reg.memos
      && (id in left.rows <==> id in reg.rows && var row := reg.rows[id];
            if row.pipeline != "" then row.pipeline in live
            else if row.reading then now <= row.touched + 4 * 3600 * 1000
            else now <= row.touched + 5 * 60 * 1000)
      && (id in left.rows ==> left.rows[id] == reg.rows[id])
  {
  }
}
