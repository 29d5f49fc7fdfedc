/** Every request that touches a session, as the small program it is: one locked registry call
    or one store write at a time, any other request's steps between them. */
module SittingMachine {
  import opened Options
  import opened Marks
  import opened Registry
  import opened Runs

  type RequestId = nat
  type Place = real
  type PlaceKey = (ItemId, string)

  /** The library while the runs go on: which work an item is of, and a work's playing order. */
  datatype Library = Library(work: map<ItemId, string>, members: map<string, seq<ItemId>>) {
    predicate Sound() {
      && (forall i :: i in work ==> work[i] != "" && work[i] in members && i in members[work[i]])
      && (forall w :: w in members ==> w != "" && Distinct(members[w]))
    }

    /** "" when the works could not be built, or hold no such item. */
    function WorkKey(item: ItemId, built: bool): string {
      if built && item in work then work[item] else ""
    }

    /** memberOrder, of no work at all when the works could not be built. */
    function Order(item: ItemId, built: bool): seq<ItemId> {
      if built && item in work && work[item] in members then members[work[item]] else []
    }
  }

  /** Where one request has got to. */
  datatype Thread =
    | ProgressWrite(id: SessionId, row: Row, place: Place, client: string)
    | BareWrite(item: ItemId, client: string, write: Option<Place>, checkedAt: nat)
    | ForgetWrite(left: seq<ItemId>, client: string)
    | KeepUpdate(id: SessionId)
    | InheritMarks(row: Row)
    | StartPut(row: Row)
    | MarkUpdate(id: SessionId, item: ItemId, kind: Kind, clear: bool, seconds: real, order: seq<ItemId>)
    | MarkRemember(row: Row)
    | StopRemember(row: Row)

  datatype State = State(
    reg: Registry, places: map<PlaceKey, Place>, threads: map<RequestId, Thread>,
    now: int, steps: nat, born: map<SessionId, nat>)

  const START := State(Registry(map[], map[]), map[], map[], 0, 0, map[])

  datatype Request =
    | Doc(id: SessionId)
    | Progress(id: SessionId, place: Place, body: string)  // POST /api/sessions/{id}/progress
    | Bare(item: ItemId, client: string, write: Option<Place>)  // POST /api/progress, POST …/watched
    | Forget(item: ItemId, client: string)  // DELETE /api/progress
    | Keep(id: SessionId)
    | Play(item: ItemId, client: string, passage: Option<SessionPassage>, pipeline: string, built: bool)
    | ReadBook(item: ItemId, client: string, passage: Option<SessionPassage>, built: bool)
    | Next(id: SessionId, item: ItemId, pipeline: string, built: bool)
    | MarkEnd(id: SessionId, kind: Kind, clear: bool, seconds: real, built: bool)
    | Stop(id: SessionId)

  datatype Action =
    | Tick(elapsed: nat)
    | Reaper(live: set<string>)
    | Ask(r: RequestId, request: Request)
    | Go(r: RequestId, newId: SessionId)  // the next step of a request under way
    | Die(r: RequestId)  // the request ends where it is

  function NewRow(lib: Library, item: ItemId, client: string, reading: bool, pipeline: string,
                  passage: Option<SessionPassage>, built: bool): Row {
    Row(item, client, lib.WorkKey(item, built), reading, pipeline, passage, UNMARKED, 0)
  }

  /** What one press forgets: every member of the item's work, or the item when it is in none. */
  function Forgettable(lib: Library, item: ItemId): seq<ItemId> {
    if item in lib.work && lib.work[item] in lib.members then lib.members[lib.work[item]] else [item]
  }

  /** A request's first call on the registry: most touch the row they are about. */
  function Look(reg: Registry, q: Request, now: int): Registry {
    match q
    case Doc(id) => Touch(reg, id, now)
    case Progress(id, _, _) => Touch(reg, id, now)
    case Keep(id) => Touch(reg, id, now)
    case Next(id, _, _, _) => Touch(reg, id, now)
    case MarkEnd(id, _, _, _, _) => Touch(reg, id, now)
    case Stop(id) => DropRow(reg, id)
    case _ => reg
  }

  /** What the request goes on to do, if it is not over: a session that is not there and a
      passage that is on both end it. */
  function Start(lib: Library, s: State, q: Request): Option<Thread> {
    match q
    case Doc(_) => None
    case Progress(id, place, body) =>
      if id !in s.reg.rows || s.reg.rows[id].passage.Some? then None else
      var row := s.reg.rows[id];
      Some(ProgressWrite(id, row, place, if row.client == "" then body else row.client))
    case Bare(item, client, write) =>
      if PassageOn(s.reg, item, client) then None else Some(BareWrite(item, client, write, s.steps))
    case Forget(item, client) => Some(ForgetWrite(Forgettable(lib, item), client))
    case Keep(id) => if id in s.reg.rows then Some(KeepUpdate(id)) else None
    case Play(item, client, passage, pipeline, built) =>
      Some(InheritMarks(NewRow(lib, item, client, false, pipeline, passage, built)))
    case ReadBook(item, client, passage, built) =>
      Some(StartPut(NewRow(lib, item, client, true, "", passage, built)))
    case Next(id, item, pipeline, built) =>
      if id !in s.reg.rows then None else
      var row := s.reg.rows[id];
      Some(InheritMarks(NewRow(lib, item, row.client, false, pipeline, PassageForNext(row.passage, item), built)))
    case MarkEnd(id, kind, clear, seconds, built) =>
      if id !in s.reg.rows then None else
      var item := s.reg.rows[id].item;
      Some(MarkUpdate(id, item, kind, clear, seconds, lib.Order(item, built)))
    case Stop(id) => if id in s.reg.rows then Some(StopRemember(s.reg.rows[id])) else None
  }

  function Spawn(s: State, r: RequestId, th: Option<Thread>): State {
    if th.Some? then s.(threads := s.threads[r := th.value]) else s
  }

  function Marked(m: MarkChange): Row -> Row {
    (row: Row) => row.(marks :=
      if m.clear then ClearMark(row.marks, m.kind) else SetMark(row.marks, m.kind, m.at, m.order))
  }

  datatype MarkChange = MarkChange(kind: Kind, clear: bool, at: Mark, order: seq<ItemId>)

  function Unpassaged(): Row -> Row {
    (row: Row) => row.(passage := None)
  }

  function Done(s: State, r: RequestId): State {
    s.(threads := s.threads - {r})
  }

  /** Every later step. */
  function Advance(s: State, r: RequestId, th: Thread, newId: SessionId): State {
    match th
    case ProgressWrite(id, row, place, client) =>
      Done(s.(places := s.places[(row.item, client) := place]), r)
    case BareWrite(item, client, write, _) =>
      Done(s.(places := if write.Some? then s.places[(item, client) := write.value] else s.places - {(item, client)}), r)
    case ForgetWrite(left, client) =>
      if left == [] then Done(s, r)
      else Spawn(s.(places := s.places - {(left[0], client)}), r, Some(ForgetWrite(left[1..], client)))
    case KeepUpdate(id) => Done(s.(reg := Update(s.reg, id, Unpassaged(), s.now)), r)
    case InheritMarks(row) => Spawn(s, r, Some(StartPut(row.(marks := MarksInWork(s.reg, KeyOf(row), s.now)))))
    case StartPut(row) =>
      if newId in s.born then s
      else Done(s.(reg := Put(s.reg, newId, row, s.now), born := s.born[newId := s.steps]), r)
    case MarkUpdate(id, item, kind, clear, seconds, order) =>
      if id !in s.reg.rows then Done(s, r) else
      var reg := Update(s.reg, id, Marked(MarkChange(kind, clear, Mark(item, seconds), order)), s.now);
      Spawn(s.(reg := reg), r, Some(MarkRemember(reg.rows[id])))
    case MarkRemember(row) => Done(s.(reg := Remember(s.reg, row, s.now)), r)
    case StopRemember(row) => Done(s.(reg := Remember(s.reg, row, s.now)), r)
  }

  function Step(lib: Library, s: State, a: Action): State {
    var s := s.(steps := s.steps + 1);
    match a
    case Tick(elapsed) => s.(now := s.now + elapsed)
    case Reaper(live) => s.(reg := Reap(s.reg, s.now, live))
    case Die(r) => Done(s, r)
    case Ask(r, q) =>
      if r in s.threads then s else Spawn(s.(reg := Look(s.reg, q, s.now)), r, Start(lib, s, q))
    case Go(r, newId) => if r in s.threads then Advance(s, r, s.threads[r], newId) else s
  }

  function Run(lib: Library, s: State, actions: seq<Action>): State {
    if actions == [] then s else Step(lib, Run(lib, s, actions[..|actions| - 1]), actions[|actions| - 1])
  }

  lemma RunOneMore(lib: Library, s: State, actions: seq<Action>, a: Action)
    ensures Run(lib, s, actions + [a]) == Step(lib, Run(lib, s, actions), a)
  {
    assert (actions + [a])[..|actions|] == actions;
  }
}
