/** The passage rule over every interleaving of requests: while a passage is on, the place is
    not moved (cmd/server/session.go, main.go, watched.go, continue.go). */
module PassageRule {
  import opened Options
  import opened Marks
  import opened Registry
  import opened SittingMachine

  /** A row is still what a request saw of it: the same play, and no passage come over it. */
  predicate StillClear(s: State, id: SessionId, row: Row) {
    && row.passage.None?
    && id in s.born
    && (id in s.reg.rows ==>
        s.reg.rows[id].passage.None? && s.reg.rows[id].item == row.item && s.reg.rows[id].client == row.client)
  }

  /** Every passage over a pair came after the moment a bare write looked. */
  predicate NoneSince(s: State, item: ItemId, client: string, checkedAt: nat) {
    checkedAt <= s.steps &&
    forall id :: id in s.reg.rows && Holds(s.reg.rows[id], item, client) ==> id in s.born && checkedAt < s.born[id]
  }

  ghost predicate ThreadRule(s: State, th: Thread) {
    match th
    case ProgressWrite(id, row, _, client) => StillClear(s, id, row) && (row.client == "" || client == row.client)
    case BareWrite(item, client, _, checkedAt) => NoneSince(s, item, client, checkedAt)
    case _ => true
  }

  ghost predicate RuleInv(s: State) {
    && s.reg.rows.Keys <= s.born.Keys
    && (forall id :: id in s.born ==> s.born[id] <= s.steps)
    && (forall r :: r in s.threads ==> ThreadRule(s, s.threads[r]))
  }

  /** What a call may do to the rows there are: nothing, a passage taken off, or one gone. */
  predicate OnlyClears(was: map<SessionId, Row>, rows: map<SessionId, Row>) {
    forall id :: id in rows ==>
      && id in was && rows[id].item == was[id].item && rows[id].client == was[id].client
      && (rows[id].passage == was[id].passage || rows[id].passage.None?)
  }

  /** What a step may do: that, and a new row only under an id never used. */
  predicate RowsOnlyClear(s: State, t: State) {
    && s.steps < t.steps
    && (forall id :: id in s.born ==> id in t.born && t.born[id] == s.born[id])
    && (forall id :: id in t.born && id !in s.born ==> t.born[id] == t.steps)
    && OnlyClears(s.reg.rows, map id | id in t.reg.rows && id in s.born :: t.reg.rows[id])
    && (forall id :: id in t.reg.rows && id !in s.born ==> id in t.born && t.born[id] == t.steps)
  }

  lemma OldRowsClear(s: State, t: State)
    requires s.reg.rows.Keys <= s.born.Keys && s.steps < t.steps
    requires t.born == s.born && OnlyClears(s.reg.rows, t.reg.rows)
    ensures RowsOnlyClear(s, t)
  {
  }

  lemma NewRowClear(s: State, t: State, id: SessionId)
    requires s.reg.rows.Keys <= s.born.Keys && s.steps < t.steps && id !in s.born
    requires t.born == s.born[id := t.steps] && id in t.reg.rows && t.reg.rows - {id} == s.reg.rows
    ensures RowsOnlyClear(s, t)
  {
    assert forall i :: i in t.reg.rows && i != id ==> i in t.reg.rows - {id};
  }

  lemma UpdateOnlyClears(reg: Registry, id: SessionId, fn: Row -> Row, now: int)
    requires forall row :: fn(row).item == row.item && fn(row).client == row.client
    requires forall row :: fn(row).passage == row.passage || fn(row).passage.None?
    ensures OnlyClears(reg.rows, Update(reg, id, fn, now).rows)
  {
  }

  lemma AdvanceOnlyClears(s: State, r: RequestId, newId: SessionId)
    requires s.reg.rows.Keys <= s.born.Keys && r in s.threads && 0 < s.steps
    ensures RowsOnlyClear(s.(steps := s.steps - 1), Advance(s, r, s.threads[r], newId))
  {
    var was, t := s.(steps := s.steps - 1), Advance(s, r, s.threads[r], newId);
    match s.threads[r] {
      case StartPut(row) =>
        if newId in s.born { OldRowsClear(was, t); } else { NewRowClear(was, t, newId); }
      case KeepUpdate(id) =>
        UpdateOnlyClears(s.reg, id, Unpassaged(), s.now);
        OldRowsClear(was, t);
      case MarkUpdate(id, item, kind, clear, seconds, order) =>
        UpdateOnlyClears(s.reg, id, Marked(MarkChange(kind, clear, Mark(item, seconds), order)), s.now);
        OldRowsClear(was, t);
      case _ => OldRowsClear(was, t);
    }
  }

  lemma LookOnlyClears(reg: Registry, q: Request, now: int)
    ensures OnlyClears(reg.rows, Look(reg, q, now).rows)
  {
  }

  lemma StepOnlyClears(lib: Library, s: State, a: Action)
    requires s.reg.rows.Keys <= s.born.Keys
    ensures RowsOnlyClear(s, Step(lib, s, a))
  {
    var s' := s.(steps := s.steps + 1);
    if a.Go? && a.r in s'.threads {
      AdvanceOnlyClears(s', a.r, a.newId);
      assert s'.(steps := s'.steps - 1) == s;
    } else {
      OtherStepsOnlyClear(lib, s, a);
      OldRowsClear(s, Step(lib, s, a));
    }
  }

  lemma OtherStepsOnlyClear(lib: Library, s: State, a: Action)
    requires !(a.Go? && a.r in s.threads)
    ensures var t := Step(lib, s, a);
      t.born == s.born && t.steps == s.steps + 1 && OnlyClears(s.reg.rows, t.reg.rows)
  {
    if a.Ask? {
      LookOnlyClears(s.reg, a.request, s.now);
      var t := Step(lib, s, a);
      assert t.reg == s.reg || t.reg == Look(s.reg, a.request, s.now);
    }
  }

  lemma ClearStaysClear(s: State, t: State, th: Thread)
    requires RuleInv(s) && RowsOnlyClear(s, t) && ThreadRule(s, th)
    ensures ThreadRule(t, th)
  {
  }

  lemma AdvanceSpawnsNoWrite(s: State, r: RequestId, newId: SessionId, q: RequestId)
    requires r in s.threads
    ensures var t := Advance(s, r, s.threads[r], newId);
      q in t.threads ==> (q in s.threads && t.threads[q] == s.threads[q]) || !(t.threads[q].ProgressWrite? || t.threads[q].BareWrite?)
  {
  }

  /** A request about to write looked, and saw no passage, in this very step. */
  lemma SpawnedUnderTheRule(lib: Library, s: State, a: Action, q: RequestId)
    requires RuleInv(s)
    ensures var t := Step(lib, s, a);
      q in t.threads ==> (q in s.threads && t.threads[q] == s.threads[q]) || ThreadRule(t, t.threads[q])
  {
    if a.Go? && a.r in s.threads {
      AdvanceSpawnsNoWrite(s.(steps := s.steps + 1), a.r, a.newId, q);
    } else if a.Ask? && a.r !in s.threads && a.r == q {
      AskedUnderTheRule(lib, s, a.r, a.request);
    } else {
      OthersUndisturbed(lib, s, a, q);
    }
  }

  lemma OthersUndisturbed(lib: Library, s: State, a: Action, q: RequestId)
    requires !(a.Go? && a.r in s.threads) && !(a.Ask? && a.r !in s.threads && a.r == q)
    ensures var t := Step(lib, s, a); q in t.threads ==> q in s.threads && t.threads[q] == s.threads[q]
  {
  }

  lemma AskedUnderTheRule(lib: Library, s: State, r: RequestId, q: Request)
    requires RuleInv(s) && r !in s.threads
    ensures var t := Step(lib, s, Ask(r, q));
      r in t.threads ==> ThreadRule(t, t.threads[r])
  {
    var s' := s.(steps := s.steps + 1);
    var th := Start(lib, s', q);
    assert Step(lib, s, Ask(r, q)) == Spawn(s'.(reg := Look(s'.reg, q, s'.now)), r, th);
  }

  lemma RuleStep(lib: Library, s: State, a: Action)
    requires RuleInv(s)
    ensures RuleInv(Step(lib, s, a))
  {
    var t := Step(lib, s, a);
    StepOnlyClears(lib, s, a);
    forall r | r in t.threads
      ensures ThreadRule(t, t.threads[r])
    {
      SpawnedUnderTheRule(lib, s, a, r);
      if r in s.threads && t.threads[r] == s.threads[r] {
        ClearStaysClear(s, t, s.threads[r]);
      }
    }
    assert forall id :: id in t.reg.rows ==> id in t.born;
  }

  lemma {:induction false} RuleOverRuns(lib: Library, actions: seq<Action>)
    ensures RuleInv(Run(lib, START, actions))
  {
    if actions != [] {
      RuleOverRuns(lib, actions[..|actions| - 1]);
      RuleStep(lib, Run(lib, START, actions[..|actions| - 1]), actions[|actions| - 1]);
    }
  }

  // ── the only ways a place moves ───────────────────────────────────────

  predicate Moved(s: State, t: State, key: PlaceKey) {
    if key in s.places && key in t.places then s.places[key] != t.places[key] else key in s.places || key in t.places
  }

  /** What the step under way at `r` may do to one profile's place in one item. */
  ghost predicate MayMove(s: State, r: RequestId, item: ItemId, client: string) {
    r in s.threads && match s.threads[r]
      case ProgressWrite(id, row, _, to) =>
        row.item == item && to == client && row.client in ["", client] && StillClear(s, id, row)
      case BareWrite(i, c, _, checkedAt) => i == item && c == client && NoneSince(s, item, client, checkedAt)
      case ForgetWrite(left, c) => left != [] && left[0] == item && c == client
      case _ => false
  }

  /** In every run, whatever the interleaving, a place moves only by a session's progress
      write, that session's own row carrying no passage at the very moment of the store
      write; by a write outside any session, no passage having been over the pair when it
      looked and every one there is now having come after; or by a place being forgotten. */
  lemma OnlyWaysAPlaceMoves(lib: Library, actions: seq<Action>, a: Action, item: ItemId, client: string)
    ensures var s := Run(lib, START, actions);
      Moved(s, Step(lib, s, a), (item, client)) ==> a.Go? && MayMove(s, a.r, item, client)
  {
    RuleOverRuns(lib, actions);
  }

  /** A write outside a session that comes straight after its own look, nothing between
      them, finds no passage over the place it moves. */
  lemma BareWriteAsOneStep(lib: Library, actions: seq<Action>, r: RequestId)
    ensures var s := Run(lib, START, actions);
      (r in s.threads && s.threads[r].BareWrite? && s.threads[r].checkedAt == s.steps) ==>
        !PassageOn(s.reg, s.threads[r].item, s.threads[r].client)
  {
    RuleOverRuns(lib, actions);
  }

  // ── each of the exceptions happens ────────────────────────────────────

  const SCENE := SessionPassage(Some(10.0), Some(20.0), None, "", "", Some(20.0))
  const NO_LIBRARY := Library(map[], map[])

  /** The place (1, "ann") moves on the last step of a run, a passage being over it. */
  predicate MovesUnderPassage(actions: seq<Action>) {
    && actions != []
    && var s := Run(NO_LIBRARY, START, actions[..|actions| - 1]);
       PassageOn(s.reg, 1, "ann") && Moved(s, Step(NO_LIBRARY, s, actions[|actions| - 1]), (1, "ann"))
  }

  lemma RunOfThree(lib: Library, a: Action, b: Action, c: Action)
    ensures Run(lib, START, [a, b, c]) == Step(lib, Step(lib, Step(lib, START, a), b), c)
  {
    assert [a, b, c][..2] == [a, b] && [a, b][..1] == [a] && [a][..0] == [];
    assert Run(lib, START, [a, b]) == Step(lib, Run(lib, START, [a]), b);
  }

  /** A play under a passage that starts between a bare write's look and its write. */
  lemma BareWriteRaces()
    ensures MovesUnderPassage(
      [Ask(0, Bare(1, "ann", Some(5.0))), Ask(1, ReadBook(1, "ann", Some(SCENE), true)), Go(1, "b"), Go(0, "")])
  {
    var look, open, start, write :=
      Ask(0, Bare(1, "ann", Some(5.0))), Ask(1, ReadBook(1, "ann", Some(SCENE), true)), Go(1, "b"), Go(0, "");
    assert [look, open, start, write][..3] == [look, open, start];
    RunOfThree(NO_LIBRARY, look, open, start);
    var s1 := Step(NO_LIBRARY, START, look);
    var s2 := Step(NO_LIBRARY, s1, open);
    var s3 := Step(NO_LIBRARY, s2, start);
    assert s3.threads[0] == BareWrite(1, "ann", Some(5.0), 1);
    assert "b" in s3.reg.rows && Holds(s3.reg.rows["b"], 1, "ann");
  }

  function Opened(s: State, r: RequestId, id: SessionId, passage: Option<SessionPassage>): State {
    Step(NO_LIBRARY, Step(NO_LIBRARY, s, Ask(r, ReadBook(1, "ann", passage, true))), Go(r, id))
  }

  lemma OpenedHolds(s: State, r: RequestId, id: SessionId, passage: Option<SessionPassage>)
    requires r !in s.threads && id !in s.born
    ensures var t := Opened(s, r, id, passage);
      && t.threads == s.threads && t.places == s.places && t.born.Keys == s.born.Keys + {id}
      && t.reg.rows == s.reg.rows[id := Row(1, "ann", "", true, "", passage, UNMARKED, s.now)]
  {
  }

  /** A second session of the same item and profile, with no passage of its own. */
  lemma SecondSessionMoves()
    ensures MovesUnderPassage(
      [Ask(0, ReadBook(1, "ann", Some(SCENE), true)), Go(0, "b"), Ask(1, ReadBook(1, "ann", None, true)), Go(1, "c"),
       Ask(2, Progress("c", 5.0, "")), Go(2, "")])
  {
    var a, b, c, d, look, write := Ask(0, ReadBook(1, "ann", Some(SCENE), true)), Go(0, "b"),
      Ask(1, ReadBook(1, "ann", None, true)), Go(1, "c"), Ask(2, Progress("c", 5.0, "")), Go(2, "");
    assert [a, b, c, d, look, write][..5] == [a, b, c, d, look];
    RunOfThree(NO_LIBRARY, a, b, c);
    RunOneMore(NO_LIBRARY, START, [a, b, c], d);
    RunOneMore(NO_LIBRARY, START, [a, b, c, d], look);
    assert [a, b, c] + [d] == [a, b, c, d] && [a, b, c, d] + [look] == [a, b, c, d, look];
    OpenedHolds(START, 0, "b", Some(SCENE));
    var s2 := Opened(START, 0, "b", Some(SCENE));
    OpenedHolds(s2, 1, "c", None);
    ProgressMoves(Opened(s2, 1, "c", None));
  }

  lemma ProgressMoves(s: State)
    requires 2 !in s.threads && s.places == map[]
    requires "b" in s.reg.rows && Holds(s.reg.rows["b"], 1, "ann")
    requires "c" in s.reg.rows && s.reg.rows["c"].passage.None? && s.reg.rows["c"].item == 1 && s.reg.rows["c"].client == "ann"
    ensures var t := Step(NO_LIBRARY, s, Ask(2, Progress("c", 5.0, "")));
      PassageOn(t.reg, 1, "ann") && Moved(t, Step(NO_LIBRARY, t, Go(2, "")), (1, "ann"))
  {
    var t := Step(NO_LIBRARY, s, Ask(2, Progress("c", 5.0, "")));
    assert t.reg.rows["b"] == s.reg.rows["b"];
  }

  /** A request's next `k` steps, nothing else's between them. */
  function GoOn(lib: Library, s: State, r: RequestId, k: nat): State {
    if k == 0 then s else Step(lib, GoOn(lib, s, r, k - 1), Go(r, ""))
  }

  /** Nothing but these members' places of this profile's are touched. */
  ghost predicate OnlyForgets(s: State, t: State, gone: seq<ItemId>, client: string) {
    forall key: PlaceKey :: !(key.0 in gone && key.1 == client) ==>
      (key in t.places <==> key in s.places) && (key in s.places ==> t.places[key] == s.places[key])
  }

  lemma ForgetsOne(lib: Library, s: State, r: RequestId, left: seq<ItemId>, client: string)
    requires r in s.threads && s.threads[r] == ForgetWrite(left, client) && left != []
    ensures var t := Step(lib, s, Go(r, ""));
      && r in t.threads && t.threads[r] == ForgetWrite(left[1..], client) && t.reg == s.reg
      && OnlyForgets(s, t, [left[0]], client)
  {
  }

  lemma {:induction false} ForgetsInOrder(lib: Library, s: State, r: RequestId, left: seq<ItemId>, client: string, k: nat)
    requires r in s.threads && s.threads[r] == ForgetWrite(left, client) && k <= |left|
    ensures var t := GoOn(lib, s, r, k);
      && r in t.threads && t.threads[r] == ForgetWrite(left[k..], client) && t.reg == s.reg
      && OnlyForgets(s, t, left[..k], client)
  {
    if k > 0 {
      ForgetsInOrder(lib, s, r, left, client, k - 1);
      ForgetsOne(lib, GoOn(lib, s, r, k - 1), r, left[k - 1..], client);
      assert left[k - 1..][1..] == left[k..] && left[k - 1..][0] == left[k - 1];
      assert left[..k] == left[..k - 1] + [left[k - 1]];
    }
  }

  /** Forgetting asks after no passage at all: from any state, of any item and profile, each
      place there is among the work's members goes when its turn comes, passage or no. */
  lemma ForgettingMoves(lib: Library, s: State, r: RequestId, item: ItemId, client: string, k: nat)
    requires lib.Sound() && r !in s.threads && k < |Forgettable(lib, item)|
    requires var member := Forgettable(lib, item)[k];
      (member, client) in s.places && PassageOn(s.reg, member, client)
    ensures var member := Forgettable(lib, item)[k];
      var t := GoOn(lib, Step(lib, s, Ask(r, Forget(item, client))), r, k);
      PassageOn(t.reg, member, client) && Moved(t, Step(lib, t, Go(r, "")), (member, client))
  {
    var left := Forgettable(lib, item);
    var asked := Step(lib, s, Ask(r, Forget(item, client)));
    ForgetsInOrder(lib, asked, r, left, client, k);
    assert Distinct(left);
    assert left[k] !in left[..k];
  }
}
