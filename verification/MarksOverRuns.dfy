/** The marks of a passage being made, over every run: always in order, always in their own
    work, and carried across the gap between one session and the next. */
module MarksOverRuns {
  import opened Options
  import opened Marks
  import opened Registry
  import opened SittingMachine

  predicate OnItem(m: Option<Mark>, item: ItemId) {
    m.Some? ==> m.value.item == item
  }

  /** A row's marks in order: in its work's, or, for a row of no known work, on its own clock. */
  predicate RowMarked(lib: Library, row: Row) {
    if row.work == "" then
      && OnItem(row.marks.markIn, row.item) && OnItem(row.marks.markOut, row.item)
      && (row.marks.Both() ==> row.marks.markIn.value.seconds < row.marks.markOut.value.seconds)
    else
      && row.item in lib.work && lib.work[row.item] == row.work && row.work in lib.members
      && WellMarked(row.marks, lib.members[row.work])
  }

  predicate MemoMarked(lib: Library, key: MemoKey, memo: Memo) {
    key.1 in lib.members && WellMarked(memo.marks, lib.members[key.1])
  }

  predicate ThreadMarked(lib: Library, s: State, th: Thread) {
    match th
    case InheritMarks(row) => row.marks == UNMARKED && RowMarked(lib, row)
    case StartPut(row) => RowMarked(lib, row)
    case MarkUpdate(id, item, _, _, _, order) =>
      id in s.born && order == lib.Order(item, true) && (id in s.reg.rows ==> s.reg.rows[id].item == item)
    case MarkRemember(row) => RowMarked(lib, row)
    case StopRemember(row) => RowMarked(lib, row)
    case _ => true
  }

  ghost predicate MarksInv(lib: Library, s: State) {
    && s.reg.rows.Keys <= s.born.Keys
    && (forall id :: id in s.reg.rows ==> RowMarked(lib, s.reg.rows[id]))
    && (forall key :: key in s.reg.memos ==> MemoMarked(lib, key, s.reg.memos[key]))
    && (forall r :: r in s.threads ==> ThreadMarked(lib, s, s.threads[r]))
  }

  /** Every mark is made with the works at hand. */
  predicate Sighted(a: Action) {
    a.Ask? && a.request.MarkEnd? ==> a.request.built
  }

  lemma MarkedRow(lib: Library, row: Row, change: MarkChange)
    requires lib.Sound() && RowMarked(lib, row)
    requires change.at.item == row.item && change.order == lib.Order(row.item, true)
    ensures RowMarked(lib, Marked(change)(row))
  {
    if row.work != "" && !change.clear {
      SetMarkKeepsOrder(row.marks, change.kind, change.at, change.order);
    }
  }

  lemma RowsAfterUpdate(lib: Library, s: State, id: SessionId, fn: Row -> Row, t: State)
    requires MarksInv(lib, s) && id in s.reg.rows
    requires RowMarked(lib, fn(s.reg.rows[id])) && fn(s.reg.rows[id]).item == s.reg.rows[id].item
    requires t.reg == Update(s.reg, id, fn, s.now) && t.born == s.born
    ensures forall i :: i in t.reg.rows ==> RowMarked(lib, t.reg.rows[i])
    ensures forall i :: i in t.reg.rows ==> i in s.reg.rows && t.reg.rows[i].item == s.reg.rows[i].item
  {
  }

  /** The threads a step leaves alone are as well marked after it. */
  lemma OthersStayMarked(lib: Library, s: State, t: State, r: RequestId)
    requires MarksInv(lib, s) && r in s.threads && s.born.Keys <= t.born.Keys
    requires forall i :: i in t.reg.rows && i in s.born ==> i in s.reg.rows && t.reg.rows[i].item == s.reg.rows[i].item
    ensures ThreadMarked(lib, t, s.threads[r])
  {
  }

  /** What is left to see to once a step's rows and memos are known to be in order. */
  lemma MarksKept(lib: Library, s: State, t: State, r: RequestId)
    requires MarksInv(lib, s) && s.born.Keys <= t.born.Keys && t.reg.rows.Keys <= t.born.Keys
    requires forall id :: id in t.reg.rows ==> RowMarked(lib, t.reg.rows[id])
    requires forall id :: id in t.reg.rows && id in s.born ==> id in s.reg.rows && t.reg.rows[id].item == s.reg.rows[id].item
    requires forall key :: key in t.reg.memos ==> MemoMarked(lib, key, t.reg.memos[key])
    requires forall q :: q in t.threads && q != r ==> q in s.threads && t.threads[q] == s.threads[q]
    requires r in t.threads ==> ThreadMarked(lib, t, t.threads[r])
    ensures MarksInv(lib, t)
  {
    forall q | q in t.threads
      ensures ThreadMarked(lib, t, t.threads[q])
    {
      if q != r { OthersStayMarked(lib, s, t, q); }
    }
  }

  lemma RememberKeepsMarks(lib: Library, reg: Registry, row: Row, now: int)
    requires lib.Sound() && RowMarked(lib, row)
    requires forall key :: key in reg.memos ==> MemoMarked(lib, key, reg.memos[key])
    ensures forall key :: key in Remember(reg, row, now).memos ==> MemoMarked(lib, key, Remember(reg, row, now).memos[key])
  {
  }

  lemma UpdateKeepsMarks(lib: Library, s: State, r: RequestId)
    requires lib.Sound() && MarksInv(lib, s) && r in s.threads && (s.threads[r].KeepUpdate? || s.threads[r].MarkUpdate?)
    ensures MarksInv(lib, Advance(s, r, s.threads[r], ""))
  {
    var t, th := Advance(s, r, s.threads[r], ""), s.threads[r];
    if th.id in s.reg.rows {
      if th.KeepUpdate? {
        RowsAfterUpdate(lib, s, th.id, Unpassaged(), t);
      } else {
        var change := MarkChange(th.kind, th.clear, Mark(th.item, th.seconds), th.order);
        MarkedRow(lib, s.reg.rows[th.id], change);
        RowsAfterUpdate(lib, s, th.id, Marked(change), t);
      }
    }
    MarksKept(lib, s, t, r);
  }

  lemma RememberStepKeepsMarks(lib: Library, s: State, r: RequestId)
    requires lib.Sound() && MarksInv(lib, s) && r in s.threads && (s.threads[r].MarkRemember? || s.threads[r].StopRemember?)
    ensures MarksInv(lib, Advance(s, r, s.threads[r], ""))
  {
    RememberKeepsMarks(lib, s.reg, s.threads[r].row, s.now);
    MarksKept(lib, s, Advance(s, r, s.threads[r], ""), r);
  }

  lemma StartKeepsMarks(lib: Library, s: State, r: RequestId, newId: SessionId)
    requires lib.Sound() && MarksInv(lib, s) && r in s.threads && (s.threads[r].InheritMarks? || s.threads[r].StartPut?)
    ensures MarksInv(lib, Advance(s, r, s.threads[r], newId))
  {
    var t, row := Advance(s, r, s.threads[r], newId), s.threads[r].row;
    if s.threads[r].StartPut? && newId !in s.born {
      assert t.reg.rows == s.reg.rows[newId := row.(touched := s.now)];
    }
    MarksKept(lib, s, t, r);
  }

  lemma AdvanceKeepsMarks(lib: Library, s: State, r: RequestId, newId: SessionId)
    requires lib.Sound() && MarksInv(lib, s) && r in s.threads
    ensures MarksInv(lib, Advance(s, r, s.threads[r], newId))
  {
    match s.threads[r] {
      case KeepUpdate(_) => UpdateKeepsMarks(lib, s, r);
      case MarkUpdate(_, _, _, _, _, _) => UpdateKeepsMarks(lib, s, r);
      case MarkRemember(_) => RememberStepKeepsMarks(lib, s, r);
      case StopRemember(_) => RememberStepKeepsMarks(lib, s, r);
      case InheritMarks(_) => StartKeepsMarks(lib, s, r, newId);
      case StartPut(_) => StartKeepsMarks(lib, s, r, newId);
      case _ => MarksKept(lib, s, Advance(s, r, s.threads[r], newId), r);
    }
  }

  /** The rows as they were, some gone and some only looked at. */
  predicate OnlyTouched(was: map<SessionId, Row>, rows: map<SessionId, Row>) {
    forall id :: id in rows ==> id in was && rows[id] == was[id].(touched := rows[id].touched)
  }

  lemma LookOnlyTouches(reg: Registry, q: Request, now: int)
    ensures OnlyTouched(reg.rows, Look(reg, q, now).rows) && Look(reg, q, now).memos == reg.memos
  {
  }

  /** A request starts off as well marked as the rows it starts from. */
  lemma StartsMarked(lib: Library, s: State, r: RequestId, q: Request)
    requires lib.Sound() && MarksInv(lib, s) && Sighted(Ask(r, q))
    ensures var t := s.(reg := Look(s.reg, q, s.now));
      Start(lib, s, q).Some? ==> ThreadMarked(lib, t, Start(lib, s, q).value)
  {
  }

  lemma AskKeepsMarks(lib: Library, s: State, r: RequestId, q: Request)
    requires lib.Sound() && MarksInv(lib, s) && Sighted(Ask(r, q)) && r !in s.threads
    ensures MarksInv(lib, Spawn(s.(reg := Look(s.reg, q, s.now)), r, Start(lib, s, q)))
  {
    var looked := s.(reg := Look(s.reg, q, s.now));
    var t := Spawn(looked, r, Start(lib, s, q));
    LookOnlyTouches(s.reg, q, s.now);
    StartsMarked(lib, s, r, q);
    LosingKeepsMarks(lib, s, looked);
    assert r in t.threads ==> ThreadMarked(lib, looked, t.threads[r]);
    MarksKept(lib, looked, t, r);
  }

  /** Time passing, the reaper, and a request dying take rows and requests away at most. */
  lemma LosingKeepsMarks(lib: Library, s: State, t: State)
    requires MarksInv(lib, s) && t.born == s.born && t.reg.memos == s.reg.memos
    requires OnlyTouched(s.reg.rows, t.reg.rows)
    requires forall q :: q in t.threads ==> q in s.threads && t.threads[q] == s.threads[q]
    ensures MarksInv(lib, t)
  {
    MarksKept(lib, s, t, 0) by {
      if 0 in t.threads { OthersStayMarked(lib, s, t, 0); }
    }
  }

  lemma AskStepKeepsMarks(lib: Library, s: State, r: RequestId, q: Request)
    requires lib.Sound() && MarksInv(lib, s) && Sighted(Ask(r, q)) && r !in s.threads
    ensures MarksInv(lib, Step(lib, s, Ask(r, q)))
  {
    var s' := s.(steps := s.steps + 1);
    LosingKeepsMarks(lib, s, s');
    AskKeepsMarks(lib, s', r, q);
    assert Step(lib, s, Ask(r, q)) == Spawn(s'.(reg := Look(s'.reg, q, s'.now)), r, Start(lib, s', q));
  }

  lemma GoStepKeepsMarks(lib: Library, s: State, r: RequestId, newId: SessionId)
    requires lib.Sound() && MarksInv(lib, s) && r in s.threads
    ensures MarksInv(lib, Step(lib, s, Go(r, newId)))
  {
    var s' := s.(steps := s.steps + 1);
    LosingKeepsMarks(lib, s, s');
    AdvanceKeepsMarks(lib, s', r, newId);
    assert Step(lib, s, Go(r, newId)) == Advance(s', r, s'.threads[r], newId);
  }

  lemma ReapStepKeepsMarks(lib: Library, s: State, live: set<string>)
    requires MarksInv(lib, s)
    ensures MarksInv(lib, Step(lib, s, Reaper(live)))
  {
    var t := Step(lib, s, Reaper(live));
    assert t.reg.rows == Reap(s.reg, s.now, live).rows;
    LosingKeepsMarks(lib, s, t);
  }

  lemma StepKeepsMarks(lib: Library, s: State, a: Action)
    requires lib.Sound() && MarksInv(lib, s) && Sighted(a)
    ensures MarksInv(lib, Step(lib, s, a))
  {
    if a.Ask? && a.r !in s.threads {
      AskStepKeepsMarks(lib, s, a.r, a.request);
    } else if a.Go? && a.r in s.threads {
      GoStepKeepsMarks(lib, s, a.r, a.newId);
    } else if a.Reaper? {
      ReapStepKeepsMarks(lib, s, a.live);
    } else {
      LosingKeepsMarks(lib, s, Step(lib, s, a));
    }
  }

  /** In every state of every run, each live row, each remembered pair and each pair on its
      way between the two is in order: in strictly before out as the work is played, and
      neither naming anything the work does not hold. */
  lemma {:induction false} MarksAlwaysInOrder(lib: Library, actions: seq<Action>)
    requires lib.Sound() && forall i :: 0 <= i < |actions| ==> Sighted(actions[i])
    ensures MarksInv(lib, Run(lib, START, actions))
  {
    if actions != [] {
      MarksAlwaysInOrder(lib, actions[..|actions| - 1]);
      StepKeepsMarks(lib, Run(lib, START, actions[..|actions| - 1]), actions[|actions| - 1]);
    }
  }

  // ── the gap between two sessions ──────────────────────────────────────

  /** The step writes or deletes what is remembered of one profile's marks in one work. */
  predicate Remembers(s: State, a: Action, key: MemoKey) {
    a.Go? && a.r in s.threads && (s.threads[a.r].MarkRemember? || s.threads[a.r].StopRemember?)
      && KeyOf(s.threads[a.r].row) == key
  }

  lemma MemoOnlyByRemembering(lib: Library, s: State, a: Action, key: MemoKey)
    requires !Remembers(s, a, key)
    ensures var t := Step(lib, s, a);
      && s.now <= t.now && (key in t.reg.memos <==> key in s.reg.memos)
      && (key in s.reg.memos ==> t.reg.memos[key] == s.reg.memos[key])
  {
    if a.Ask? { LookOnlyTouches(s.reg, a.request, s.now); }
  }

  /** No step of the run remembers anything under this key. */
  predicate Quiet(lib: Library, s: State, actions: seq<Action>, key: MemoKey) {
    forall i :: 0 <= i < |actions| ==> !Remembers(Run(lib, s, actions[..i]), actions[i], key)
  }

  lemma {:induction false} MemoOverQuietRuns(lib: Library, s: State, actions: seq<Action>, key: MemoKey)
    requires Quiet(lib, s, actions, key)
    ensures var t := Run(lib, s, actions);
      && s.now <= t.now && (key in t.reg.memos <==> key in s.reg.memos)
      && (key in s.reg.memos ==> t.reg.memos[key] == s.reg.memos[key])
  {
    if actions != [] {
      var before := actions[..|actions| - 1];
      assert forall i :: 0 <= i < |before| ==> before[..i] == actions[..i];
      MemoOverQuietRuns(lib, s, before, key);
      MemoOnlyByRemembering(lib, Run(lib, s, before), actions[|actions| - 1], key);
    }
  }

  /** A request about to remember a row's marks: a mark just made, or a session stopped. */
  predicate Remembering(s: State, r: RequestId) {
    r in s.threads && (s.threads[r].StopRemember? || s.threads[r].MarkRemember?) && s.threads[r].row.work != ""
  }

  /** Marks remembered, and whatever else went on meanwhile so long as nothing else of that
      profile's was remembered in that work: what is left of them inside the two minutes is
      exactly those marks, and after them nothing. */
  lemma NextSessionInherits(lib: Library, s: State, r: RequestId, actions: seq<Action>)
    requires Remembering(s, r)
    requires Quiet(lib, Step(lib, s, Go(r, "")), actions, KeyOf(s.threads[r].row))
    ensures var row, t := s.threads[r].row, Run(lib, Step(lib, s, Go(r, "")), actions);
      MarksInWork(t.reg, KeyOf(row), t.now) == if t.now - s.now <= MARK_MEMO_TTL then row.marks else UNMARKED
  {
    var row, after := s.threads[r].row, Step(lib, s, Go(r, ""));
    StopRemembers(lib, s, r);
    MemoOverQuietRuns(lib, after, actions, KeyOf(row));
    MemoAlike(after.reg, Run(lib, after, actions).reg, KeyOf(row), Run(lib, after, actions).now);
  }

  lemma StopRemembers(lib: Library, s: State, r: RequestId)
    requires Remembering(s, r)
    ensures var row, t := s.threads[r].row, Step(lib, s, Go(r, ""));
      && t.now == s.now
      && t.reg.memos.Keys ==
           (if row.marks.Any() then s.reg.memos.Keys + {KeyOf(row)} else s.reg.memos.Keys - {KeyOf(row)})
      && (row.marks.Any() ==> t.reg.memos[KeyOf(row)] == Memo(row.marks, s.now))
  {
    assert Step(lib, s, Go(r, "")).reg == Remember(s.reg, s.threads[r].row, s.now);
  }

  /** And so the next session of theirs, started by play or by POST next, has them in its row
      when it is put in the registry: those marks exactly when it came for them inside two
      minutes of their being remembered, none otherwise, whatever happens while it starts. */
  lemma NewRowInherits(lib: Library, s: State, r: RequestId, actions: seq<Action>, q: RequestId, later: seq<Action>, newId: SessionId)
    requires Remembering(s, r)
    requires Quiet(lib, Step(lib, s, Go(r, "")), actions, KeyOf(s.threads[r].row))
    requires var t := Run(lib, Step(lib, s, Go(r, "")), actions);
      && q in t.threads && t.threads[q].InheritMarks? && KeyOf(t.threads[q].row) == KeyOf(s.threads[r].row)
      && var begun := Step(lib, t, Go(q, ""));
      var u := Run(lib, begun, later);
      q in u.threads && u.threads[q] == begun.threads[q] && newId !in u.born
    ensures var row, t := s.threads[r].row, Run(lib, Step(lib, s, Go(r, "")), actions);
      var u := Run(lib, Step(lib, t, Go(q, "")), later);
      var end := Step(lib, u, Go(q, newId));
      var marks := if t.now - s.now <= MARK_MEMO_TTL then row.marks else UNMARKED;
      newId in end.reg.rows && end.reg.rows[newId] == t.threads[q].row.(marks := marks, touched := u.now)
  {
    NextSessionInherits(lib, s, r, actions);
    var t := Run(lib, Step(lib, s, Go(r, "")), actions);
    var begun := Step(lib, t, Go(q, ""));
    assert begun.threads[q] == StartPut(t.threads[q].row.(marks := MarksInWork(t.reg, KeyOf(t.threads[q].row), t.now)));
  }

  lemma MemoAlike(was: Registry, reg: Registry, key: MemoKey, now: int)
    requires key in reg.memos <==> key in was.memos
    requires key in was.memos ==> reg.memos[key] == was.memos[key]
    ensures MarksInWork(reg, key, now) == MarksInWork(was, key, now)
  {
  }

  /** The exception the quiet rules out: an older session of the same profile and work,
      stopped with no marks of its own, takes the newer one's with it. */
  lemma MarklessStopForgets(lib: Library, s: State, r: RequestId)
    requires r in s.threads && s.threads[r].StopRemember? && s.threads[r].row.work != "" && !s.threads[r].row.marks.Any()
    ensures var t := Step(lib, s, Go(r, ""));
      MarksInWork(t.reg, KeyOf(s.threads[r].row), t.now) == UNMARKED
  {
  }

  // ── a run advanced by POST next ───────────────────────────────────────

  const TWO_EPISODES := Library(map[1 := "show", 2 := "show"], map["show" := [1, 2]])

  /** The first episode played, an in point marked in it, and the second asked for with POST
      next `wait` milliseconds later. */
  function MarkThenNext(x: real, wait: nat): seq<Action> {
    [Ask(0, Play(1, "ann", None, "", true)), Go(0, ""), Go(0, "a"),
     Ask(1, MarkEnd("a", In, false, x, true)), Go(1, ""), Go(1, ""),
     Tick(wait), Ask(2, Next("a", 2, "", true)), Go(2, ""), Go(2, "b")]
  }

  function Upto(actions: seq<Action>, i: nat): State
    requires i <= |actions|
  {
    Run(TWO_EPISODES, START, actions[..i])
  }

  lemma UptoNext(actions: seq<Action>, i: nat)
    requires i < |actions|
    ensures Upto(actions, i + 1) == Step(TWO_EPISODES, Upto(actions, i), actions[i])
  {
    assert actions[..i + 1][..i] == actions[..i];
  }

  function Episode(item: ItemId, marks: MarkPair, touched: int): Row {
    Row(item, "ann", "show", false, "", None, marks, touched)
  }

  lemma FirstPlayed(x: real, wait: nat)
    ensures Upto(MarkThenNext(x, wait), 3) ==
      State(Registry(map["a" := Episode(1, UNMARKED, 0)], map[]), map[], map[], 0, 3, map["a" := 3])
  {
    var actions := MarkThenNext(x, wait);
    UptoNext(actions, 0);
    UptoNext(actions, 1);
    UptoNext(actions, 2);
    assert Upto(actions, 1).threads == map[0 := InheritMarks(Episode(1, UNMARKED, 0))];
    assert Upto(actions, 2).threads == map[0 := StartPut(Episode(1, UNMARKED, 0))];
  }

  lemma InPointAsked(x: real, wait: nat)
    ensures Upto(MarkThenNext(x, wait), 4) ==
      State(Registry(map["a" := Episode(1, UNMARKED, 0)], map[]), map[],
            map[1 := MarkUpdate("a", 1, In, false, x, [1, 2])], 0, 4, map["a" := 3])
  {
    FirstPlayed(x, wait);
    UptoNext(MarkThenNext(x, wait), 3);
  }

  lemma MarkStep(s: State, x: real)
    requires s == State(Registry(map["a" := Episode(1, UNMARKED, 0)], map[]), map[],
                        map[1 := MarkUpdate("a", 1, In, false, x, [1, 2])], 0, 4, map["a" := 3])
    ensures var marks := MarkPair(Some(Mark(1, x)), None);
      Step(TWO_EPISODES, s, Go(1, "")) ==
        State(Registry(map["a" := Episode(1, marks, 0)], map[]), map[],
              map[1 := MarkRemember(Episode(1, marks, 0))], 0, 5, map["a" := 3])
  {
  }

  lemma InPointSet(x: real, wait: nat)
    ensures var marks := MarkPair(Some(Mark(1, x)), None);
      Upto(MarkThenNext(x, wait), 5) ==
        State(Registry(map["a" := Episode(1, marks, 0)], map[]), map[],
              map[1 := MarkRemember(Episode(1, marks, 0))], 0, 5, map["a" := 3])
  {
    InPointAsked(x, wait);
    UptoNext(MarkThenNext(x, wait), 4);
    MarkStep(Upto(MarkThenNext(x, wait), 4), x);
  }

  lemma InPointMarked(x: real, wait: nat)
    ensures var marks := MarkPair(Some(Mark(1, x)), None);
      Upto(MarkThenNext(x, wait), 6) ==
        State(Registry(map["a" := Episode(1, marks, 0)], map[("ann", "show") := Memo(marks, 0)]), map[], map[], 0, 6, map["a" := 3])
  {
    InPointSet(x, wait);
    UptoNext(MarkThenNext(x, wait), 5);
  }

  lemma NextAsked(x: real, wait: nat)
    ensures var marks := MarkPair(Some(Mark(1, x)), None);
      Upto(MarkThenNext(x, wait), 8) ==
        State(Registry(map["a" := Episode(1, marks, wait)], map[("ann", "show") := Memo(marks, 0)]), map[],
              map[2 := InheritMarks(Episode(2, UNMARKED, 0))], wait, 8, map["a" := 3])
  {
    InPointMarked(x, wait);
    UptoNext(MarkThenNext(x, wait), 6);
    UptoNext(MarkThenNext(x, wait), 7);
  }

  /** POST next stops nothing, so the two minutes run from the mark: the second episode starts
      with the in point exactly when it is asked for within them, and later on loses it, though
      the first episode's session is there still and has it. */
  lemma NextKeepsTheInPointExactly(x: real, wait: nat)
    ensures var t, marks := Run(TWO_EPISODES, START, MarkThenNext(x, wait)), MarkPair(Some(Mark(1, x)), None);
      && "a" in t.reg.rows && t.reg.rows["a"].marks == marks
      && "b" in t.reg.rows && t.reg.rows["b"].item == 2
      && t.reg.rows["b"].marks == if wait <= MARK_MEMO_TTL then marks else UNMARKED
  {
    var actions, marks := MarkThenNext(x, wait), MarkPair(Some(Mark(1, x)), None);
    NextStarts(x, wait);
    UptoNext(actions, 9);
    assert actions[..10] == actions;
  }

  lemma NextStarts(x: real, wait: nat)
    ensures var marks := MarkPair(Some(Mark(1, x)), None);
      var inherited := if wait <= MARK_MEMO_TTL then marks else UNMARKED;
      var t := Upto(MarkThenNext(x, wait), 9);
      && t.reg.rows == map["a" := Episode(1, marks, wait)] && t.born == map["a" := 3]
      && t.threads == map[2 := StartPut(Episode(2, inherited, 0))]
  {
    NextAsked(x, wait);
    UptoNext(MarkThenNext(x, wait), 8);
  }
}
