/** What is stored of a place: whatever the interleaving, what the last request to reach it said
    (cmd/server/session.go handleSessionProgress, main.go handleSetProgress, watched.go,
    continue.go). */
module StoredPlaces {
  import opened Options
  import opened Marks
  import opened Registry
  import opened SittingMachine

  /** The state a run is in before its `i`th action. */
  function At(lib: Library, actions: seq<Action>, i: nat): State
    requires i <= |actions|
  {
    Run(lib, START, actions[..i])
  }

  lemma Next(lib: Library, actions: seq<Action>, i: nat)
    requires i < |actions|
    ensures At(lib, actions, i + 1) == Step(lib, At(lib, actions, i), actions[i])
  {
    assert actions[..i + 1][..i] == actions[..i];
  }

  /** How many steps of the request there are after the `k`th action and before the `n`th. */
  function Turns(actions: seq<Action>, r: RequestId, k: nat, n: nat): nat
    requires k < n <= |actions|
    decreases n
  {
    if n == k + 1 then 0
    else Turns(actions, r, k, n - 1) + if actions[n - 1].Go? && actions[n - 1].r == r then 1 else 0
  }

  /** The request was not cut off after the `k`th action and before the `n`th. */
  predicate Lives(actions: seq<Action>, r: RequestId, k: nat, n: nat)
    requires n <= |actions|
  {
    forall i :: k < i < n ==> actions[i] != Die(r)
  }

  /** What a request says of a pair when its step after `turns` others is made, given what it found
      when it asked: a session's progress under the row's own profile, or the body's when the row
      has none; a write outside sessions; a forgotten member of the work. */
  predicate Says(lib: Library, s: State, q: Request, turns: nat, key: PlaceKey, word: Option<Place>) {
    match q
    case Progress(id, place, body) =>
      && turns == 0 && id in s.reg.rows && s.reg.rows[id].passage == None
      && key.0 == s.reg.rows[id].item
      && key.1 == (if s.reg.rows[id].client != "" then s.reg.rows[id].client else body)
      && word == Some(place)
    case Bare(item, client, write) =>
      && turns == 0 && key == (item, client) && word == write
      && forall id :: id in s.reg.rows ==>
           !(s.reg.rows[id].item == item && s.reg.rows[id].client == client && s.reg.rows[id].passage.Some?)
    case Forget(item, client) =>
      word == None && key.1 == client &&
      if item in lib.work && lib.work[item] in lib.members
      then turns < |lib.members[lib.work[item]]| && key.0 == lib.members[lib.work[item]][turns]
      else turns == 0 && key.0 == item
    case _ => false
  }

  /** The `i`th action is the step of the request asked at the `k`th that says so. */
  predicate Reports(lib: Library, actions: seq<Action>, k: nat, i: nat, key: PlaceKey, word: Option<Place>) {
    && k < i < |actions| && actions[i].Go? && var r := actions[i].r;
    && actions[k].Ask? && actions[k].r == r && r !in At(lib, actions, k).threads
    && Lives(actions, r, k, i)
    && Says(lib, At(lib, actions, k), actions[k].request, Turns(actions, r, k, i), key, word)
  }

  // ── a request under way says what it was asked ────────────────────────

  /** Before its next step, the request's thread would write this of this pair. */
  predicate WouldWrite(s: State, r: RequestId, key: PlaceKey, word: Option<Place>) {
    r in s.threads && match s.threads[r]
      case ProgressWrite(_, row, place, client) => key == (row.item, client) && word == Some(place)
      case BareWrite(item, client, write, _) => key == (item, client) && word == write
      case ForgetWrite(left, client) => left != [] && key == (left[0], client) && word == None
      case _ => false
  }

  predicate Writes(th: Thread) {
    th.ProgressWrite? || th.BareWrite? || th.ForgetWrite?
  }

  /** What is to be forgotten, as the library has it. */
  function Left(lib: Library, item: ItemId): seq<ItemId> {
    if item in lib.work && lib.work[item] in lib.members then lib.members[lib.work[item]] else [item]
  }

  /** The thread a request has `turns` steps after it asked in the state `asked`: none that writes
      when it was refused or is done. */
  predicate Carries(lib: Library, asked: State, q: Request, turns: nat, th: Thread) {
    match q
    case Progress(id, place, body) =>
      && turns == 0 && id in asked.reg.rows && asked.reg.rows[id].passage == None
      && th.ProgressWrite? && th.row.item == asked.reg.rows[id].item && th.place == place
      && th.client == (if asked.reg.rows[id].client != "" then asked.reg.rows[id].client else body)
    case Bare(item, client, write) =>
      && turns == 0 && !PassageOn(asked.reg, item, client)
      && th.BareWrite? && th.item == item && th.client == client && th.write == write
    case Forget(item, client) =>
      turns <= |Left(lib, item)| && th == ForgetWrite(Left(lib, item)[turns..], client)
    case _ => false
  }

  /** The request has not been refused, and is not done. */
  predicate Goes(lib: Library, asked: State, q: Request, turns: nat) {
    match q
    case Progress(id, _, _) => turns == 0 && id in asked.reg.rows && asked.reg.rows[id].passage == None
    case Bare(item, client, _) => turns == 0 && !PassageOn(asked.reg, item, client)
    case Forget(item, _) => turns <= |Left(lib, item)|
    case _ => false
  }

  lemma Asked(lib: Library, s: State, r: RequestId, q: Request)
    requires r !in s.threads
    ensures var t := Step(lib, s, Ask(r, q));
      && (Goes(lib, s, q, 0) ==> r in t.threads && Carries(lib, s, q, 0, t.threads[r]))
      && (r in t.threads && Writes(t.threads[r]) ==> Carries(lib, s, q, 0, t.threads[r]))
  {
  }

  lemma Turned(lib: Library, s: State, r: RequestId, newId: SessionId, asked: State, q: Request, turns: nat)
    requires r in s.threads && Carries(lib, asked, q, turns, s.threads[r])
    ensures var t := Step(lib, s, Go(r, newId));
      && (Goes(lib, asked, q, turns + 1) ==> r in t.threads)
      && (r in t.threads ==> Carries(lib, asked, q, turns + 1, t.threads[r]))
  {
    if q.Forget? {
      var left := Left(lib, q.item);
      assert turns < |left| ==> left[turns..][1..] == left[turns + 1..];
    }
  }

  lemma NoneTurnsToWriting(lib: Library, s: State, r: RequestId, newId: SessionId)
    requires r in s.threads && !Writes(s.threads[r])
    ensures var t := Step(lib, s, Go(r, newId)); r in t.threads ==> !Writes(t.threads[r])
  {
  }

  lemma Undisturbed(lib: Library, s: State, a: Action, r: RequestId)
    requires !(a.Go? && a.r == r) && a != Die(r) && !(a.Ask? && a.r == r && r !in s.threads)
    ensures var t := Step(lib, s, a);
      (r in t.threads <==> r in s.threads) && (r in s.threads ==> t.threads[r] == s.threads[r])
  {
  }

  /** The `k`th action asks, and nothing of that name was under way. */
  predicate Asks(lib: Library, actions: seq<Action>, k: nat, r: RequestId) {
    k < |actions| && actions[k].Ask? && actions[k].r == r && r !in At(lib, actions, k).threads
  }

  /** Forwards: a request that goes on has the thread of what it asked. */
  lemma {:induction false} ThreadOfAsked(lib: Library, actions: seq<Action>, r: RequestId, k: nat, n: nat)
    requires Asks(lib, actions, k, r) && k < n <= |actions| && Lives(actions, r, k, n)
    requires Goes(lib, At(lib, actions, k), actions[k].request, Turns(actions, r, k, n))
    ensures var s := At(lib, actions, n);
      r in s.threads && Carries(lib, At(lib, actions, k), actions[k].request, Turns(actions, r, k, n), s.threads[r])
  {
    var asked, q, a := At(lib, actions, k), actions[k].request, actions[n - 1];
    Next(lib, actions, n - 1);
    if n == k + 1 {
      Asked(lib, asked, r, q);
    } else {
      ThreadOfAsked(lib, actions, r, k, n - 1);
      if a.Go? && a.r == r {
        Turned(lib, At(lib, actions, n - 1), r, a.newId, asked, q, Turns(actions, r, k, n - 1));
      } else {
        Undisturbed(lib, At(lib, actions, n - 1), a, r);
      }
    }
  }

  /** The thread is of what the `k`th action asked. */
  predicate CameFrom(lib: Library, actions: seq<Action>, r: RequestId, k: nat, n: nat) {
    && Asks(lib, actions, k, r) && k < n <= |actions| && Lives(actions, r, k, n)
    && var s := At(lib, actions, n);
       r in s.threads && Carries(lib, At(lib, actions, k), actions[k].request, Turns(actions, r, k, n), s.threads[r])
  }

  lemma CameFromStill(lib: Library, actions: seq<Action>, r: RequestId, k: nat, n: nat)
    requires 0 < n <= |actions| && CameFrom(lib, actions, r, k, n - 1) && r in At(lib, actions, n).threads
    ensures CameFrom(lib, actions, r, k, n)
  {
    var s, a := At(lib, actions, n - 1), actions[n - 1];
    Next(lib, actions, n - 1);
    if a.Go? && a.r == r {
      Turned(lib, s, r, a.newId, At(lib, actions, k), actions[k].request, Turns(actions, r, k, n - 1));
    } else {
      assert a != Die(r);
      Undisturbed(lib, s, a, r);
    }
  }

  lemma OnlyAskingBegins(lib: Library, s: State, a: Action, r: RequestId)
    requires r !in s.threads && r in Step(lib, s, a).threads
    ensures a.Ask? && a.r == r
  {
  }

  lemma CameFromHere(lib: Library, actions: seq<Action>, r: RequestId, n: nat)
    requires 0 < n <= |actions| && r !in At(lib, actions, n - 1).threads
    requires r in At(lib, actions, n).threads && Writes(At(lib, actions, n).threads[r])
    ensures CameFrom(lib, actions, r, n - 1, n)
  {
    var s, a := At(lib, actions, n - 1), actions[n - 1];
    Next(lib, actions, n - 1);
    OnlyAskingBegins(lib, s, a, r);
    Asked(lib, s, r, a.request);
  }

  lemma WroteBefore(lib: Library, s: State, a: Action, r: RequestId)
    requires r in s.threads && r in Step(lib, s, a).threads && Writes(Step(lib, s, a).threads[r])
    ensures Writes(s.threads[r])
  {
    if a.Go? && a.r == r {
      if !Writes(s.threads[r]) { NoneTurnsToWriting(lib, s, r, a.newId); }
    } else {
      assert a != Die(r);
      Undisturbed(lib, s, a, r);
    }
  }

  /** Backwards: a thread that writes came from a request. */
  lemma {:induction false} ThreadCameFrom(lib: Library, actions: seq<Action>, r: RequestId, n: nat)
    requires n <= |actions| && r in At(lib, actions, n).threads && Writes(At(lib, actions, n).threads[r])
    ensures exists k: nat :: CameFrom(lib, actions, r, k, n)
  {
    assert At(lib, actions, 0) == START;
    Next(lib, actions, n - 1);
    if r in At(lib, actions, n - 1).threads {
      WroteBefore(lib, At(lib, actions, n - 1), actions[n - 1], r);
      ThreadCameFrom(lib, actions, r, n - 1);
      var k: nat :| CameFrom(lib, actions, r, k, n - 1);
      CameFromStill(lib, actions, r, k, n);
    } else {
      CameFromHere(lib, actions, r, n);
    }
  }

  // ── a step stores what its thread would write ─────────────────────────

  function Stored(s: State, key: PlaceKey): Option<Place> {
    if key in s.places then Some(s.places[key]) else None
  }

  lemma StepStores(lib: Library, s: State, r: RequestId, newId: SessionId, key: PlaceKey, word: Option<Place>)
    requires WouldWrite(s, r, key, word)
    ensures Stored(Step(lib, s, Go(r, newId)), key) == word
  {
  }

  lemma StepLeaves(lib: Library, s: State, a: Action, key: PlaceKey)
    requires a.Go? ==> forall word :: !WouldWrite(s, a.r, key, word)
    ensures Stored(Step(lib, s, a), key) == Stored(s, key)
  {
    if a.Go? && a.r in s.threads {
      GoLeaves(lib, s, a.r, a.newId, key);
    }
  }

  lemma GoLeaves(lib: Library, s: State, r: RequestId, newId: SessionId, key: PlaceKey)
    requires r in s.threads && forall word :: !WouldWrite(s, r, key, word)
    ensures Stored(Step(lib, s, Go(r, newId)), key) == Stored(s, key)
  {
    match s.threads[r] {
      case ProgressWrite(_, row, place, client) => assert !WouldWrite(s, r, key, Some(place));
      case BareWrite(item, client, write, _) => assert !WouldWrite(s, r, key, write);
      case ForgetWrite(left, client) => assert !WouldWrite(s, r, key, None);
      case _ =>
    }
  }

  lemma ReportIsWrite(lib: Library, actions: seq<Action>, k: nat, i: nat, key: PlaceKey, word: Option<Place>)
    requires Reports(lib, actions, k, i, key, word)
    ensures WouldWrite(At(lib, actions, i), actions[i].r, key, word)
  {
    var r := actions[i].r;
    ThreadOfAsked(lib, actions, r, k, i);
  }

  lemma CarriedIsSaid(lib: Library, asked: State, q: Request, turns: nat, s: State, r: RequestId, key: PlaceKey, word: Option<Place>)
    requires WouldWrite(s, r, key, word) && Carries(lib, asked, q, turns, s.threads[r])
    ensures Says(lib, asked, q, turns, key, word)
  {
  }

  lemma WriteIsReport(lib: Library, actions: seq<Action>, i: nat, key: PlaceKey, word: Option<Place>)
    requires i < |actions| && actions[i].Go? && WouldWrite(At(lib, actions, i), actions[i].r, key, word)
    ensures exists k: nat :: Reports(lib, actions, k, i, key, word)
  {
    var r := actions[i].r;
    ThreadCameFrom(lib, actions, r, i);
    var k: nat :| CameFrom(lib, actions, r, k, i);
    CarriedIsSaid(lib, At(lib, actions, k), actions[k].request, Turns(actions, r, k, i), At(lib, actions, i), r, key, word);
    assert Reports(lib, actions, k, i, key, word);
  }

  lemma NoWriteIsSilent(lib: Library, actions: seq<Action>, j: nat, key: PlaceKey)
    requires j < |actions| && (actions[j].Go? ==> forall word :: !WouldWrite(At(lib, actions, j), actions[j].r, key, word))
    ensures Silent(lib, actions, j, key)
  {
    forall k: nat, word: Option<Place> | Reports(lib, actions, k, j, key, word)
      ensures false
    {
      ReportIsWrite(lib, actions, k, j, key, word);
    }
  }

  /** No action after the `i`th and before the `n`th reports anything of the pair. */
  ghost predicate NoneAfter(lib: Library, actions: seq<Action>, i: int, n: nat, key: PlaceKey) {
    forall k: nat, j: nat, word: Option<Place> :: i < j < n ==> !Reports(lib, actions, k, j, key, word)
  }

  /** This was reported of the pair before the `n`th action, and nothing since. */
  ghost predicate LastReported(lib: Library, actions: seq<Action>, n: nat, key: PlaceKey, word: Option<Place>) {
    exists k: nat, i: nat :: i < n && Reports(lib, actions, k, i, key, word) && NoneAfter(lib, actions, i, n, key)
  }

  /** The `j`th action reports nothing of the pair. */
  ghost predicate Silent(lib: Library, actions: seq<Action>, j: nat, key: PlaceKey) {
    forall k: nat, word: Option<Place> :: !Reports(lib, actions, k, j, key, word)
  }

  lemma StillLast(lib: Library, actions: seq<Action>, n: nat, key: PlaceKey)
    requires 0 < n <= |actions| && Silent(lib, actions, n - 1, key)
    ensures forall word :: LastReported(lib, actions, n - 1, key, word) ==> LastReported(lib, actions, n, key, word)
    ensures NoneAfter(lib, actions, -1, n - 1, key) ==> NoneAfter(lib, actions, -1, n, key)
  {
    forall word | LastReported(lib, actions, n - 1, key, word)
      ensures LastReported(lib, actions, n, key, word)
    {
      var k: nat, i: nat :| i < n - 1 && Reports(lib, actions, k, i, key, word) && NoneAfter(lib, actions, i, n - 1, key);
      assert NoneAfter(lib, actions, i, n, key);
    }
  }

  /** In every run, whatever requests interleave and wherever they are cut off, what is stored of a
      pair is what the last report to reach it said: the place a session or a bare write gave, or
      nothing after a forgetting or an unwatching; and nothing when there was never a report. */
  lemma {:induction false} StoredIsTheLastReport(lib: Library, actions: seq<Action>, n: nat, key: PlaceKey)
    requires n <= |actions|
    ensures var word := Stored(At(lib, actions, n), key);
      LastReported(lib, actions, n, key, word) || (word == None && NoneAfter(lib, actions, -1, n, key))
  {
    if n > 0 {
      StoredIsTheLastReport(lib, actions, n - 1, key);
      var s, a := At(lib, actions, n - 1), actions[n - 1];
      Next(lib, actions, n - 1);
      if word :| a.Go? && WouldWrite(s, a.r, key, word) {
        StepStores(lib, s, a.r, a.newId, key, word);
        WriteIsReport(lib, actions, n - 1, key, word);
        var k: nat :| Reports(lib, actions, k, n - 1, key, word);
        assert NoneAfter(lib, actions, n - 1, n, key);
      } else {
        NoWriteIsSilent(lib, actions, n - 1, key);
        StepLeaves(lib, s, a, key);
        StillLast(lib, actions, n, key);
      }
    }
  }
}
