/** Three runs after which the library vouches for words of another file
    (cmd/server/transcripts.go queueEntry and handleDeliverTranscript, cmd/transcriber/worker.go
    audio). */
module TranscriptMishaps {
  import opened Options
  import opened TranscriptQueue
  import opened TranscriptRuns

  // ── one item, step by step ────────────────────────────────────────────

  /** A state that is about one item alone, scanned, with at most the job 0 on its way. */
  function One(
    obj: Etag, lib: Item, rows: map<ItemId, Etag>, files: map<ItemId, set<Etag>>, job: Option<Job>,
    stored: set<(ItemId, Etag)>, seen: set<(ItemId, Etag)>): State
  {
    State(map[lib.id := obj], map[lib.id := lib], rows, files, if job.Some? then map[0 := job.value] else map[], stored, seen)
  }

  lemma FirstSeen(it: Item)
    ensures Step(Step(START, Put(it.id, it.etag)), Scan(it)) ==
      One(it.etag, it, map[], map[], None, {(it.id, it.etag)}, {(it.id, it.etag)})
  {
    assert {} + {(it.id, it.etag)} == {(it.id, it.etag)};
  }

  lemma AnotherPut(s: State, obj: Etag, lib: Item, job: Option<Job>, etag: Etag)
    requires s == One(obj, lib, s.rows, s.files, job, s.stored, s.seen)
    ensures Step(s, Put(lib.id, etag)) == One(etag, lib, s.rows, s.files, job, s.stored + {(lib.id, etag)}, s.seen)
  {
  }

  lemma Scanned(s: State, obj: Etag, lib: Item, it: Item)
    requires s == One(obj, lib, s.rows, s.files, None, s.stored, s.seen) && it.id == lib.id && (it.id, it.etag) in s.stored
    ensures Step(s, Scan(it)) == One(obj, it, s.rows, s.files, None, s.stored, s.seen + {(it.id, it.etag)})
  {
  }

  lemma Taken(s: State, obj: Etag, lib: Item)
    requires s == One(obj, lib, s.rows, s.files, None, s.stored, s.seen) && NeedsTranscript(lib, Row(s.rows, lib.id))
    ensures Step(s, Take(0, lib.id, false)) ==
      One(obj, lib, s.rows, s.files, Some(Hearing(lib.id, lib.etag, {}, false)), s.stored, s.seen)
  {
  }

  lemma ReadOnce(s: State, obj: Etag, lib: Item, named: Etag)
    requires s == One(obj, lib, s.rows, s.files, Some(Hearing(lib.id, named, {}, false)), s.stored, s.seen)
    ensures Step(s, Hear(0)) == One(obj, lib, s.rows, s.files, Some(Hearing(lib.id, named, {obj}, false)), s.stored, s.seen)
  {
    assert {} + {obj} == {obj};
  }

  lemma Delivered(s: State, obj: Etag, lib: Item, heard: set<Etag>)
    requires s == One(obj, lib, s.rows, s.files, Some(Hearing(lib.id, lib.etag, heard, false)), s.stored, s.seen)
    requires lib.subtitles == 0
    ensures Step(s, Deliver(0, lib.etag, 1)) ==
      One(obj, lib, s.rows, s.files, Some(FileNext(lib.id, lib.etag, heard)), s.stored, s.seen)
  {
  }

  lemma FileWritten(s: State, obj: Etag, lib: Item, heard: set<Etag>)
    requires s == One(obj, lib, s.rows, s.files, Some(FileNext(lib.id, lib.etag, heard)), s.stored, s.seen)
    ensures Step(s, Go(0)) ==
      One(obj, lib, s.rows, s.files[lib.id := heard], Some(RowNext(lib.id, lib.etag, heard)), s.stored, s.seen)
  {
  }

  lemma RowWritten(s: State, obj: Etag, lib: Item, heard: set<Etag>)
    requires s == One(obj, lib, s.rows, s.files, Some(RowNext(lib.id, lib.etag, heard)), s.stored, s.seen)
    ensures Step(s, Go(0)) == One(obj, lib, s.rows[lib.id := lib.etag], s.files, None, s.stored, s.seen)
    ensures Step(s, Restart) == One(obj, lib, s.rows, s.files, None, s.stored, s.seen)
  {
  }

  // ── the runs ──────────────────────────────────────────────────────────

  function Before(actions: seq<Action>, i: nat): State
    requires i <= |actions|
  {
    Run(START, actions[..i])
  }

  lemma NextState(actions: seq<Action>, i: nat)
    requires i < |actions|
    ensures Before(actions, i + 1) == Step(Before(actions, i), actions[i])
  {
    assert actions[..i + 1][..i] == actions[..i];
  }

  /** One item's file, and the file it is replaced by, both with words in them to hear. */
  predicate Replaces(second: Item, first: Item) {
    first.id == second.id && first.etag != second.etag && NeedsTranscript(first, None) && NeedsTranscript(second, None)
  }

  lemma Begun(actions: seq<Action>, it: Item)
    requires |actions| > 2 && actions[0] == Put(it.id, it.etag) && actions[1] == Scan(it)
    ensures Before(actions, 2) == One(it.etag, it, map[], map[], None, {(it.id, it.etag)}, {(it.id, it.etag)})
    ensures Before(actions, 0) == START && Before(actions, 1).jobs == map[]
  {
    NextState(actions, 0);
    NextState(actions, 1);
    FirstSeen(it);
  }

  /** A scan sees the first file and a worker takes it, and then hears the second. */
  function HeardAnother(first: Item, second: Item): seq<Action> {
    [Put(first.id, first.etag), Scan(first), Take(0, first.id, false), Put(first.id, second.etag), Hear(0)]
  }

  lemma AfterTaking(actions: seq<Action>, first: Item, second: Item)
    requires Replaces(second, first) && |actions| >= 5 && actions[..5] == HeardAnother(first, second)
    ensures var a, b, job := (first.id, first.etag), (first.id, second.etag), Some(Hearing(first.id, first.etag, {}, false));
      && Before(actions, 2) == One(first.etag, first, map[], map[], None, {a}, {a})
      && Before(actions, 3) == One(first.etag, first, map[], map[], job, {a}, {a})
      && Before(actions, 4) == One(second.etag, first, map[], map[], job, {a} + {b}, {a})
    ensures Before(actions, 0) == START && Before(actions, 1).jobs == map[]
  {
    assert forall i :: 0 <= i < 5 ==> actions[i] == actions[..5][i];
    Begun(actions, first);
    NextState(actions, 2);
    Taken(Before(actions, 2), first.etag, first);
    NextState(actions, 3);
    AnotherPut(Before(actions, 3), first.etag, first, Some(Hearing(first.id, first.etag, {}, false)), second.etag);
  }

  lemma AfterHearingAnother(actions: seq<Action>, first: Item, second: Item)
    requires Replaces(second, first) && |actions| >= 5 && actions[..5] == HeardAnother(first, second)
    ensures var a, b := (first.id, first.etag), (first.id, second.etag);
      Before(actions, 5) == One(second.etag, first, map[], map[], Some(Hearing(first.id, first.etag, {second.etag}, false)), {a} + {b}, {a})
    ensures forall i :: 0 <= i < 5 ==> Careful(Before(actions, i), actions[i])
  {
    assert forall i :: 0 <= i < 5 ==> actions[i] == actions[..5][i];
    AfterTaking(actions, first, second);
    NextState(actions, 4);
    ReadOnce(Before(actions, 4), second.etag, first, first.etag);
  }

  /** The object is read by its key, and nobody compares what was read with the etag it was
      handed out under: a delivery made before the next scan is accepted, and the library vouches
      for words of a file it has not seen. Nothing crossed and nothing came back; the next scan
      puts the item on the backlog again. */
  lemma HeardBeforeTheScan(first: Item, second: Item)
    requires Replaces(second, first)
    ensures var id, actions := first.id, HeardAnother(first, second) + [Deliver(0, first.etag, 1), Go(0), Go(0)];
      var t := Run(START, actions);
      && (forall i :: 0 <= i < |actions| ==> Careful(Run(START, actions[..i]), actions[i]))
      && Mislabelled(t, id) && t.files[id] == {second.etag} && !InBacklog(t, id)
      && InBacklog(Step(t, Scan(second)), id)
  {
    var actions := HeardAnother(first, second) + [Deliver(0, first.etag, 1), Go(0), Go(0)];
    AfterHearingAnother(actions, first, second);
    NextState(actions, 5);
    NextState(actions, 6);
    NextState(actions, 7);
    Delivered(Before(actions, 5), second.etag, first, {second.etag});
    FileWritten(Before(actions, 6), second.etag, first, {second.etag});
    RowWritten(Before(actions, 7), second.etag, first, {second.etag});
    assert actions[..8] == actions;
    assert second.etag !in {first.etag};
    forall i | 0 <= i < |actions|
      ensures Careful(Before(actions, i), actions[i])
    {
    }
  }

  /** And when the first file is put back before any scan, it stays so: the library, the bucket
      and the row agree, the words are of a file that no scan ever saw, and nobody will hear the
      item again. */
  lemma PutBackUnseen(first: Item, second: Item)
    requires Replaces(second, first)
    ensures var id := first.id;
      var actions := HeardAnother(first, second) + [Put(id, first.etag), Deliver(0, first.etag, 1), Go(0), Go(0)];
      var t := Run(START, actions);
      && (forall i :: 0 <= i < |actions| ==> Alone(Run(START, actions[..i]), actions[i]) && Honest(Run(START, actions[..i]), actions[i]))
      && Mislabelled(t, id) && t.files[id] == {second.etag} && OfTheObject(t, id) && !InBacklog(t, id)
  {
    var id := first.id;
    var actions := HeardAnother(first, second) + [Put(id, first.etag), Deliver(0, first.etag, 1), Go(0), Go(0)];
    AfterHearingAnother(actions, first, second);
    NextState(actions, 5);
    NextState(actions, 6);
    NextState(actions, 7);
    NextState(actions, 8);
    AnotherPut(Before(actions, 5), second.etag, first, Some(Hearing(id, first.etag, {second.etag}, false)), first.etag);
    Delivered(Before(actions, 6), first.etag, first, {second.etag});
    FileWritten(Before(actions, 7), first.etag, first, {second.etag});
    RowWritten(Before(actions, 8), first.etag, first, {second.etag});
    assert actions[..9] == actions;
    assert second.etag !in {first.etag};
    forall i | 0 <= i < |actions|
      ensures Alone(Before(actions, i), actions[i]) && Honest(Before(actions, i), actions[i])
    {
    }
  }

  /** Nothing is heard but what it is named for, and the next step is alone and honest. */
  ghost predicate AsNamed(actions: seq<Action>, i: nat)
    requires i < |actions|
  {
    var s := Before(actions, i);
    (forall j :: j in s.jobs ==> s.jobs[j].heard <= {s.jobs[j].named}) && Alone(s, actions[i]) && Honest(s, actions[i])
  }

  /** One file, known to the library, heard as far as its words on disk. */
  function HeardWell(it: Item): seq<Action> {
    [Take(0, it.id, false), Hear(0), Deliver(0, it.etag, 1), Go(0)]
  }

  /** Where the `k`th step of that leaves the job. */
  function JobAfter(it: Item, k: nat): Option<Job> {
    match k
    case 0 => None
    case 1 => Some(Hearing(it.id, it.etag, {}, false))
    case 2 => Some(Hearing(it.id, it.etag, {it.etag}, false))
    case 3 => Some(FileNext(it.id, it.etag, {it.etag}))
    case _ => Some(RowNext(it.id, it.etag, {it.etag}))
  }

  predicate HearsWell(actions: seq<Action>, n: nat, it: Item) {
    && n + 5 <= |actions| && actions[n..n + 4] == HeardWell(it) && NeedsTranscript(it, None)
    && !actions[n + 4].Take? && !actions[n + 4].Deliver?
    && var s := Before(actions, n);
       s == One(it.etag, it, s.rows, s.files, None, s.stored, s.seen) && Row(s.rows, it.id) != Some(it.etag)
  }

  lemma {:induction false} WhileHearingWell(actions: seq<Action>, n: nat, it: Item, k: nat)
    requires HearsWell(actions, n, it) && k <= 4
    ensures var s := Before(actions, n);
      Before(actions, n + k) ==
        One(it.etag, it, s.rows, if k == 4 then s.files[it.id := {it.etag}] else s.files, JobAfter(it, k), s.stored, s.seen)
  {
    if k > 0 {
      WhileHearingWell(actions, n, it, k - 1);
      var s := Before(actions, n + (k - 1));
      NextState(actions, n + (k - 1));
      assert actions[n + (k - 1)] == actions[n..n + 4][k - 1];
      match k {
        case 1 => Taken(s, it.etag, it);
        case 2 => ReadOnce(s, it.etag, it, it.etag);
        case 3 => Delivered(s, it.etag, it, {it.etag});
        case _ => FileWritten(s, it.etag, it, {it.etag});
      }
    }
  }

  lemma NamedWhileHearing(actions: seq<Action>, n: nat, it: Item, k: nat)
    requires HearsWell(actions, n, it) && k <= 4
    ensures AsNamed(actions, n + k)
  {
    WhileHearingWell(actions, n, it, k);
    if k < 4 {
      assert actions[n + k] == actions[n..n + 4][k];
    }
  }

  lemma AfterHearingWell(actions: seq<Action>, n: nat, it: Item)
    requires HearsWell(actions, n, it)
    ensures var s := Before(actions, n);
      Before(actions, n + 4) == One(it.etag, it, s.rows, s.files[it.id := {it.etag}], JobAfter(it, 4), s.stored, s.seen)
    ensures forall i :: n <= i <= n + 4 ==> AsNamed(actions, i)
  {
    WhileHearingWell(actions, n, it, 4);
    forall i | n <= i <= n + 4
      ensures AsNamed(actions, i)
    {
      NamedWhileHearing(actions, n, it, i - n);
    }
  }

  /** A file is heard; it is replaced, and the new file's words are written but not yet its row
      when the server goes down; and the old file is put back. */
  function PutBack(first: Item, second: Item): seq<Action> {
    [Put(first.id, first.etag), Scan(first)] + HeardWell(first) + [Go(0), Put(first.id, second.etag), Scan(second)]
    + HeardWell(second) + [Restart, Put(first.id, first.etag), Scan(first)]
  }

  lemma PutBackFirstHalf(first: Item, second: Item)
    requires Replaces(second, first)
    ensures var actions, a, b := PutBack(first, second), (first.id, first.etag), (first.id, second.etag);
      Before(actions, 9) == One(second.etag, second, map[first.id := first.etag], map[first.id := {first.etag}], None, {a} + {b}, {a} + {b})
    ensures forall i :: 0 <= i < 9 ==> AsNamed(PutBack(first, second), i)
  {
    var actions := PutBack(first, second);
    Begun(actions, first);
    AfterHearingWell(actions, 2, first);
    NextState(actions, 6);
    RowWritten(Before(actions, 6), first.etag, first, {first.etag});
    NextState(actions, 7);
    AnotherPut(Before(actions, 7), first.etag, first, None, second.etag);
    NextState(actions, 8);
    Scanned(Before(actions, 8), second.etag, first, second);
    assert Before(actions, 7).jobs == map[] && Before(actions, 8).jobs == map[];
  }

  lemma PutBackSecondHalf(first: Item, second: Item)
    requires Replaces(second, first)
    ensures var actions := PutBack(first, second);
      var t := Before(actions, 14);
      && t == One(second.etag, second, map[first.id := first.etag], map[first.id := {second.etag}], None, t.stored, t.seen)
      && (first.id, first.etag) in t.stored
    ensures forall i :: 9 <= i < 14 ==> AsNamed(PutBack(first, second), i)
  {
    var actions := PutBack(first, second);
    PutBackFirstHalf(first, second);
    AfterHearingWell(actions, 9, second);
    NextState(actions, 13);
    RowWritten(Before(actions, 13), second.etag, second, {second.etag});
  }

  lemma PutBackLast(first: Item, second: Item)
    requires Replaces(second, first)
    ensures var t := Before(PutBack(first, second), 16);
      t == One(first.etag, first, map[first.id := first.etag], map[first.id := {second.etag}], None, t.stored, t.seen)
    ensures forall i :: 14 <= i < 16 ==> AsNamed(PutBack(first, second), i)
  {
    var actions := PutBack(first, second);
    PutBackSecondHalf(first, second);
    NextState(actions, 14);
    AnotherPut(Before(actions, 14), second.etag, second, None, first.etag);
    NextState(actions, 15);
    Scanned(Before(actions, 15), first.etag, second, first);
  }

  /** One transcript at a time, each of the very bytes it names, is not enough when an etag comes
      back: the row counts, the words are the other file's, and nobody will hear it again. */
  lemma RestoredFileIsMislabelled(first: Item, second: Item)
    requires Replaces(second, first)
    ensures var actions, id := PutBack(first, second), first.id;
      var t := Run(START, actions);
      && (forall i :: 0 <= i < |actions| ==> AsNamed(actions, i))
      && Mislabelled(t, id) && t.files[id] == {second.etag} && OfTheObject(t, id) && !InBacklog(t, id)
  {
    var actions := PutBack(first, second);
    PutBackFirstHalf(first, second);
    PutBackSecondHalf(first, second);
    PutBackLast(first, second);
    assert actions[..16] == actions;
    assert second.etag !in {first.etag};
  }
}
