/** The run: one member after another until the one the passage names
    (cmd/server/session.go handleSessionNext, internal/works Neighbours, and the client's
    runContinues in web/passage.js). */
module Runs {
  import opened Options
  import opened Marks

  /** A member as a run meets it: bonus material or not, probed or not, and whether this device is
      denied it. */
  datatype Member = Member(id: ItemId, extra: bool, probed: bool, denied: bool)

  // ── the neighbour ─────────────────────────────────────────────────────

  /** The real members of a work, in order: bonus material is never played into. */
  function Real(members: seq<Member>): seq<Member> {
    if members == [] then []
    else (if members[0].extra then [] else [members[0]]) + Real(members[1..])
  }

  function Ids(members: seq<Member>): (ids: seq<ItemId>)
    ensures |ids| == |members| && forall k :: 0 <= k < |members| ==> ids[k] == members[k].id
  {
    seq(|members|, k requires 0 <= k < |members| => members[k].id)
  }

  /** The member after `id`, by the list of real members alone. */
  function NextOf(order: seq<Member>, id: ItemId): Option<Member> {
    if id !in Ids(order) || Rank(Ids(order), id) + 1 == |order| then None else Some(order[Rank(Ids(order), id) + 1])
  }

  lemma {:induction false} RealConcat(a: seq<Member>, b: seq<Member>)
    ensures Real(a + b) == Real(a) + Real(b)
  {
    if a == [] {
      assert a + b == b;
    } else {
      assert (a + b)[1..] == a[1..] + b;
      RealConcat(a[1..], b);
    }
  }

  /** None of them is real and has this id. */
  predicate NotAmong(members: seq<Member>, id: ItemId) {
    forall m :: m in members && m.id == id ==> m.extra
  }

  lemma {:induction false} RealHolds(members: seq<Member>, id: ItemId)
    ensures id in Ids(Real(members)) <==> !NotAmong(members, id)
  {
    if members != [] {
      var rest := members[1..];
      RealHolds(rest, id);
      var front: seq<Member> := if members[0].extra then [] else [members[0]];
      assert Ids(Real(members)) == Ids(front) + Ids(Real(rest));
      assert Ids(front) == if members[0].extra then [] else [members[0].id];
      assert NotAmong(members, id) <==> NotAmong(rest, id) && (members[0].id == id ==> members[0].extra);
    }
  }

  /** Past a first part that does not hold it, the member after `m` is the first of what follows. */
  lemma NextInConcat(front: seq<Member>, m: Member, rest: seq<Member>)
    requires m.id !in Ids(front)
    ensures NextOf(front + [m] + rest, m.id) == if rest == [] then None else Some(rest[0])
  {
    var order := front + [m] + rest;
    assert Ids(order)[..|front|] == Ids(front) && Ids(order)[|front|] == m.id;
    FirstIsRank(Ids(order), |front|);
  }

  /** works.Neighbours, the half a run uses: find the member, then scan on past the extras. */
  method NextMember(members: seq<Member>, id: ItemId) returns (next: Option<Member>)
    ensures next == NextOf(Real(members), id)
  {
    for i := 0 to |members|
      invariant NotAmong(members[..i], id)
    {
      if members[i].id == id && !members[i].extra {
        RealSplit(members, i);
        RealHolds(members[..i], id);
        NextInConcat(Real(members[..i]), members[i], Real(members[i + 1..]));
        for j := i + 1 to |members|
          invariant Real(members[i + 1..]) == Real(members[j..])
        {
          if !members[j].extra {
            return Some(members[j]);
          }
        }
        return None;
      }
    }
    assert members[..|members|] == members;
    RealHolds(members, id);
    return None;
  }

  lemma RealSplit(members: seq<Member>, i: nat)
    requires i < |members| && !members[i].extra
    ensures Real(members) == Real(members[..i]) + [members[i]] + Real(members[i + 1..])
  {
    assert members == members[..i] + members[i..];
    assert members[i..][1..] == members[i + 1..];
    RealConcat(members[..i], members[i..]);
  }

  // ── the passage of the next member ────────────────────────────────────

  /** The server's: `until` and `end` carry on, `t` and the text bounds do not. */
  function PassageForNext(p: Option<SessionPassage>, item: ItemId): Option<SessionPassage> {
    if p.None? || p.value.until.None? then None else
    var out := SessionPassage(None, p.value.end, p.value.until, "", "", None);
    Some(out.(endsAt := EndsAt(out, item)))
  }

  /** The client's runContinues, asked when `item` has ended. */
  predicate RunContinues(p: Option<SessionPassage>, item: ItemId) {
    p.Some? && p.value.until.Some? && item != p.value.until.value
  }

  /** One session of a run: the member it plays and the passage it plays under. */
  datatype Sitting = Sitting(item: ItemId, passage: Option<SessionPassage>)

  /** What POST next answers: a new session, or one of its refusals. */
  datatype Advance =
    | Started(at: Sitting)
    | NoNextMember
    | UnprobedItem(id: ItemId)
    | PlaybackDenied(id: ItemId)

  /** handleSessionNext, the refusals in turn. */
  function PostNext(order: seq<Member>, at: Sitting): Advance {
    var next := NextOf(order, at.item);
    if next.None? then NoNextMember
    else if !next.value.probed then UnprobedItem(next.value.id)
    else if next.value.denied then PlaybackDenied(next.value.id)
    else Started(Sitting(next.value.id, PassageForNext(at.passage, next.value.id)))
  }

  /** The whole run from one sitting: each natural end asks runContinues, and POST next is
      answered by a session or the run is over. */
  function Sittings(order: seq<Member>, at: Sitting): seq<Sitting>
    requires Distinct(Ids(order))
    decreases if at.item in Ids(order) then |order| - Rank(Ids(order), at.item) else 0
  {
    if !RunContinues(at.passage, at.item) || !PostNext(order, at).Started? then [at] else
    RankOfPlace(Ids(order), Rank(Ids(order), at.item) + 1);
    [at] + Sittings(order, PostNext(order, at).at)
  }

  lemma RankOfPlace(order: seq<ItemId>, k: nat)
    requires Distinct(order) && k < |order|
    ensures Rank(order, order[k]) == k
  {
    FirstIsRank(order, k);
  }

  predicate Starts(m: Member) {
    m.probed && !m.denied
  }

  /** Every member after `i` up to `j` can be started here. */
  predicate AllStart(order: seq<Member>, i: nat, j: nat) {
    forall k :: i < k <= j && k < |order| ==> Starts(order[k])
  }

  /** How far from member i on towards member j: to j, or up to the first that cannot be started. */
  function Reach(order: seq<Member>, i: nat, j: nat): (r: nat)
    requires i <= j < |order|
    ensures i <= r <= j && AllStart(order, i, r)
    ensures r < j ==> !Starts(order[r + 1])
    decreases j - i
  {
    if i == j || !Starts(order[i + 1]) then i else Reach(order, i + 1, j)
  }

  /** Where a run that starts at member i and is to last until `until` would stop if everything
      could be played: on that member when it is still ahead, and otherwise on the work's last. */
  function LastOf(order: seq<Member>, i: nat, until: ItemId): (j: nat)
    requires i < |order|
    ensures i <= j < |order|
  {
    if until in Ids(order) && i <= Rank(Ids(order), until) then Rank(Ids(order), until) else |order| - 1
  }

  /** The member a run really stops at. */
  function StopsAt(order: seq<Member>, i: nat, until: ItemId): (r: nat)
    requires i < |order|
    ensures i <= r <= LastOf(order, i, until)
  {
    Reach(order, i, LastOf(order, i, until))
  }

  /** The sittings are of the members from `i` on, one after another: the first under its passage,
      and every later one under what is left of it. It keeps `until` and `end`, has no `t`, and
      publishes an end exactly when it is the member the run is until. */
  predicate PlaysFrom(order: seq<Member>, i: nat, p: SessionPassage, run: seq<Sitting>) {
    && 1 <= |run| <= |order| - i && run[0] == Sitting(order[i].id, Some(p))
    && (forall k :: 1 <= k < |run| ==> run[k] == Sitting(order[i + k].id, Some(SessionPassage(None, p.end, p.until, "", "",
          if p.until == Some(order[i + k].id) then p.end else None))))
  }

  lemma PlaysFromBefore(order: seq<Member>, i: nat, p: SessionPassage, next: SessionPassage, rest: seq<Sitting>)
    requires i + 1 < |order| && p.until.Some? && PassageForNext(Some(p), order[i + 1].id) == Some(next)
    requires PlaysFrom(order, i + 1, next, rest)
    ensures PlaysFrom(order, i, p, [Sitting(order[i].id, Some(p))] + rest)
  {
    var run := [Sitting(order[i].id, Some(p))] + rest;
    forall k | 2 <= k < |run|
      ensures run[k] == rest[k - 1] && i + k == i + 1 + (k - 1)
    {
    }
  }

  /** A run plays every member from the first, once each and in order, to the one it is until, or
      up to the first that is not probed or that this device is denied. */
  lemma {:induction false} RunPlaysThrough(order: seq<Member>, i: nat, p: SessionPassage)
    requires Distinct(Ids(order)) && i < |order| && p.until.Some?
    ensures var run := Sittings(order, Sitting(order[i].id, Some(p)));
      PlaysFrom(order, i, p, run) && |run| == StopsAt(order, i, p.until.value) - i + 1
    decreases |order| - i
  {
    var at, until := Sitting(order[i].id, Some(p)), p.until.value;
    NextInOrder(order, i, at);
    if order[i].id == until || i + 1 == |order| {
      OnTheLast(order, i, until);
      assert Sittings(order, at) == [at];
    } else {
      NotYetLast(order, i, until);
      if Starts(order[i + 1]) {
        var next := PassageForNext(Some(p), order[i + 1].id).value;
        var rest := Sittings(order, Sitting(order[i + 1].id, Some(next)));
        RunPlaysThrough(order, i + 1, next);
        PlaysFromBefore(order, i, p, next, rest);
        assert Sittings(order, at) == [at] + rest;
      } else {
        assert Sittings(order, at) == [at];
      }
    }
  }

  lemma NextInOrder(order: seq<Member>, i: nat, at: Sitting)
    requires Distinct(Ids(order)) && i < |order| && at.item == order[i].id
    ensures NextOf(order, at.item) == if i + 1 == |order| then None else Some(order[i + 1])
    ensures PostNext(order, at).Started? <==> i + 1 < |order| && Starts(order[i + 1])
  {
    RankOfPlace(Ids(order), i);
  }

  lemma OnTheLast(order: seq<Member>, i: nat, until: ItemId)
    requires Distinct(Ids(order)) && i < |order| && (order[i].id == until || i + 1 == |order|)
    ensures StopsAt(order, i, until) == i
  {
    RankOfPlace(Ids(order), i);
    assert Ids(order)[i] == order[i].id;
  }

  lemma NotYetLast(order: seq<Member>, i: nat, until: ItemId)
    requires Distinct(Ids(order)) && i + 1 < |order| && order[i].id != until
    ensures StopsAt(order, i, until) == if Starts(order[i + 1]) then StopsAt(order, i + 1, until) else i
  {
    RankOfPlace(Ids(order), i);
    assert until in Ids(order) ==> Rank(Ids(order), until) != i;
    assert LastOf(order, i, until) == LastOf(order, i + 1, until);
  }

  /** The member a run is until is ahead of where it starts. */
  predicate Ahead(order: seq<Member>, i: nat, until: ItemId) {
    until in Ids(order) && i < Rank(Ids(order), until)
  }

  /** The end of a run is published on its own member alone, when that member is reached: some
      sitting past the first publishes it exactly when that member is ahead and every member up to
      it can be started, and then it is the run's last. */
  lemma {:induction false} EndPublishedOnce(order: seq<Member>, i: nat, p: SessionPassage)
    requires Distinct(Ids(order)) && i < |order| && p.until.Some? && p.end.Some?
    ensures var run, until := Sittings(order, Sitting(order[i].id, Some(p))), p.until.value;
      && (forall k :: 1 <= k < |run| ==> run[k].passage.Some?)
      && (forall k :: 1 <= k < |run| && run[k].passage.value.endsAt.Some? ==> k == |run| - 1 && run[k].item == until)
      && ((exists k :: 1 <= k < |run| && run[k].passage.value.endsAt.Some?) <==>
            Ahead(order, i, until) && AllStart(order, i, Rank(Ids(order), until)))
  {
    var run, until := Sittings(order, Sitting(order[i].id, Some(p))), p.until.value;
    RunPlaysThrough(order, i, p);
    forall k | 1 <= k < |run|
      ensures run[k].passage.value.endsAt.Some? <==> run[k].item == until
      ensures run[k].item == order[i + k].id
      ensures run[k].item == until ==> k == |run| - 1 && Ahead(order, i, until) && Rank(Ids(order), until) == i + k
    {
      AtMember(Ids(order), i + k, until);
    }
    if Ahead(order, i, until) && AllStart(order, i, Rank(Ids(order), until)) {
      var j := Rank(Ids(order), until);
      assert StopsAt(order, i, until) == j;
      assert run[j - i].item == until;
    }
  }

  /** And a run that is refused on its way stops there, short of the member it is until. */
  lemma {:induction false} RefusedRunFallsShort(order: seq<Member>, i: nat, p: SessionPassage, k: nat)
    requires Distinct(Ids(order)) && i < |order| && p.until.Some? && Ahead(order, i, p.until.value)
    requires i < k <= Rank(Ids(order), p.until.value) && AllStart(order, i, k - 1) && !Starts(order[k])
    ensures var run := Sittings(order, Sitting(order[i].id, Some(p)));
      && |run| == k - i
      && PostNext(order, run[|run| - 1]) == (if order[k].probed then PlaybackDenied(order[k].id) else UnprobedItem(order[k].id))
  {
    RunPlaysThrough(order, i, p);
    StopsShort(order, i, p.until.value, k);
    NextInOrder(order, k - 1, Sittings(order, Sitting(order[i].id, Some(p)))[k - i - 1]);
  }

  lemma StopsShort(order: seq<Member>, i: nat, until: ItemId, k: nat)
    requires i < |order| && Ahead(order, i, until)
    requires i < k <= Rank(Ids(order), until) && AllStart(order, i, k - 1) && !Starts(order[k])
    ensures StopsAt(order, i, until) == k - 1
  {
  }

  lemma AtMember(order: seq<ItemId>, n: nat, id: ItemId)
    requires Distinct(order) && n < |order|
    ensures order[n] == id <==> id in order && Rank(order, id) == n
  {
    RankOfPlace(order, n);
  }

  // ── the link form ─────────────────────────────────────────────────────

  /** The client's passageForNext: a link knows only the item it opens, so `end` goes too. */
  function LinkForNext(p: Option<SessionPassage>): Option<SessionPassage> {
    if p.None? || p.value.until.None? then None
    else Some(SessionPassage(None, None, p.value.until, "", "", None))
  }

  /** The two forms say the same exactly when there was no end to lose, and nothing when there is no
      run. */
  lemma LinkFormLosesTheEnd(p: SessionPassage, item: ItemId)
    ensures p.until.None? ==> PassageForNext(Some(p), item) == LinkForNext(Some(p)) == None
    ensures p.until.Some? ==> LinkForNext(Some(p)) == Some(SessionPassage(None, None, p.until, "", "", None))
    ensures p.until.Some? ==> (PassageForNext(Some(p), item) == LinkForNext(Some(p)) <==> p.end.None?)
    ensures RunContinues(PassageForNext(Some(p), item), item) == RunContinues(LinkForNext(Some(p)), item)
  {
  }
}
