/** The registry of live plays (cmd/server/session.go): what each locked call does to it, and
    the class that does it in place. Times are milliseconds. */
module Registry {
  import opened Options
  import opened Marks

  type SessionId = string

  /** One play: the parts of the row the passage rule and the marks depend on. */
  datatype Row = Row(
    item: ItemId, client: string, work: string, reading: bool, pipeline: string,
    passage: Option<SessionPassage>, marks: MarkPair, touched: int)

  datatype Memo = Memo(marks: MarkPair, at: int)

  /** One profile's marks in one work. */
  type MemoKey = (string, string)

  datatype Registry = Registry(rows: map<SessionId, Row>, memos: map<MemoKey, Memo>)

  const MARK_MEMO_TTL := 120_000
  const SESSION_IDLE := 300_000
  const READ_IDLE := 14_400_000

  // ── the locked calls ──────────────────────────────────────────────────

  function Put(reg: Registry, id: SessionId, row: Row, now: int): Registry {
    reg.(rows := reg.rows[id := row.(touched := now)])
  }

  function Update(reg: Registry, id: SessionId, fn: Row -> Row, now: int): Registry {
    if id in reg.rows then reg.(rows := reg.rows[id := fn(reg.rows[id]).(touched := now)]) else reg
  }

  function Touch(reg: Registry, id: SessionId, now: int): Registry {
    Update(reg, id, (row: Row) => row, now)
  }

  function DropRow(reg: Registry, id: SessionId): Registry {
    reg.(rows := reg.rows - {id})
  }

  function KeyOf(row: Row): MemoKey {
    (row.client, row.work)
  }

  function Remember(reg: Registry, row: Row, now: int): Registry {
    if row.work == "" then reg
    else if !row.marks.Any() then reg.(memos := reg.memos - {KeyOf(row)})
    else reg.(memos := reg.memos[KeyOf(row) := Memo(row.marks, now)])
  }

  function MarksInWork(reg: Registry, key: MemoKey, now: int): MarkPair {
    if key.1 == "" || key !in reg.memos || now - reg.memos[key].at > MARK_MEMO_TTL then UNMARKED
    else reg.memos[key].marks
  }

  /** A row that holds the place of this item still for this profile. */
  predicate Holds(row: Row, item: ItemId, client: string) {
    row.item == item && row.client == client && row.passage.Some?
  }

  predicate PassageOn(reg: Registry, item: ItemId, client: string) {
    exists id :: id in reg.rows && Holds(reg.rows[id], item, client)
  }

  /** A transcode goes with its stream, a book after hours, anything else after minutes. */
  predicate Gone(row: Row, now: int, live: set<string>) {
    if row.pipeline != "" then row.pipeline !in live
    else now - row.touched > (if row.reading then READ_IDLE else SESSION_IDLE)
  }

  function Reap(reg: Registry, now: int, live: set<string>): Registry {
    reg.(rows := map id | id in reg.rows && !Gone(reg.rows[id], now, live) :: reg.rows[id])
  }

  // ── the class ─────────────────────────────────────────────────────────

  /** playSessions: two maps the methods write under one lock. */
  class PlaySessions {
    var rows: map<SessionId, Row>
    var lastMarks: map<MemoKey, Memo>

    function View(): Registry
      reads this
    {
      Registry(rows, lastMarks)
    }

    constructor ()
      ensures View() == Registry(map[], map[])
    {
      rows, lastMarks := map[], map[];
    }

    method PutRow(id: SessionId, row: Row, now: int)
      modifies this
      ensures View() == Put(old(View()), id, row, now)
    {
      rows := rows[id := row.(touched := now)];
    }

    method Get(id: SessionId, now: int) returns (row: Option<Row>)
      modifies this
      ensures View() == Touch(old(View()), id, now)
      ensures row == if id in old(rows) then Some(old(rows)[id].(touched := now)) else None
    {
      if id !in rows { return None; }
      rows := rows[id := rows[id].(touched := now)];
      return Some(rows[id]);
    }

    method UpdateRow(id: SessionId, fn: Row -> Row, now: int) returns (row: Option<Row>)
      modifies this
      ensures View() == Update(old(View()), id, fn, now)
      ensures row == if id in old(rows) then Some(rows[id]) else None
    {
      if id !in rows { return None; }
      rows := rows[id := fn(rows[id]).(touched := now)];
      return Some(rows[id]);
    }

    method RememberRow(row: Row, now: int)
      modifies this
      ensures View() == Remember(old(View()), row, now)
    {
      if row.work == "" { return; }
      if !row.marks.Any() {
        lastMarks := lastMarks - {KeyOf(row)};
        return;
      }
      lastMarks := lastMarks[KeyOf(row) := Memo(row.marks, now)];
    }

    /** drop: the row under one lock, its marks remembered under another. */
    method Drop(id: SessionId, now: int)
      modifies this
      ensures var was := old(View());
        View() == if id in was.rows then Remember(DropRow(was, id), was.rows[id], now) else was
    {
      var gone := if id in rows then Some(rows[id]) else None;
      assert id !in rows ==> rows - {id} == rows;
      rows := rows - {id};
      if gone.Some? {
        RememberRow(gone.value, now);
      }
    }

    /** passageOn: the rows come in no particular order, so any one that holds the place
        may be the answer. */
    method FindPassageOn(item: ItemId, client: string) returns (row: Option<Row>)
      ensures row.Some? <==> PassageOn(View(), item, client)
      ensures row.Some? ==> row.value in rows.Values && Holds(row.value, item, client)
    {
      var todo := rows.Keys;
      while todo != {}
        invariant todo <= rows.Keys
        invariant forall id :: id in rows.Keys - todo ==> !Holds(rows[id], item, client)
      {
        var id :| id in todo;
        if Holds(rows[id], item, client) { return Some(rows[id]); }
        todo := todo - {id};
      }
      return None;
    }

    method Inherit(client: string, work: string, now: int) returns (m: MarkPair)
      ensures m == MarksInWork(View(), (client, work), now)
    {
      if work == "" { return UNMARKED; }
      if (client, work) !in lastMarks { return UNMARKED; }
      var memo := lastMarks[(client, work)];
      if now - memo.at > MARK_MEMO_TTL { return UNMARKED; }
      return memo.marks;
    }

    /** reapIdle: the map is shrunk while it is walked; the ids dropped are answered once each. */
    method ReapIdle(now: int, live: set<string>) returns (dropped: seq<SessionId>)
      modifies this
      ensures View() == Reap(old(View()), now, live)
      ensures forall id :: multiset(dropped)[id] == if id in old(rows) && id !in rows then 1 else 0
    {
      ghost var was := rows;
      var todo := rows.Keys;
      dropped := [];
      while todo != {}
        invariant todo <= rows.Keys <= was.Keys && lastMarks == old(lastMarks)
        invariant forall id :: id in was ==> (id in rows <==> id in todo || !Gone(was[id], now, live))
        invariant forall id :: id in rows ==> rows[id] == was[id]
        invariant forall id :: multiset(dropped)[id] == if id in was && id !in rows then 1 else 0
      {
        var id :| id in todo;
        todo := todo - {id};
        if Gone(rows[id], now, live) {
          rows := rows - {id};
          dropped := dropped + [id];
        }
      }
    }
  }
}
