/** The store of processed update ids: an update is taken once, and only the newest `maxEntries` ids
    are remembered. */
module UpdateWindow {
  import opened Sets

  type UpdateId = int

  /** The processed updates; `update_id` is the primary key, the value is `processed_at`. */
  type Table = map<UpdateId, int>

  datatype Mark = Mark(id: UpdateId, now: int)

  /** The order of rows by `processed_at`, then `update_id`. */
  predicate Before(a: Mark, b: Mark) {
    a.now < b.now || (a.now == b.now && a.id < b.id)
  }

  function RowOf(rows: Table, id: UpdateId): Mark
    requires id in rows
  {
    Mark(id, rows[id])
  }

  function LaterRows(rows: Table, id: UpdateId): set<UpdateId>
    requires id in rows
  {
    set other | other in rows && Before(RowOf(rows, id), RowOf(rows, other))
  }

  /** `_trim_old_entries`: what remains when all rows after the first `n`, newest first, are deleted. */
  function Trimmed(rows: Table, n: nat): Table {
    map id | id in rows && |LaterRows(rows, id)| < n :: rows[id]
  }

  /** What `mark_processed` leaves: an id that is already there violates the primary key. */
  function AfterMark(rows: Table, m: Mark, n: nat): Table {
    if m.id in rows then rows else Trimmed(rows[m.id := m.now], n)
  }

  class UpdateStore {
    const maxEntries: nat
    var rows: Table
    /** The accepted updates, in order. */
    ghost var log: seq<Mark>

    ghost predicate Valid()
      reads this
    {
      HoldsLatest(rows, log, maxEntries) && (Ordered(log) ==> Holds(rows, Newest(log, maxEntries)))
    }

    constructor (maxEntries: nat)
      ensures Valid() && this.maxEntries == maxEntries && rows == map[] && log == []
    {
      this.maxEntries := maxEntries;
      rows := map[];
      log := [];
    }

    method MarkProcessed(id: UpdateId, now: int) returns (accepted: bool)
      requires Valid()
      modifies this
      ensures Valid()
      ensures accepted <==> id !in old(rows)
      ensures rows == AfterMark(old(rows), Mark(id, now), maxEntries)
      ensures log == if accepted then old(log) + [Mark(id, now)] else old(log)
      ensures Mark(id, now) in log ==> (Held(rows, Mark(id, now)) <==> |LaterMarks(log, Mark(id, now))| < maxEntries)
      ensures Ordered(old(log)) && !accepted ==> IdIn(id, Newest(old(log), maxEntries))
      ensures Ordered(old(log)) && accepted ==> !IdIn(id, Newest(old(log), maxEntries))
    {
      if id in rows {
        if Ordered(log) {
          assert RowOf(rows, id) in Newest(log, maxEntries);
        }
        if Mark(id, now) in log { LatestHeldExactly(rows, log, Mark(id, now), maxEntries); }
        return false;
      }
      var inserted := rows[id := now];
      MarkKeepsLatest(rows, log, Mark(id, now), maxEntries);
      LatestHeldExactly(Trimmed(inserted, maxEntries), log + [Mark(id, now)], Mark(id, now), maxEntries);
      if Ordered(log + [Mark(id, now)]) {
        OrderedPrefix(log, Mark(id, now));
        MarkKeepsWindow(rows, log, Mark(id, now), maxEntries);
      }
      rows := Trimmed(inserted, maxEntries);
      log := log + [Mark(id, now)];
      accepted := true;
    }
  }

  // ---------------------------------------------------------------- the window

  ghost predicate Ordered(log: seq<Mark>) {
    forall i, j | 0 <= i < j < |log| :: Before(log[i], log[j])
  }

  function Newest(log: seq<Mark>, n: nat): seq<Mark> {
    if |log| <= n then log else log[|log| - n..]
  }

  predicate IdIn(id: UpdateId, entries: seq<Mark>) {
    exists i | 0 <= i < |entries| :: entries[i].id == id
  }

  /** The table holds exactly these entries. */
  predicate Holds(rows: Table, entries: seq<Mark>) {
    && (forall i | 0 <= i < |entries| :: entries[i].id in rows && RowOf(rows, entries[i].id) == entries[i])
    && (forall id | id in rows :: RowOf(rows, id) in entries)
  }

  lemma OrderedPrefix(log: seq<Mark>, m: Mark)
    requires Ordered(log + [m])
    ensures Ordered(log)
  {
    forall i, j | 0 <= i < j < |log| ensures Before(log[i], log[j]) {
      assert Before((log + [m])[i], (log + [m])[j]);
    }
  }

  /** The ids of the entries from `i` on. */
  function IdsFrom(entries: seq<Mark>, i: nat): set<UpdateId>
    requires i <= |entries|
    decreases |entries| - i
  {
    if i == |entries| then {} else {entries[i].id} + IdsFrom(entries, i + 1)
  }

  lemma IdsFromMembers(entries: seq<Mark>, i: nat, id: UpdateId)
    requires i <= |entries|
    ensures id in IdsFrom(entries, i) <==> exists j | i <= j < |entries| :: entries[j].id == id
    decreases |entries| - i
  {
    if i < |entries| { IdsFromMembers(entries, i + 1, id); }
  }

  lemma IdsFromCount(rows: Table, entries: seq<Mark>, i: nat)
    requires i <= |entries| && Ordered(entries) && Holds(rows, entries)
    ensures |IdsFrom(entries, i)| == |entries| - i
    decreases |entries| - i
  {
    if i < |entries| {
      IdsFromCount(rows, entries, i + 1);
      IdsFromMembers(entries, i + 1, entries[i].id);
      forall j | i + 1 <= j < |entries| ensures entries[j].id != entries[i].id {
        assert Before(entries[i], entries[j]);
      }
    }
  }

  /** In an ordered sequence, later entries are the ones that follow. */
  lemma OrderedPositions(entries: seq<Mark>, i: nat, j: nat)
    requires i < |entries| && j < |entries| && Ordered(entries)
    ensures Before(entries[i], entries[j]) <==> i < j
  {
    if j < i { assert Before(entries[j], entries[i]); }
  }

  /** In an ordered table, the rows later than an entry are the entries that follow it. */
  lemma LaterRowsFollow(rows: Table, entries: seq<Mark>, i: nat, other: UpdateId)
    requires i < |entries| && Ordered(entries) && Holds(rows, entries)
    ensures other in LaterRows(rows, entries[i].id) <==> other in IdsFrom(entries, i + 1)
  {
    IdsFromMembers(entries, i + 1, other);
    if other in rows {
      var j :| 0 <= j < |entries| && entries[j] == RowOf(rows, other);
      OrderedPositions(entries, i, j);
    }
    if other in IdsFrom(entries, i + 1) {
      var k :| i + 1 <= k < |entries| && entries[k].id == other;
      OrderedPositions(entries, i, k);
    }
  }

  lemma LaterRowsCount(rows: Table, entries: seq<Mark>, i: nat)
    requires i < |entries| && Ordered(entries) && Holds(rows, entries)
    ensures |LaterRows(rows, entries[i].id)| == |entries| - 1 - i
  {
    forall other ensures other in LaterRows(rows, entries[i].id) <==> other in IdsFrom(entries, i + 1) {
      LaterRowsFollow(rows, entries, i, other);
    }
    assert LaterRows(rows, entries[i].id) == IdsFrom(entries, i + 1);
    IdsFromCount(rows, entries, i + 1);
  }

  /** Trimming keeps an entry exactly if fewer than `n` follow it. */
  lemma KeptExactly(rows: Table, entries: seq<Mark>, n: nat, i: nat)
    requires i < |entries| && Ordered(entries) && Holds(rows, entries)
    ensures entries[i].id in Trimmed(rows, n) <==> |entries| - n <= i
    ensures entries[i].id in Trimmed(rows, n) ==> RowOf(Trimmed(rows, n), entries[i].id) == entries[i]
  {
    LaterRowsCount(rows, entries, i);
  }

  /** An entry is among the newest exactly if fewer than `n` follow it. */
  lemma NewestExactly(entries: seq<Mark>, n: nat, i: nat)
    requires i < |entries|
    ensures |entries| - n <= i ==> entries[i] in Newest(entries, n)
    ensures i < |Newest(entries, n)| ==> Newest(entries, n)[i] == entries[|entries| - |Newest(entries, n)| + i]
  {
    var from := |entries| - |Newest(entries, n)|;
    assert from <= i ==> Newest(entries, n)[i - from] == entries[i];
  }

  lemma TrimKeepsNewest(rows: Table, entries: seq<Mark>, n: nat)
    requires Ordered(entries) && Holds(rows, entries)
    ensures Holds(Trimmed(rows, n), Newest(entries, n))
  {
    var kept, newest := Trimmed(rows, n), Newest(entries, n);
    forall i | 0 <= i < |newest|
      ensures newest[i].id in kept && RowOf(kept, newest[i].id) == newest[i]
    {
      NewestExactly(entries, n, i);
      KeptExactly(rows, entries, n, |entries| - |newest| + i);
    }
    forall id | id in kept ensures RowOf(kept, id) in newest {
      var i :| 0 <= i < |entries| && entries[i] == RowOf(rows, id);
      KeptExactly(rows, entries, n, i);
      NewestExactly(entries, n, i);
    }
  }

  lemma NewestOrdered(log: seq<Mark>, n: nat)
    requires Ordered(log)
    ensures Ordered(Newest(log, n))
  {
    var w := Newest(log, n);
    var from := |log| - |w|;
    forall i, j | 0 <= i < j < |w| ensures Before(w[i], w[j]) {
      assert Before(log[from + i], log[from + j]);
    }
  }

  lemma NewestExtended(log: seq<Mark>, m: Mark, n: nat)
    ensures Newest(Newest(log, n) + [m], n) == Newest(log + [m], n)
  {
  }

  /** One accepted update moves the window by one. */
  lemma MarkKeepsWindow(rows: Table, log: seq<Mark>, m: Mark, n: nat)
    requires Ordered(log + [m]) && Holds(rows, Newest(log, n)) && m.id !in rows
    ensures Holds(AfterMark(rows, m, n), Newest(log + [m], n))
  {
    var entries := Newest(log, n) + [m];
    NewestOrdered(log + [m], n + 1);
    assert Newest(log + [m], n + 1) == entries;
    var inserted := rows[m.id := m.now];
    assert Holds(inserted, entries) by {
      forall id | id in inserted ensures RowOf(inserted, id) in entries {
        if id == m.id {
          assert entries[|entries| - 1] == m;
        } else {
          var i :| 0 <= i < |Newest(log, n)| && Newest(log, n)[i] == RowOf(rows, id);
          assert entries[i] == RowOf(rows, id);
        }
      }
    }
    TrimKeepsNewest(inserted, entries, n);
    NewestExtended(log, m, n);
  }

  // ---------------------------------------------------------------- any order of times

  /** Some row of a non-empty set is not later than any other. */
  lemma OldestExists(rows: Table, ids: set<UpdateId>) returns (oldest: UpdateId)
    requires |ids| > 0 && ids <= rows.Keys
    ensures oldest in ids
    ensures forall id | id in ids && id != oldest :: Before(RowOf(rows, oldest), RowOf(rows, id))
  {
    oldest := Member(ids);
    var rest := ids - {oldest};
    if |rest| > 0 {
      var other := OldestExists(rows, rest);
      if Before(RowOf(rows, other), RowOf(rows, oldest)) { oldest := other; }
    }
  }

  /** However the times run, no more than the limit remains. */
  lemma TrimmedWithinLimit(rows: Table, n: nat)
    ensures |Trimmed(rows, n)| <= n
  {
    var kept := Trimmed(rows, n).Keys;
    if |kept| > 0 {
      var oldest := OldestExists(rows, kept);
      SubsetSize(kept - {oldest}, LaterRows(rows, oldest));
    }
    assert |Trimmed(rows, n)| == |kept|;
  }

  // ---------------------------------------------------------------- whole runs

  datatype State = State(rows: Table, log: seq<Mark>)

  /** A fresh store after these calls. */
  function Run(calls: seq<Mark>, n: nat): State {
    if calls == [] then State(map[], [])
    else
      var s, m := Run(calls[..|calls| - 1], n), calls[|calls| - 1];
      State(AfterMark(s.rows, m, n), if m.id in s.rows then s.log else s.log + [m])
  }

  /** While updates are accepted in the order of their rows, the table is always exactly the last
      `n` accepted updates. */
  lemma {:induction false} WindowIsNewest(calls: seq<Mark>, n: nat)
    requires Ordered(Run(calls, n).log)
    ensures Holds(Run(calls, n).rows, Newest(Run(calls, n).log, n))
  {
    if calls != [] {
      var s, m := Run(calls[..|calls| - 1], n), calls[|calls| - 1];
      if m.id !in s.rows { OrderedPrefix(s.log, m); }
      WindowIsNewest(calls[..|calls| - 1], n);
      if m.id !in s.rows { MarkKeepsWindow(s.rows, s.log, m, n); }
    }
  }

  /** An update id is accepted again only after at least `n` others were accepted in between. */
  lemma {:induction false} AcceptedAgainOnlyAfter(calls: seq<Mark>, n: nat, i: nat, j: nat)
    requires Ordered(Run(calls, n).log)
    requires i < j < |Run(calls, n).log| && Run(calls, n).log[i].id == Run(calls, n).log[j].id
    ensures j - i - 1 >= n
  {
    var s, m := Run(calls[..|calls| - 1], n), calls[|calls| - 1];
    if m.id in s.rows {
      AcceptedAgainOnlyAfter(calls[..|calls| - 1], n, i, j);
    } else {
      OrderedPrefix(s.log, m);
      if j < |s.log| {
        AcceptedAgainOnlyAfter(calls[..|calls| - 1], n, i, j);
      } else {
        WindowIsNewest(calls[..|calls| - 1], n);
        NewestExactly(s.log, n, i);
      }
    }
  }

  /** Without the order the window forgets: with one entry, an update that is accepted with an older
      time is deleted at once, and then accepted a second time in a row. */
  lemma OlderTimeIsForgotten()
    ensures var log := Run([Mark(1, 5), Mark(2, 3), Mark(2, 4)], 1).log;
            log == [Mark(1, 5), Mark(2, 3), Mark(2, 4)]
  {
    var rows: Table := map[1 := 5];
    var one := map[1 := 5, 2 := 3];
    assert Run([Mark(1, 5)], 1) == State(rows, [Mark(1, 5)]) by {
      assert [Mark(1, 5)][..0] == [];
      assert LaterRows(map[1 := 5], 1) == {};
    }
    assert LaterRows(one, 2) == {1} && LaterRows(one, 1) == {};
    assert Trimmed(one, 1) == rows;
    assert [Mark(1, 5), Mark(2, 3)][..1] == [Mark(1, 5)];
    assert Run([Mark(1, 5), Mark(2, 3)], 1).rows == rows;
    assert [Mark(1, 5), Mark(2, 3), Mark(2, 4)][..2] == [Mark(1, 5), Mark(2, 3)];
  }

  // ---------------------------------------------------------------- whole runs, whatever the times

  predicate Held(rows: Table, m: Mark) {
    m.id in rows && RowOf(rows, m.id) == m
  }

  /** The accepted updates that are later than `m` in the order of rows. */
  function LaterMarks(log: seq<Mark>, m: Mark): set<Mark> {
    set x | x in log && Before(m, x)
  }

  /** An accepted update is held, or the table is full of later ones. */
  predicate HeldOrEarlier(rows: Table, m: Mark, n: nat) {
    Held(rows, m) || (|rows| == n && forall id | id in rows :: Before(m, RowOf(rows, id)))
  }

  /** The table holds the latest accepted updates, at most `n`. */
  predicate HoldsLatest(rows: Table, log: seq<Mark>, n: nat) {
    && |rows| <= n
    && (forall id | id in rows :: RowOf(rows, id) in log)
    && (forall m | m in log :: HeldOrEarlier(rows, m, n))
  }

  /** With room for all, trimming deletes nothing. */
  lemma TrimmedWithRoom(rows: Table, n: nat)
    requires |rows| <= n
    ensures Trimmed(rows, n) == rows
  {
    forall id | id in rows ensures |LaterRows(rows, id)| < n {
      SubsetSize(LaterRows(rows, id), rows.Keys - {id});
    }
  }

  /** With one row too many, trimming deletes the earliest. */
  lemma TrimmedByOne(rows: Table, n: nat) returns (oldest: UpdateId)
    requires |rows| == n + 1
    ensures oldest in rows && Trimmed(rows, n) == rows - {oldest} && |Trimmed(rows, n)| == n
    ensures forall id | id in rows && id != oldest :: Before(RowOf(rows, oldest), RowOf(rows, id))
  {
    oldest := OldestExists(rows, rows.Keys);
    assert LaterRows(rows, oldest) == rows.Keys - {oldest};
    forall id | id in rows && id != oldest ensures |LaterRows(rows, id)| < n {
      SubsetSize(LaterRows(rows, id), rows.Keys - {oldest} - {id});
    }
    assert Trimmed(rows, n).Keys == rows.Keys - {oldest};
  }

  lemma MarkKeepsLatest(rows: Table, log: seq<Mark>, m: Mark, n: nat)
    requires HoldsLatest(rows, log, n) && m.id !in rows
    ensures HoldsLatest(AfterMark(rows, m, n), log + [m], n)
  {
    var inserted := rows[m.id := m.now];
    assert |inserted| == |rows| + 1;
    if |rows| < n {
      TrimmedWithRoom(inserted, n);
      forall x | x in log + [m] ensures Held(inserted, x) { assert x in log ==> HeldOrEarlier(rows, x, n); }
    } else {
      var oldest := TrimmedByOne(inserted, n);
      forall x | x in log + [m] ensures HeldOrEarlier(Trimmed(inserted, n), x, n) {
        FullKeepsLatest(rows, log, m, n, oldest, x);
      }
    }
  }

  lemma FullKeepsLatest(rows: Table, log: seq<Mark>, m: Mark, n: nat, oldest: UpdateId, x: Mark)
    requires HoldsLatest(rows, log, n) && m.id !in rows && |rows| == n && x in log + [m]
    requires var inserted := rows[m.id := m.now];
             oldest in inserted && Trimmed(inserted, n) == inserted - {oldest} && |Trimmed(inserted, n)| == n &&
             forall id | id in inserted && id != oldest :: Before(RowOf(inserted, oldest), RowOf(inserted, id))
    ensures HeldOrEarlier(Trimmed(rows[m.id := m.now], n), x, n)
  {
    assert x in log ==> HeldOrEarlier(rows, x, n);
  }

  lemma {:induction false} RunHoldsLatest(calls: seq<Mark>, n: nat)
    ensures HoldsLatest(Run(calls, n).rows, Run(calls, n).log, n)
  {
    if calls != [] {
      var s, m := Run(calls[..|calls| - 1], n), calls[|calls| - 1];
      RunHoldsLatest(calls[..|calls| - 1], n);
      if m.id !in s.rows { MarkKeepsLatest(s.rows, s.log, m, n); }
    }
  }

  function HeldMarks(rows: Table): set<Mark> {
    set id | id in rows :: RowOf(rows, id)
  }

  lemma HeldMarksMember(rows: Table, x: Mark)
    ensures x in HeldMarks(rows) <==> Held(rows, x)
  {
    assert Held(rows, x) ==> x.id in rows && RowOf(rows, x.id) == x;
  }

  lemma HeldMarksCount(rows: Table)
    ensures |HeldMarks(rows)| == |rows|
    decreases |rows|
  {
    if |rows.Keys| > 0 {
      var id := Member(rows.Keys);
      var rest := rows - {id};
      HeldMarksCount(rest);
      forall x ensures x in HeldMarks(rows) <==> x in HeldMarks(rest) + {RowOf(rows, id)} {
        HeldMarksMember(rows, x);
        HeldMarksMember(rest, x);
      }
      assert HeldMarks(rows) == HeldMarks(rest) + {RowOf(rows, id)};
      HeldMarksMember(rest, RowOf(rows, id));
      assert rest.Keys == rows.Keys - {id};
    } else {
      assert HeldMarks(rows) == {};
    }
  }

  lemma LatestHeldExactly(rows: Table, log: seq<Mark>, m: Mark, n: nat)
    requires HoldsLatest(rows, log, n) && m in log
    ensures Held(rows, m) <==> |LaterMarks(log, m)| < n
  {
    HeldMarksCount(rows);
    var held := HeldMarks(rows);
    assert HeldOrEarlier(rows, m, n);
    if Held(rows, m) {
      forall x | x in LaterMarks(log, m) ensures x in held - {m} { assert HeldOrEarlier(rows, x, n); }
      SubsetSize(LaterMarks(log, m), held - {m});
    } else {
      SubsetSize(held, LaterMarks(log, m));
    }
  }

  /** Over all runs, whatever the times: an accepted update is in the table if and only if fewer than
      `n` of all accepted updates are later than it in the order of rows. */
  lemma HeldExactly(calls: seq<Mark>, n: nat, m: Mark)
    requires m in Run(calls, n).log
    ensures Held(Run(calls, n).rows, m) <==> |LaterMarks(Run(calls, n).log, m)| < n
  {
    RunHoldsLatest(calls, n);
    LatestHeldExactly(Run(calls, n).rows, Run(calls, n).log, m, n);
  }

  /** `log[i]` is the last acceptance of its id. */
  ghost predicate IsLastOf(log: seq<Mark>, i: nat) {
    i < |log| && forall j | i < j < |log| :: log[j].id != log[i].id
  }

  /** A row in the table is the last acceptance of its id. */
  lemma {:induction false} RowIsLast(calls: seq<Mark>, n: nat, i: nat)
    requires IsLastOf(Run(calls, n).log, i)
    ensures var s := Run(calls, n); s.log[i].id in s.rows ==> RowOf(s.rows, s.log[i].id) == s.log[i]
  {
    var s, m := Run(calls[..|calls| - 1], n), calls[|calls| - 1];
    var t := Run(calls, n);
    if m.id in s.rows {
      RowIsLast(calls[..|calls| - 1], n, i);
    } else if i < |s.log| {
      assert t.log[|s.log|] == m && t.log[i] == s.log[i];
      forall j | i < j < |s.log| ensures s.log[j].id != s.log[i].id { assert t.log[j] == s.log[j]; }
      RowIsLast(calls[..|calls| - 1], n, i);
    }
  }

  /** Over all runs: an id that was accepted before is accepted again if and only if at least `n`
      accepted updates are later, in the order of rows, than its last acceptance. So it comes back
      too early exactly when these are not all among the updates accepted since. */
  lemma AcceptedAgainExactly(calls: seq<Mark>, n: nat, i: nat, again: Mark)
    requires IsLastOf(Run(calls, n).log, i) && Run(calls, n).log[i].id == again.id
    ensures var log := Run(calls, n).log;
            Run(calls + [again], n).log == log + [again] <==> |LaterMarks(log, log[i])| >= n
  {
    RowIsLast(calls, n, i);
    HeldExactly(calls, n, Run(calls, n).log[i]);
    assert (calls + [again])[..|calls|] == calls;
  }

  /** A second input: with two entries, id 2 is still remembered when it has been accepted, and yet
      accepted again after a single other update. */
  lemma EarlierTimeComesBack()
    ensures var log := Run([Mark(1, 9), Mark(2, 5), Mark(3, 6), Mark(2, 7)], 2).log;
            log == [Mark(1, 9), Mark(2, 5), Mark(3, 6), Mark(2, 7)]
    ensures 2 in Run([Mark(1, 9), Mark(2, 5)], 2).rows
  {
    var a, b, c, d := Mark(1, 9), Mark(2, 5), Mark(3, 6), Mark(2, 7);
    TwoAreKept();
    assert [a, b, c][..2] == [a, b];
    assert Run([a, b, c], 2).log == [a, b, c];
    SecondIsPassed([a, b, c]);
    AcceptedAgainExactly([a, b, c], 2, 1, d);
    assert [a, b, c] + [d] == [a, b, c, d];
  }

  lemma TwoAreKept()
    ensures Run([Mark(1, 9), Mark(2, 5)], 2) == State(map[1 := 9, 2 := 5], [Mark(1, 9), Mark(2, 5)])
  {
    var a, b := Mark(1, 9), Mark(2, 5);
    assert [a][..0] == [] && [a, b][..1] == [a];
    TrimmedWithRoom(map[1 := 9], 2);
    assert Run([a], 2) == State(map[1 := 9], [a]);
    TrimmedWithRoom(map[1 := 9, 2 := 5], 2);
  }

  lemma SecondIsPassed(log: seq<Mark>)
    requires log == [Mark(1, 9), Mark(2, 5), Mark(3, 6)]
    ensures IsLastOf(log, 1) && |LaterMarks(log, log[1])| >= 2
  {
    assert log[0] in log && log[2] in log;
    SubsetSize({log[0], log[2]}, LaterMarks(log, log[1]));
  }
}
