/** The outbound queue table, and what each of its transactions does to it. Times are microseconds. */
module DeliveryTable {
  import opened Options

  const THROTTLE := 50_000
  const SECOND := 1_000_000
  const INITIAL_BACKOFF_SECONDS: nat := 2
  const MAX_BACKOFF_SECONDS: nat := 3600

  type RowId = nat
  type RunId = nat

  datatype Status = Queued | Claimed | Completed | Failed

  datatype OpType = SendMessage | EditMessage | DeleteMessage | Typing | SendPhoto | SendDocument

  /** What a message shows. */
  datatype Content = Content(text: string, parseMode: Option<string>)

  datatype Payload = Payload(content: Content, target: Option<int>)

  /** A queue row. An empty key means the row has no dedupe key. */
  datatype Row = Row(
    createdAt: int,
    availableAt: int,
    status: Status,
    op: OpType,
    messageId: Option<int>,
    key: string,
    priority: int,
    payload: Payload,
    attempts: nat,
    claimedBy: Option<RunId>,
    completedAt: Option<int>)
  {
    predicate Live() { status == Queued || status == Claimed }
  }

  type Rows = map<RowId, Row>

  /** The table together with the rate-limit record; an absent record is (None, 0). */
  datatype Table = Table(rows: Rows, pausedUntil: Option<int>, backoff: nat)

  /** What the caller of `enqueue` supplies. */
  datatype Request = Request(op: OpType, messageId: Option<int>, key: string, priority: int, payload: Payload)

  function Max(a: int, b: int): int { if a < b then b else a }

  function Min(a: int, b: int): int { if a < b then a else b }

  /** `_initial_available_at` */
  function InitialAvailableAt(pausedUntil: Option<int>, now: int): int {
    match pausedUntil
    case None => now + THROTTLE
    case Some(p) => Max(now + THROTTLE, p)
  }

  function NewRow(request: Request, pausedUntil: Option<int>, now: int): Row {
    Row(now, InitialAvailableAt(pausedUntil, now), Queued, request.op, request.messageId, request.key,
        request.priority, request.payload, 0, None, None)
  }

  predicate Replaced(r: Row, key: string) {
    key != "" && r.key == key && r.status == Queued
  }

  function DropReplaced(rows: Rows, key: string): Rows {
    map id | id in rows && !Replaced(rows[id], key) :: rows[id]
  }

  function Enqueue(t: Table, id: RowId, request: Request, now: int): Table {
    t.(rows := DropReplaced(t.rows, request.key)[id := NewRow(request, t.pausedUntil, now)])
  }

  /** A row that the claim may pick. */
  predicate Ready(r: Row, now: int) {
    r.status == Queued && r.availableAt <= now
  }

  predicate Before(a: Row, b: Row) {
    a.priority < b.priority || (a.priority == b.priority && a.createdAt <= b.createdAt)
  }

  /** `ORDER BY priority, created_at LIMIT 1` over the rows that are ready. */
  ghost predicate IsNext(rows: Rows, id: RowId, now: int) {
    id in rows && Ready(rows[id], now) && forall j | j in rows && Ready(rows[j], now) :: Before(rows[id], rows[j])
  }

  function ClaimedRow(r: Row, run: RunId): Row {
    r.(status := Claimed, claimedBy := Some(run))
  }

  function Claim(t: Table, id: RowId, run: RunId): Table
    requires id in t.rows
  {
    t.(rows := t.rows[id := ClaimedRow(t.rows[id], run)])
  }

  function SkippedRow(r: Row, now: int): Row {
    r.(status := Completed, completedAt := Some(now), claimedBy := None)
  }

  function Skip(t: Table, id: RowId, now: int): Table
    requires id in t.rows
  {
    t.(rows := t.rows[id := SkippedRow(t.rows[id], now)])
  }

  function DoneRow(r: Row, messageId: Option<int>, now: int): Row {
    r.(status := Completed, completedAt := Some(now), messageId := if messageId.Some? then messageId else r.messageId)
  }

  /** The remote call changed nothing because nothing had to change. */
  function FinishUnchanged(t: Table, id: RowId, now: int): Table
    requires id in t.rows
  {
    Table(t.rows[id := DoneRow(t.rows[id], None, now)], None, 0)
  }

  predicate Promotable(r: Row, key: string) {
    r.key == key && r.status == Queued && r.op == SendMessage
  }

  /** A queued send becomes an edit of the message that exists now; text and parse mode stay. */
  function PromotedRow(r: Row, messageId: int): Row {
    r.(op := EditMessage, messageId := Some(messageId), payload := Payload(r.payload.content, Some(messageId)))
  }

  function Promote(rows: Rows, current: RowId, key: string, messageId: int): Rows {
    map id | id in rows ::
      if key != "" && id != current && Promotable(rows[id], key) then PromotedRow(rows[id], messageId) else rows[id]
  }

  function FinishDone(t: Table, id: RowId, messageId: Option<int>, now: int): Table
    requires id in t.rows
  {
    var r := t.rows[id];
    var rows := t.rows[id := DoneRow(r, messageId, now)];
    Table(if messageId.Some? && r.op == SendMessage then Promote(rows, id, r.key, messageId.value) else rows, None, 0)
  }

  /** `_advance_global_pause`: the next backoff, in seconds. */
  function NextBackoff(current: nat, retryAfter: int): nat {
    var doubled := if current < INITIAL_BACKOFF_SECONDS then INITIAL_BACKOFF_SECONDS
                   else Min(current * 2, MAX_BACKOFF_SECONDS);
    Min(Max(doubled, Max(retryAfter, 1)), MAX_BACKOFF_SECONDS)
  }

  function RaisedRow(r: Row, pause: int): Row {
    if r.status == Queued && r.availableAt < pause then r.(availableAt := pause) else r
  }

  function Raise(rows: Rows, pause: int): Rows {
    map id | id in rows :: RaisedRow(rows[id], pause)
  }

  function RequeuedRow(r: Row, pause: int): Row {
    r.(status := Queued, attempts := r.attempts + 1, availableAt := pause, claimedBy := None)
  }

  function FinishLimited(t: Table, id: RowId, retryAfter: int, now: int): Table
    requires id in t.rows
  {
    var backoff := NextBackoff(t.backoff, retryAfter);
    var pause := now + backoff * SECOND;
    Table(Raise(t.rows[id := RequeuedRow(t.rows[id], pause)], pause), Some(pause), backoff)
  }

  function FailedRow(r: Row, now: int): Row {
    r.(status := Failed, attempts := r.attempts + 1, completedAt := Some(now), claimedBy := None)
  }

  function FinishFailed(t: Table, id: RowId, now: int): Table
    requires id in t.rows
  {
    t.(rows := t.rows[id := FailedRow(t.rows[id], now)])
  }

  /** A claimed row whose claimant is unknown or dead. */
  predicate Orphan(r: Row, dead: set<RunId>) {
    r.status == Claimed && (r.claimedBy.None? || r.claimedBy.value in dead)
  }

  function RecoveredRow(r: Row, dead: set<RunId>): Row {
    if Orphan(r, dead) then r.(status := Queued, claimedBy := None) else r
  }

  function Recover(t: Table, dead: set<RunId>): Table {
    t.(rows := map id | id in t.rows :: RecoveredRow(t.rows[id], dead))
  }

  /** Explicit cancellation of queued rows. */
  function Cancel(t: Table, ids: set<RowId>): Table {
    t.(rows := map id | id in t.rows && !(id in ids && t.rows[id].status == Queued) :: t.rows[id])
  }

  /** A completed row that names the message of a key. */
  predicate Names(r: Row, key: string) {
    r.key == key && r.status == Completed && r.messageId.Some?
  }

  predicate LaterOrSame(a: Row, b: Row) {
    match (a.completedAt, b.completedAt)
    case (Some(x), Some(y)) => x > y || (x == y && a.createdAt >= b.createdAt)
    case (Some(_), None) => true
    case (None, Some(_)) => false
    case (None, None) => a.createdAt >= b.createdAt
  }

  ghost predicate IsLatestRow(rows: Rows, key: string, id: RowId) {
    id in rows && Names(rows[id], key) && forall j | j in rows && Names(rows[j], key) :: LaterOrSame(rows[id], rows[j])
  }

  /** The message id of the most recently completed row of a key that has one. */
  ghost predicate IsLatestMessage(rows: Rows, key: string, found: Option<int>) {
    match found
    case None => key == "" || forall id | id in rows :: !Names(rows[id], key)
    case Some(m) => key != "" && exists id :: IsLatestRow(rows, key, id) && rows[id].messageId == Some(m)
  }

  /** What the remote call gave: a result, or an error with what its text reveals. */
  datatype Answer =
    | Result(messageId: Option<int>)
    | Error(notModified: bool, notFound: bool, retryAfter: Option<int>)

  datatype Verdict = Done(messageId: Option<int>) | Unchanged | Limited(retryAfter: int) | Refused

  /** The branches after the remote call. */
  function Judge(op: OpType, answer: Answer): Verdict {
    match answer
    case Result(m) => Done(m)
    case Error(notModified, notFound, retryAfter) =>
      if (op == EditMessage && notModified) || (op == DeleteMessage && notFound) then Unchanged
      else if retryAfter.Some? then Limited(retryAfter.value)
      else Refused
  }

  function Finish(t: Table, id: RowId, verdict: Verdict, now: int): Table
    requires id in t.rows
  {
    match verdict
    case Done(m) => FinishDone(t, id, m, now)
    case Unchanged => FinishUnchanged(t, id, now)
    case Limited(retryAfter) => FinishLimited(t, id, retryAfter, now)
    case Refused => FinishFailed(t, id, now)
  }
}
