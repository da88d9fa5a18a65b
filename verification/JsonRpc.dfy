/** The JSON-RPC client and the pump that moves its notifications to the service. The calls of
    `request` are told apart by a `CallId`, which also names the queue that the call waits on. */
module JsonRpc {
  import opened Options

  type CallId = nat

  datatype Note = Note(name: string, params: string)

  datatype Asked = Asked(id: int, name: string)

  datatype Body = Result(value: string) | Failure(message: string)

  /** A line from the server. `about` is the call whose request the server answers; the client
      cannot see it. */
  datatype Line =
    | Request(asked: Asked)
    | Notification(note: Note)
    | Response(id: int, body: Body, about: CallId)
    | NoId

  /** The fields of the client; `boxes` holds what is in the queue, of size one, of each call. */
  datatype Client = Client(
    nextId: int,
    pending: map<int, CallId>,
    boxes: map<CallId, Option<Line>>,
    notifications: seq<Note>,
    requests: seq<Asked>)

  const NEW_CLIENT := Client(1, map[], map[], [], [])

  function Registered(c: Client, id: int, call: CallId): Client {
    c.(pending := c.pending[id := call], boxes := c.boxes[call := None])
  }

  function Unregistered(c: Client, id: int): Client {
    c.(pending := c.pending - {id})
  }

  /** One line read: requests and notifications are queued. */
  function Dispatched(c: Client, line: Line): Client {
    match line
    case Request(asked) => c.(requests := c.requests + [asked])
    case Notification(note) => c.(notifications := c.notifications + [note])
    case _ => c
  }

  /** The call whose queue a line goes to. */
  function Addressee(c: Client, line: Line): Option<CallId> {
    if line.Response? && line.id in c.pending then Some(c.pending[line.id]) else None
  }

  function Delivered(c: Client, call: CallId, line: Line): Client {
    c.(boxes := c.boxes[call := Some(line)])
  }

  function Emptied(c: Client, call: CallId): Client {
    c.(boxes := c.boxes[call := None])
  }

  class JsonRpcClient {
    var nextId: int
    var pending: map<int, CallId>
    var boxes: map<CallId, Option<Line>>
    var notifications: seq<Note>
    var requests: seq<Asked>

    ghost function State(): Client
      reads this
    {
      Client(nextId, pending, boxes, notifications, requests)
    }

    constructor ()
      ensures State() == NEW_CLIENT
    {
      nextId := 1;
      pending, boxes := map[], map[];
      notifications, requests := [], [];
    }

    /** Two statements in the source, which two callers may interleave. */
    method AllocateId() returns (id: int)
      modifies this`nextId
      ensures id == old(nextId) && State() == old(State()).(nextId := id + 1)
    {
      id := nextId;
      nextId := nextId + 1;
    }

    method Register(id: int, call: CallId)
      modifies this`pending, this`boxes
      ensures State() == Registered(old(State()), id, call)
    {
      boxes := boxes[call := None];
      pending := pending[id := call];
    }

    method Unregister(id: int)
      modifies this`pending
      ensures State() == Unregistered(old(State()), id)
    {
      pending := pending - {id};
    }

    /** The reader's treatment of one line, up to the queue it will put a response into. */
    method Dispatch(line: Line) returns (target: Option<CallId>)
      modifies this`notifications, this`requests
      ensures State() == Dispatched(old(State()), line)
      ensures target == Addressee(old(State()), line)
    {
      target := None;
      if line.Request? {
        requests := requests + [line.asked];
      } else if line.Notification? {
        notifications := notifications + [line.note];
      } else if line.Response? && line.id in pending {
        target := Some(pending[line.id]);
      }
    }

    /** `response_queue.put`, which waits while the queue is full. */
    method PutResponse(call: CallId, line: Line) returns (done: bool)
      modifies this`boxes
      ensures done <==> call in old(boxes) && old(boxes)[call].None?
      ensures State() == if done then Delivered(old(State()), call, line) else old(State())
    {
      done := call in boxes && boxes[call].None?;
      if done {
        boxes := boxes[call := Some(line)];
      }
    }

    /** `response_queue.get`; nothing if the time is over before a response came. */
    method GetResponse(call: CallId) returns (line: Option<Line>)
      requires call in boxes
      modifies this`boxes
      ensures line == old(boxes)[call] && State() == Emptied(old(State()), call)
    {
      line := boxes[call];
      boxes := boxes[call := None];
    }

    method GetNotificationNowait() returns (note: Option<Note>)
      modifies this`notifications
      ensures if old(notifications) == [] then note == None && notifications == []
              else note == Some(old(notifications)[0]) && old(notifications) == [old(notifications)[0]] + notifications
    {
      if notifications == [] {
        return None;
      }
      note := Some(notifications[0]);
      notifications := notifications[1..];
    }

    method GetRequestNowait() returns (asked: Option<Asked>)
      modifies this`requests
      ensures if old(requests) == [] then asked == None && requests == []
              else asked == Some(old(requests)[0]) && old(requests) == [old(requests)[0]] + requests
    {
      if requests == [] {
        return None;
      }
      asked := Some(requests[0]);
      requests := requests[1..];
    }
  }

  const CODEX_NOTIFICATION_QUEUE_MAX_SIZE := 128

  class CodexNotificationPump {
    const maxSize: nat
    var queue: seq<Note>
    var inHand: Option<Note>

    ghost predicate Valid()
      reads this
    {
      |queue| <= maxSize
    }

    /** What the pump holds, oldest first. */
    ghost function Held(): seq<Note>
      reads this
    {
      queue + Hand(inHand)
    }

    constructor (maxSize: nat := CODEX_NOTIFICATION_QUEUE_MAX_SIZE)
      ensures Valid() && Held() == [] && this.maxSize == maxSize
    {
      this.maxSize := maxSize;
      queue, inHand := [], None;
    }

    /** One round of the pump thread: takes a notification if it has none in hand, and puts it into
        the queue if there is room; otherwise it keeps it in hand. No order changes. */
    method Round(client: JsonRpcClient)
      requires Valid()
      modifies this, client`notifications
      ensures Valid()
      ensures Held() + client.notifications == old(Held() + client.notifications)
      ensures old(|queue|) < maxSize ==> inHand == None
      ensures inHand.None? && |queue| < maxSize && client.notifications != [] ==> |queue| > old(|queue|)
    {
      ghost var before, waiting := Held(), client.notifications;
      if inHand.None? {
        inHand := client.GetNotificationNowait();
      }
      assert Held() + client.notifications == before + waiting;
      if inHand.Some? && |queue| < maxSize {
        ghost var held := Held();
        queue := queue + [inHand.value];
        inHand := None;
        assert Held() == held;
      }
    }

    method GetNowait() returns (note: Option<Note>)
      requires Valid()
      modifies this`queue
      ensures Valid() && old(Held()) == Hand(note) + Held()
      ensures note.None? <==> old(queue) == []
    {
      if queue == [] {
        assert Hand(None) + Held() == Held();
        return None;
      }
      note := Some(queue[0]);
      queue := queue[1..];
    }
  }

  function Hand(note: Option<Note>): seq<Note> {
    if note.None? then [] else [note.value]
  }
}
