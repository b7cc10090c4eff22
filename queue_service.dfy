/**
 * Named FIFO queues over Redis lists (backend/services/queue_service.py).
 * A queue is the Redis list stored under "<prefix>:<name>"; `enqueue`
 * pushes at the head (LPUSH) and `dequeue` pops from the tail (BRPOP), so
 * the list read from the tail is the order of arrival. Whether the Redis
 * client can reach the server is the field `available`; a call made while
 * it is false raises in the source and fails here. A caller that pushes
 * several messages in one call is also given the positions of the pushes
 * the server stops answering in the middle of that call (`Answered`).
 */
module QueueService {
  import opened Wrappers

  /** A decoded JSON scalar, as the workers read it from a message. */
  datatype JsonValue = JInt(i: int) | JStr(s: string) | JBool(b: bool) | JNull

  type Payload = map<string, JsonValue>

  /**
   * A list element: the JSON text of an object, JSON text of another value
   * (a number, string, array, ...; only its truthiness matters to the
   * workers), or text that is not JSON.
   */
  datatype Body = Json(payload: Payload) | NotObject(truthy: bool) | Garbled(raw: string)

  /** Python truthiness of a decoded value. */
  predicate Truthy(v: JsonValue) {
    match v
    case JInt(i) => i != 0
    case JStr(s) => s != ""
    case JBool(b) => b
    case JNull => false
  }

  /** `payload.get(field)` followed by a truthiness test that only integer ids pass. */
  function IdField(p: Payload, field: string): (r: Option<int>)
    ensures r.Some? <==> field in p && p[field].JInt? && p[field].i != 0
    ensures r.Some? ==> r.value == p[field].i
  {
    if field in p && p[field].JInt? && p[field].i != 0 then Some(p[field].i) else None
  }

  /**
   * What the head of a worker's `_run` loop makes of one BRPOP: the call
   * raised; nothing usable (an empty queue, text that is not JSON, a falsy
   * value: `if not job: continue`); a truthy value that is not an object, on
   * which `job.get` raises; an object without a truthy integer id
   * (`if not job_id: continue`); or the id to process.
   */
  datatype Reception = Unreachable | Empty | Malformed | Skipped | Got(id: int)

  /** The loop head's reading of one dequeued body, for the id under `field`. */
  function Filtered(body: Body, field: string): (r: Reception)
    ensures r.Got? <==> body.Json? && IdField(body.payload, field).Some?
    ensures r.Got? ==> r.id == body.payload[field].i
    ensures r == Malformed <==> body == NotObject(true)
    ensures r != Unreachable
  {
    match body
    case Garbled(_) => Empty
    case NotObject(t) => if t then Malformed else Empty
    case Json(p) =>
      if p == map[] then Empty
      else match IdField(p, field)
        case None => Skipped
        case Some(id) => Got(id)
  }

  /**
   * Whether push number `k` of one call (counted from 0) reaches the list:
   * the client was reachable when the call began and the server did not stop
   * answering at that push.
   */
  predicate Answered(available: bool, down: set<nat>, k: nat) {
    available && k !in down
  }

  /**
   * How many pushes of a call that stops at its first unanswered push get
   * through, out of `n`: the answered prefix.
   */
  function Reach(available: bool, down: set<nat>, n: nat): (r: nat)
    ensures r <= n
    ensures forall k :: 0 <= k < r ==> Answered(available, down, k)
    ensures r < n ==> !Answered(available, down, r)
    decreases n
  {
    if n == 0 then 0
    else
      var r := Reach(available, down, n - 1);
      if r == n - 1 && Answered(available, down, n - 1) then n else r
  }

  /** A longer call gets at least as far, and exactly as far once it stopped early. */
  lemma {:induction false} ReachGrows(available: bool, down: set<nat>, m: nat, n: nat)
    requires m <= n
    ensures Reach(available, down, m) <= Reach(available, down, n)
    ensures Reach(available, down, m) < m ==> Reach(available, down, n) == Reach(available, down, m)
    decreases n - m
  {
    if m < n {
      ReachGrows(available, down, m, n - 1);
    }
  }

  /** A call whose first `k` pushes were answered and whose push `k` (if any) was not got exactly `k` through. */
  lemma ReachIs(available: bool, down: set<nat>, k: nat, n: nat)
    requires k <= n
    requires forall j :: 0 <= j < k ==> Answered(available, down, j)
    requires k < n ==> !Answered(available, down, k)
    ensures Reach(available, down, n) == k
  {
  }

  function QueueKey(prefix: string, name: string): string {
    prefix + ":" + name
  }

  /** Distinct queue names are stored under distinct Redis keys. */
  lemma {:induction false} QueueKeyInjective(prefix: string, a: string, b: string)
    requires QueueKey(prefix, a) == QueueKey(prefix, b)
    ensures a == b
  {
    var n := |prefix| + 1;
    assert a == QueueKey(prefix, a)[n..];
    assert b == QueueKey(prefix, b)[n..];
  }

  function Reverse<T>(s: seq<T>): (r: seq<T>)
    ensures |r| == |s|
  {
    if s == [] then [] else Reverse(s[1..]) + [s[0]]
  }

  /** Removing the tail element of a list removes the head of its reversal. */
  lemma {:induction false} ReverseSnoc<T>(s: seq<T>, y: T)
    ensures Reverse(s + [y]) == [y] + Reverse(s)
    decreases |s|
  {
    if s == [] {
      assert Reverse([y]) == Reverse([y][1..]) + [y];
    } else {
      assert (s + [y])[1..] == s[1..] + [y];
      ReverseSnoc(s[1..], y);
    }
  }

  class Queue {
    const prefix: string
    var lists: map<string, seq<Body>>
    var available: bool

    constructor (prefix: string, available: bool)
      ensures this.prefix == prefix && this.available == available
      ensures lists == map[]
    {
      this.prefix := prefix;
      this.available := available;
      lists := map[];
    }

    /** The Redis list under `key`, head first; a missing key is an empty list. */
    function ListAt(key: string): seq<Body>
      reads this
    {
      if key in lists then lists[key] else []
    }

    /** Messages of queue `name` in the order they will be dequeued. */
    function Pending(name: string): seq<Body>
      reads this
    {
      Reverse(ListAt(QueueKey(prefix, name)))
    }

    /** Connection changes seen by the client between calls. */
    method SetAvailable(up: bool)
      modifies this`available
      ensures available == up
    {
      available := up;
    }

    /** enqueue: LPUSH of the JSON text; raises when the server is unreachable. */
    method Enqueue(name: string, payload: Payload) returns (pushed: bool)
      modifies this`lists
      ensures pushed == available
      ensures pushed ==> Pending(name) == old(Pending(name)) + [Json(payload)]
      ensures pushed ==> lists == old(lists)[QueueKey(prefix, name) := [Json(payload)] + old(ListAt(QueueKey(prefix, name)))]
      ensures !pushed ==> lists == old(lists)
      ensures forall other :: other != name ==> Pending(other) == old(Pending(other))
    {
      pushed := available;
      if pushed {
        var key := QueueKey(prefix, name);
        var list := ListAt(key);
        assert ([Json(payload)] + list)[1..] == list;
        lists := lists[key := [Json(payload)] + list];
        forall other | other != name
          ensures Pending(other) == old(Pending(other))
        {
          if QueueKey(prefix, other) == key {
            QueueKeyInjective(prefix, other, name);
          }
        }
      }
    }

    /**
     * dequeue: BRPOP from the tail. An empty queue yields None (the wait for
     * the timeout is not modelled); a body that is not JSON is still removed
     * and yields None; any other body yields its decoded value; an
     * unreachable server is an error.
     */
    method Dequeue(name: string) returns (r: Result<Option<Body>>)
      modifies this`lists
      ensures !old(available) <==> r.Err?
      ensures r.Err? || old(Pending(name)) == [] ==> lists == old(lists)
      ensures r.Ok? && old(Pending(name)) == [] ==> r.value == None
      ensures r.Ok? && old(Pending(name)) != [] ==>
        && Pending(name) == old(Pending(name))[1..]
        && |ListAt(QueueKey(prefix, name))| == |old(ListAt(QueueKey(prefix, name)))| - 1
        && (forall other :: other != name ==> Pending(other) == old(Pending(other)))
        && r.value == (if old(Pending(name))[0].Garbled? then None else Some(old(Pending(name))[0]))
    {
      if !available {
        return Err("redis unreachable");
      }
      var key := QueueKey(prefix, name);
      var list := ListAt(key);
      if list == [] {
        return Ok(None);
      }
      var last := list[|list| - 1];
      var rest := list[..|list| - 1];
      assert list == rest + [last];
      ReverseSnoc(rest, last);
      lists := lists[key := rest];
      forall other | other != name
        ensures Pending(other) == old(Pending(other))
      {
        if QueueKey(prefix, other) == key {
          QueueKeyInjective(prefix, other, name);
        }
      }
      r := if last.Garbled? then Ok(None) else Ok(Some(last));
    }

    /** length: LLEN, or 0 when the client raises. */
    method Length(name: string) returns (n: nat)
      ensures n == if available then |Pending(name)| else 0
    {
      n := if available then |ListAt(QueueKey(prefix, name))| else 0;
    }

    /** ping: False when the client raises. */
    method Ping() returns (up: bool)
      ensures up == available
    {
      up := available;
    }
  }

  /**
   * One BRPOP of queue `name` as a loop sees it: an error when the server
   * is unreachable, nothing when the queue is empty or the message is not
   * JSON, and otherwise the message at the head of the queue.
   */
  method Take(queue: Queue, name: string) returns (r: Result<Option<Body>>)
    modifies queue`lists
    ensures r.Err? <==> !queue.available
    ensures r.Ok? ==>
      r.value == if old(queue.Pending(name)) == [] || old(queue.Pending(name))[0].Garbled? then None
                 else Some(old(queue.Pending(name))[0])
    ensures queue.Pending(name) ==
      if queue.available && old(queue.Pending(name)) != [] then old(queue.Pending(name))[1..] else old(queue.Pending(name))
    ensures !queue.available || old(queue.Pending(name)) == [] ==> queue.lists == old(queue.lists)
    ensures forall other :: other != name ==> queue.Pending(other) == old(queue.Pending(other))
  {
    r := queue.Dequeue(name);
  }

  /**
   * The head of the analysis and email workers' `_run` loops: one BRPOP of
   * queue `name` and the test of the id under `field`.
   */
  method Receive(queue: Queue, name: string, field: string) returns (r: Reception)
    modifies queue`lists
    ensures r == if !queue.available then Unreachable
                 else if old(queue.Pending(name)) == [] then Empty
                 else Filtered(old(queue.Pending(name))[0], field)
    ensures queue.available && old(queue.Pending(name)) != [] ==> queue.Pending(name) == old(queue.Pending(name))[1..]
    ensures !queue.available || old(queue.Pending(name)) == [] ==> queue.lists == old(queue.lists)
    ensures forall other :: other != name ==> queue.Pending(other) == old(queue.Pending(other))
  {
    var message := queue.Dequeue(name);
    if message.Err? {
      return Unreachable;
    }
    if message.value.None? {
      return Empty;
    }
    r := Filtered(message.value.value, field);
  }

  /**
   * The `k`-th enqueue of one call (counting from 0): it reaches the server
   * exactly when the push is answered, and otherwise raises and changes
   * nothing.
   */
  method Push(queue: Queue, name: string, payload: Payload, down: set<nat>, k: nat) returns (pushed: bool)
    modifies queue`lists
    ensures pushed == Answered(queue.available, down, k)
    ensures queue.Pending(name) == old(queue.Pending(name)) + (if pushed then [Json(payload)] else [])
    ensures !pushed ==> queue.lists == old(queue.lists)
    ensures forall other :: other != name ==> queue.Pending(other) == old(queue.Pending(other))
  {
    if k in down {
      return false;
    }
    pushed := queue.Enqueue(name, payload);
  }
}
